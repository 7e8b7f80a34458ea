/** Rule lists, verdicts and the abstract specification that all rule stores are measured against
    (rule/store.go). */
module Rules {
  import opened Text

  datatype ListType = Allow | Block

  datatype RuleList = RuleList(canonical: string, short: string, kind: ListType, regex: bool)

  datatype Match = MatchAllow | MatchBlock | MatchNone

  datatype Verdict = Verdict(match_: Match, list: Option<RuleList>, rule: string)

  const NONE := Verdict(MatchNone, None, "")

  function MatchOf(kind: ListType): (r: Match) {
    if kind == Allow then MatchAllow else MatchBlock
  }

  /** The configured lists: canonical names and short names identify a list. */
  ghost predicate Distinct(universe: set<RuleList>) {
    && (forall a, b :: a in universe && b in universe && a.canonical == b.canonical ==> a == b)
    && (forall a, b :: a in universe && b in universe && a.short == b.short ==> a == b)
    && (forall a :: a in universe ==> a.short != "")
  }

  ghost predicate Within(universe: set<RuleList>, query: seq<RuleList>) {
    forall i :: 0 <= i < |query| ==> query[i] in universe
  }

  // ---- baseStore ----

  type Lists = map<ListType, map<string, RuleList>>

  function AddList(lists: Lists, list: RuleList): (r: Lists) {
    lists[list.kind := (if list.kind in lists then lists[list.kind] else map[])[list.short := list]]
  }

  function RemoveList(lists: Lists, list: RuleList): (r: Lists) {
    if list.kind in lists then lists[list.kind := lists[list.kind] - {list.short}] else lists
  }

  function Held(lists: Lists, kind: ListType, short: string): (r: Option<RuleList>) {
    if kind in lists && short in lists[kind] then Some(lists[kind][short]) else None
  }

  function GetList(lists: Lists, short: string): (r: Option<RuleList>) {
    if short == "" then None
    else if Held(lists, Allow, short).Some? then Held(lists, Allow, short)
    else Held(lists, Block, short)
  }

  /** matchForEachOfTypeIn: the first held list of the type, in query order, that yields a match. */
  function FirstMatch(lists: Lists, kind: ListType, query: seq<RuleList>, action: RuleList -> Verdict): (r: Verdict)
    ensures r.match_ == MatchNone ==> r == NONE
  {
    if query == [] then NONE
    else
      var held := Held(lists, kind, query[0].short);
      if held.Some? && action(held.value).match_ != MatchNone then action(held.value)
      else FirstMatch(lists, kind, query[1..], action)
  }

  /** Allow lists before block lists. */
  function TwoPass(lists: Lists, query: seq<RuleList>, action: RuleList -> Verdict): (r: Verdict) {
    var allow := FirstMatch(lists, Allow, query, action);
    if allow.match_ != MatchNone then allow else FirstMatch(lists, Block, query, action)
  }

  lemma {:induction false} NoneHeld(lists: Lists, kind: ListType, query: seq<RuleList>, action: RuleList -> Verdict)
    requires kind !in lists
    ensures FirstMatch(lists, kind, query, action) == NONE
    decreases |query|
  {
    if query != [] { NoneHeld(lists, kind, query[1..], action); }
  }

  // ---- what has been loaded ----

  /** The rules of every list in load order, since the list was last cleared. */
  type Book = map<RuleList, seq<string>>

  function RulesOf(book: Book, list: RuleList): (r: seq<string>) {
    if list in book then book[list] else []
  }

  datatype Op = Load(list: RuleList, rule: string) | Clear(list: RuleList) | Finalize(lists: seq<RuleList>)

  function Recorded(book: Book, op: Op): (r: Book) {
    match op
    case Load(l, rule) => book[l := RulesOf(book, l) + [rule]]
    case Clear(l) => book - {l}
    case Finalize(_) => book
  }

  function Written(ops: seq<Op>): (r: Book) {
    if ops == [] then map[] else Recorded(Written(ops[..|ops| - 1]), ops[|ops| - 1])
  }

  ghost predicate Confined(universe: set<RuleList>, ops: seq<Op>) {
    forall i :: 0 <= i < |ops| ==> ConfinedOp(universe, ops[i])
  }

  ghost predicate ConfinedOp(universe: set<RuleList>, op: Op) {
    match op
    case Load(l, _) => l in universe
    case Clear(l) => l in universe
    case Finalize(ls) => Within(universe, ls)
  }

  lemma ConfinedInit(universe: set<RuleList>, ops: seq<Op>)
    requires Confined(universe, ops) && ops != []
    ensures Confined(universe, ops[..|ops| - 1]) && ConfinedOp(universe, ops[|ops| - 1])
  {
    assert forall i :: 0 <= i < |ops| - 1 ==> ops[..|ops| - 1][i] == ops[i];
  }

  /** A list is registered in a store exactly while it has rules in the book. */
  ghost predicate Registered(universe: set<RuleList>, lists: Lists, book: Book) {
    && book.Keys <= universe
    && (forall kind, short :: Held(lists, kind, short).Some? ==>
          var l := Held(lists, kind, short).value; l in book && l.kind == kind && l.short == short)
    && (forall l :: l in book ==> Held(lists, l.kind, l.short) == Some(l))
  }

  function Listed(lists: Lists, op: Op): (r: Lists) {
    match op
    case Load(l, _) => AddList(lists, l)
    case Clear(l) => RemoveList(lists, l)
    case Finalize(_) => lists
  }

  lemma ListedKeepsRegistered(universe: set<RuleList>, lists: Lists, book: Book, op: Op)
    requires Distinct(universe) && Registered(universe, lists, book) && ConfinedOp(universe, op)
    ensures Registered(universe, Listed(lists, op), Recorded(book, op))
  {
    var lists', book' := Listed(lists, op), Recorded(book, op);
    match op
    case Load(l, _) =>
      forall k, s ensures Held(lists', k, s) == if k == l.kind && s == l.short then Some(l) else Held(lists, k, s) {}
    case Clear(l) =>
      forall k, s ensures Held(lists', k, s) == if k == l.kind && s == l.short then None else Held(lists, k, s) {}
    case Finalize(_) =>
  }

  // ---- the specification ----

  predicate Hits(rules: seq<string>, names: seq<string>) {
    exists i :: 0 <= i < |names| && names[i] in rules
  }

  /** The specification in one line each: allow if an allow list of the query holds a label suffix of
      the domain, else block likewise, else no match. */
  ghost predicate SomeListHits(book: Book, kind: ListType, query: seq<RuleList>, names: seq<string>) {
    exists i :: 0 <= i < |query| && query[i].kind == kind && Hits(RulesOf(book, query[i]), names)
  }

  ghost function SpecMatch(book: Book, query: seq<RuleList>, names: seq<string>): (r: Match) {
    if SomeListHits(book, Allow, query, names) then MatchAllow
    else if SomeListHits(book, Block, query, names) then MatchBlock
    else MatchNone
  }

  /** The verdict names the first list of its kind that hits, in query order, and that list's
      longest matching suffix. */
  ghost predicate NamesFirst(book: Book, query: seq<RuleList>, names: seq<string>, v: Verdict, i: nat, j: nat) {
    && i < |query| && j < |names|
    && v.match_ == MatchOf(query[i].kind) && v.list == Some(query[i]) && v.rule == names[j]
    && names[j] in RulesOf(book, query[i])
    && (forall k :: 0 <= k < i ==> !(query[k].kind == query[i].kind && Hits(RulesOf(book, query[k]), names)))
    && (forall k :: 0 <= k < j ==> names[k] !in RulesOf(book, query[i]))
  }

  ghost predicate MeetsSpec(book: Book, query: seq<RuleList>, names: seq<string>, v: Verdict) {
    && v.match_ == SpecMatch(book, query, names)
    && (v.match_ == MatchNone ==> v == NONE)
    && (v.match_ != MatchNone ==> exists i: nat, j: nat :: NamesFirst(book, query, names, v, i, j))
  }

  /** The first name of the list that is a rule, as a verdict of one list. */
  function Lookup(list: RuleList, rules: seq<string>, names: seq<string>): (r: Verdict) {
    if names == [] then NONE
    else if names[0] in rules then Verdict(MatchOf(list.kind), Some(list), names[0])
    else Lookup(list, rules, names[1..])
  }

  lemma {:induction false} LookupIsFirstName(list: RuleList, rules: seq<string>, names: seq<string>)
    ensures Lookup(list, rules, names).match_ == MatchNone <==> !Hits(rules, names)
    ensures Lookup(list, rules, names).match_ == MatchNone ==> Lookup(list, rules, names) == NONE
    ensures Hits(rules, names) ==>
      exists j :: 0 <= j < |names| && names[j] in rules && (forall k :: 0 <= k < j ==> names[k] !in rules)
                  && Lookup(list, rules, names) == Verdict(MatchOf(list.kind), Some(list), names[j])
    decreases |names|
  {
    if names != [] {
      LookupIsFirstName(list, rules, names[1..]);
      assert forall k :: 0 <= k < |names| - 1 ==> names[1..][k] == names[k + 1];
      if names[0] in rules {
        assert Hits(rules, names);
      } else if Hits(rules, names) {
        var i :| 0 <= i < |names| && names[i] in rules;
        assert names[1..][i - 1] in rules;
        assert Hits(rules, names[1..]);
        var j :| 0 <= j < |names[1..]| && names[1..][j] in rules && (forall k :: 0 <= k < j ==> names[1..][k] !in rules)
                 && Lookup(list, rules, names[1..]) == Verdict(MatchOf(list.kind), Some(list), names[1..][j]);
        assert names[j + 1] in rules && forall k :: 0 <= k < j + 1 ==> names[k] !in rules by {
          forall k | 0 <= k < j + 1 ensures names[k] !in rules {
            if k > 0 { assert names[1..][k - 1] !in rules; }
          }
        }
      } else {
        assert !Hits(rules, names[1..]);
      }
    }
  }

  /** A store whose registered lists follow the book, and that looks names up list by list, meets the
      specification. */
  lemma PassMeetsSpec(universe: set<RuleList>, lists: Lists, book: Book, query: seq<RuleList>, names: seq<string>,
                      action: RuleList -> Verdict)
    requires Distinct(universe) && Registered(universe, lists, book) && Within(universe, query)
    requires forall l :: l in book && l in query ==> action(l) == Lookup(l, RulesOf(book, l), names)
    ensures MeetsSpec(book, query, names, TwoPass(lists, query, action))
  {
    PassIsFirst(universe, lists, book, Allow, query, names, action);
    PassIsFirst(universe, lists, book, Block, query, names, action);
  }

  ghost predicate PassSpec(book: Book, kind: ListType, query: seq<RuleList>, names: seq<string>, v: Verdict) {
    && (v.match_ == MatchNone <==> !SomeListHits(book, kind, query, names))
    && (v.match_ == MatchNone ==> v == NONE)
    && (v.match_ != MatchNone ==> v.match_ == MatchOf(kind) && exists i: nat, j: nat :: NamesFirst(book, query, names, v, i, j))
  }

  lemma {:induction false} PassIsFirst(universe: set<RuleList>, lists: Lists, book: Book, kind: ListType, query: seq<RuleList>,
                                       names: seq<string>, action: RuleList -> Verdict)
    requires Distinct(universe) && Registered(universe, lists, book) && Within(universe, query)
    requires forall l :: l in book && l in query ==> action(l) == Lookup(l, RulesOf(book, l), names)
    ensures PassSpec(book, kind, query, names, FirstMatch(lists, kind, query, action))
    decreases |query|
  {
    if query != [] {
      var q := query[0];
      HeldIsQueried(universe, lists, book, kind, q);
      LookupIsFirstName(q, RulesOf(book, q), names);
      if q in book && q.kind == kind && Hits(RulesOf(book, q), names) {
        HeadHits(book, query, names);
      } else {
        PassIsFirst(universe, lists, book, kind, query[1..], names, action);
        HeadMisses(book, kind, query, names, FirstMatch(lists, kind, query[1..], action));
      }
    }
  }

  lemma HeadHits(book: Book, query: seq<RuleList>, names: seq<string>)
    requires query != [] && Hits(RulesOf(book, query[0]), names)
    ensures PassSpec(book, query[0].kind, query, names, Lookup(query[0], RulesOf(book, query[0]), names))
  {
    var q, rules := query[0], RulesOf(book, query[0]);
    LookupIsFirstName(q, rules, names);
    var j :| 0 <= j < |names| && names[j] in rules && (forall k :: 0 <= k < j ==> names[k] !in rules)
             && Lookup(q, rules, names) == Verdict(MatchOf(q.kind), Some(q), names[j]);
    assert NamesFirst(book, query, names, Lookup(q, rules, names), 0, j);
  }

  lemma HeadMisses(book: Book, kind: ListType, query: seq<RuleList>, names: seq<string>, v: Verdict)
    requires query != [] && !(query[0].kind == kind && Hits(RulesOf(book, query[0]), names))
    requires PassSpec(book, kind, query[1..], names, v)
    ensures PassSpec(book, kind, query, names, v)
  {
    var rest := query[1..];
    if v.match_ != MatchNone {
      var i: nat, j: nat :| NamesFirst(book, rest, names, v, i, j);
      assert rest[i] == query[i + 1];
      assert Hits(RulesOf(book, query[i + 1]), names);
      forall k | 0 <= k < i + 1 ensures !(query[k].kind == query[i + 1].kind && Hits(RulesOf(book, query[k]), names)) {
        if k > 0 { assert rest[k - 1] == query[k]; }
      }
      assert NamesFirst(book, query, names, v, i + 1, j);
    } else {
      forall k | 0 <= k < |query| ensures !(query[k].kind == kind && Hits(RulesOf(book, query[k]), names)) {
        if k > 0 { assert rest[k - 1] == query[k]; }
      }
    }
  }

  lemma HeldIsQueried(universe: set<RuleList>, lists: Lists, book: Book, kind: ListType, q: RuleList)
    requires Distinct(universe) && Registered(universe, lists, book) && q in universe
    ensures Held(lists, kind, q.short) == if q in book && q.kind == kind then Some(q) else None
  {
    if Held(lists, kind, q.short).Some? {
      assert Held(lists, kind, q.short).value in universe;
    }
  }
}
