/** The memory store: exact once finalized, and sound at every moment of a live reload. */
module MemoryProofs {
  import opened Text
  import opened Domains
  import opened Rules
  import opened Ordering
  import opened Stores

  function LowerBook(book: Book): (r: Book) {
    map l | l in book :: LowerAll(book[l])
  }

  lemma LowerAllSnoc(rules: seq<string>, rule: string)
    ensures LowerAll(rules + [rule]) == LowerAll(rules) + [Lower(rule)]
  {
  }

  /** The table of a list, in whatever order, holds exactly the lower-cased rules of the list. */
  ghost predicate Holds(s: Store, book: Book, l: RuleList)
    requires s.Memory?
  {
    && multiset(At(s.rules, l.canonical, [])) == multiset(LowerAll(RulesOf(book, l)))
    && (l in book ==> l.canonical in s.rules)
  }

  ghost predicate MemoryOk(universe: set<RuleList>, s: Store, book: Book) {
    s.Memory? && Registered(universe, s.lists, book) && forall l :: l in universe ==> Holds(s, book, l)
  }

  lemma {:induction false} SortEachKeeps(rules: map<string, seq<string>>, lists: seq<RuleList>, key: string)
    ensures multiset(At(SortEach(rules, lists), key, [])) == multiset(At(rules, key, []))
    ensures key in rules ==> key in SortEach(rules, lists)
    ensures Sorted(At(rules, key, [])) || (exists i :: 0 <= i < |lists| && lists[i].canonical == key) ==>
            Sorted(At(SortEach(rules, lists), key, []))
    decreases |lists|
  {
    if lists != [] {
      var c := lists[0].canonical;
      var rules' := rules[c := SortRules(At(rules, c, []))];
      SortRulesSorted(At(rules, c, []));
      SortEachKeeps(rules', lists[1..], key);
      if exists i :: 0 <= i < |lists| && lists[i].canonical == key {
        var i :| 0 <= i < |lists| && lists[i].canonical == key;
        if i > 0 { assert lists[1..][i - 1].canonical == key; }
      }
    }
  }

  lemma StepKeepsMemory(lib: Lib, universe: set<RuleList>, s: Store, book: Book, op: Op)
    requires Distinct(universe) && MemoryOk(universe, s, book) && ConfinedOp(universe, op)
    ensures MemoryOk(universe, Apply(lib, s, op), Recorded(book, op))
  {
    ListedKeepsRegistered(universe, s.lists, book, op);
    var s', book' := Apply(lib, s, op), Recorded(book, op);
    forall l | l in universe ensures Holds(s', book', l) {
      StepKeepsTable(lib, universe, s, book, op, l);
    }
  }

  lemma StepKeepsTable(lib: Lib, universe: set<RuleList>, s: Store, book: Book, op: Op, l: RuleList)
    requires Distinct(universe) && s.Memory? && Holds(s, book, l) && ConfinedOp(universe, op) && l in universe
    ensures Holds(Apply(lib, s, op), Recorded(book, op), l)
  {
    match op
    case Load(l', rule) => if l == l' { LowerAllSnoc(RulesOf(book, l), rule); }
    case Clear(_) =>
    case Finalize(ls) => SortEachKeeps(s.rules, ls, l.canonical);
  }

  const EMPTY := Memory(map[], map[])

  lemma {:induction false} RunKeepsMemory(lib: Lib, universe: set<RuleList>, ops: seq<Op>)
    requires Distinct(universe) && Confined(universe, ops)
    ensures MemoryOk(universe, ApplyAll(lib, EMPTY, ops), Written(ops))
    decreases |ops|
  {
    if ops != [] {
      ConfinedInit(universe, ops);
      RunKeepsMemory(lib, universe, ops[..|ops| - 1]);
      StepKeepsMemory(lib, universe, ApplyAll(lib, EMPTY, ops[..|ops| - 1]), Written(ops[..|ops| - 1]), ops[|ops| - 1]);
    }
  }

  /** The list has been finalized (or cleared) since its last load. */
  predicate Finalized(ops: seq<Op>, l: RuleList) {
    ops == [] ||
    match ops[|ops| - 1]
    case Load(l', _) => l' != l && Finalized(ops[..|ops| - 1], l)
    case Clear(l') => l' == l || Finalized(ops[..|ops| - 1], l)
    case Finalize(ls) => l in ls || Finalized(ops[..|ops| - 1], l)
  }

  lemma {:induction false} FinalizedIsSorted(lib: Lib, universe: set<RuleList>, ops: seq<Op>, l: RuleList)
    requires Distinct(universe) && Confined(universe, ops) && l in universe && Finalized(ops, l)
    ensures var s := ApplyAll(lib, EMPTY, ops); s.Memory? && Sorted(At(s.rules, l.canonical, []))
    decreases |ops|
  {
    if ops != [] {
      ConfinedInit(universe, ops);
      var init := ops[..|ops| - 1];
      RunKeepsMemory(lib, universe, init);
      var s := ApplyAll(lib, EMPTY, init);
      if Finalized(init, l) { FinalizedIsSorted(lib, universe, init, l); }
      match ops[|ops| - 1]
      case Load(_, _) =>
      case Clear(_) =>
      case Finalize(ls) =>
        SortEachKeeps(s.rules, ls, l.canonical);
        if l in ls {
          var i :| 0 <= i < |ls| && ls[i] == l;
          assert ls[i].canonical == l.canonical;
        }
    }
  }

  lemma SameElements(a: seq<string>, b: seq<string>)
    requires multiset(a) == multiset(b)
    ensures forall x :: x in a <==> x in b
  {
    forall x ensures x in a <==> x in b {
      assert x in a <==> x in multiset(a);
      assert x in b <==> x in multiset(b);
    }
  }

  /** A sorted table answers a list of names with the first one it holds, case folded. */
  lemma {:induction false} SortedLookup(l: RuleList, table: seq<string>, rules: seq<string>, names: seq<string>)
    requires Sorted(table) && multiset(table) == multiset(LowerAll(rules))
    ensures MemoryLookup(l, table, names) == Lookup(l, LowerAll(rules), LowerAll(names))
    decreases |names|
  {
    SameElements(table, LowerAll(rules));
    if names != [] {
      forall i | 0 <= i < |table| ensures IsLower(table[i]) {
        assert table[i] in LowerAll(rules);
        var k :| 0 <= k < |rules| && table[i] == Lower(rules[k]);
        LowerTwice(rules[k]);
      }
      FoundIsExact(table, names[0]);
      assert LowerAll(names)[1..] == LowerAll(names[1..]);
      SortedLookup(l, table, rules, names[1..]);
    }
  }

  /** After Finalize the memory store (sort plus bisection) meets the specification for every domain,
      in any letter case: verdict kind, first list in query order, longest matching suffix. */
  lemma MemoryMeetsSpec(lib: Lib, universe: set<RuleList>, ops: seq<Op>, query: seq<RuleList>, domain: string)
    requires Distinct(universe) && Confined(universe, ops) && Within(universe, query)
    requires forall i :: 0 <= i < |query| ==> Finalized(ops, query[i])
    ensures MeetsSpec(LowerBook(Written(ops)), query, DomainNames(Lower(domain)), Find(lib, ApplyAll(lib, EMPTY, ops), query, domain))
  {
    var s, book := ApplyAll(lib, EMPTY, ops), Written(ops);
    var names := DomainNames(domain);
    RunKeepsMemory(lib, universe, ops);
    DomainNamesLower(domain);
    var low := LowerBook(book);
    assert low.Keys == book.Keys;
    forall l | l in low && l in query ensures FindIn(lib, s, l, domain) == Lookup(l, RulesOf(low, l), LowerAll(names)) {
      assert Holds(s, book, l);
      FinalizedIsSorted(lib, universe, ops, l);
      SortedLookup(l, s.rules[l.canonical], RulesOf(book, l), names);
    }
    assert Registered(universe, s.lists, low);
    PassMeetsSpec(universe, s.lists, low, query, LowerAll(names), (l: RuleList) => FindIn(lib, s, l, domain));
  }

  // ---- live reload ----

  lemma {:induction false} LookupIsSound(l: RuleList, table: seq<string>, names: seq<string>)
    ensures var v := MemoryLookup(l, table, names);
            && (v.match_ == MatchNone ==> v == NONE)
            && (v.match_ != MatchNone ==> v.match_ == MatchOf(l.kind) && v.list == Some(l) && v.rule in table
                                          && exists i :: 0 <= i < |names| && Lower(names[i]) == Lower(v.rule))
    decreases |names|
  {
    if names != [] {
      FoundIsSound(table, names[0]);
      LookupIsSound(l, table, names[1..]);
      var v := MemoryLookup(l, table, names[1..]);
      if v.match_ != MatchNone && Found(table, names[0]).None? {
        var i :| 0 <= i < |names[1..]| && Lower(names[1..][i]) == Lower(v.rule);
        assert Lower(names[i + 1]) == Lower(v.rule);
      }
    }
  }

  /** A positive verdict names a queried list and a rule that is loaded in it right now. */
  ghost predicate Justified(book: Book, query: seq<RuleList>, names: seq<string>, v: Verdict) {
    v.match_ != MatchNone ==>
      && v.list.Some? && v.list.value in query && v.match_ == MatchOf(v.list.value.kind)
      && v.rule in LowerAll(RulesOf(book, v.list.value))
      && exists i :: 0 <= i < |names| && Lower(names[i]) == v.rule
  }

  lemma {:induction false} PassIsJustified(universe: set<RuleList>, lists: Lists, book: Book, kind: ListType, query: seq<RuleList>,
                                           names: seq<string>, action: RuleList -> Verdict)
    requires Distinct(universe) && Registered(universe, lists, book) && Within(universe, query)
    requires forall l :: l in book ==> Justified(book, [l], names, action(l))
    ensures Justified(book, query, names, FirstMatch(lists, kind, query, action))
    decreases |query|
  {
    if query != [] {
      HeldIsQueried(universe, lists, book, kind, query[0]);
      PassIsJustified(universe, lists, book, kind, query[1..], names, action);
    }
  }

  /** At every point of every run, sorted or not, in the middle of a reload or not, the memory store
      never reports a rule that is not loaded in the list it names. */
  lemma NeverReportsUnloadedRules(lib: Lib, universe: set<RuleList>, ops: seq<Op>, query: seq<RuleList>, domain: string)
    requires Distinct(universe) && Confined(universe, ops) && Within(universe, query)
    ensures Justified(Written(ops), query, DomainNames(domain), Find(lib, ApplyAll(lib, EMPTY, ops), query, domain))
  {
    var s, book := ApplyAll(lib, EMPTY, ops), Written(ops);
    var names := DomainNames(domain);
    RunKeepsMemory(lib, universe, ops);
    var action := (l: RuleList) => FindIn(lib, s, l, domain);
    forall l | l in book ensures Justified(book, [l], names, action(l)) {
      assert Holds(s, book, l);
      LookupIsSound(l, s.rules[l.canonical], names);
      SameElements(s.rules[l.canonical], LowerAll(RulesOf(book, l)));
      var v := action(l);
      if v.match_ != MatchNone {
        var i :| 0 <= i < |names| && Lower(names[i]) == Lower(v.rule);
        assert v.rule in LowerAll(book[l]);
        var k :| 0 <= k < |book[l]| && v.rule == Lower(book[l][k]);
        LowerTwice(book[l][k]);
      }
    }
    PassIsJustified(universe, s.lists, book, Allow, query, names, action);
    PassIsJustified(universe, s.lists, book, Block, query, names, action);
  }

  predicate Touches(op: Op, l: RuleList) {
    match op
    case Load(l', _) => l' == l
    case Clear(l') => l' == l
    case Finalize(ls) => forall i :: 0 <= i < |ls| ==> ls[i] == l
  }

  lemma {:induction false} SamePass(s: Store, s': Store, kind: ListType, query: seq<RuleList>,
                                    action: RuleList -> Verdict, action': RuleList -> Verdict)
    requires forall i :: 0 <= i < |query| ==> SameView(s, s', kind, query[i]) && action(query[i]) == action'(query[i])
    ensures FirstMatch(s.lists, kind, query, action) == FirstMatch(s'.lists, kind, query, action')
    decreases |query|
  {
    if query != [] {
      assert SameView(s, s', kind, query[0]);
      assert forall i :: 0 <= i < |query[1..]| ==> query[1..][i] == query[i + 1];
      SamePass(s, s', kind, query[1..], action, action');
    }
  }

  lemma {:induction false} SortEachLeaves(rules: map<string, seq<string>>, lists: seq<RuleList>, key: string)
    requires forall i :: 0 <= i < |lists| ==> lists[i].canonical != key
    ensures key in SortEach(rules, lists) <==> key in rules
    ensures key in rules ==> SortEach(rules, lists)[key] == rules[key]
    decreases |lists|
  {
    if lists != [] {
      var c := lists[0].canonical;
      SortEachLeaves(rules[c := SortRules(At(rules, c, []))], lists[1..], key);
    }
  }

  /** No step of reloading one list changes a verdict on queries without it. */
  lemma ReloadIsInvisibleElsewhere(lib: Lib, universe: set<RuleList>, ops: seq<Op>, op: Op, reloaded: RuleList,
                                query: seq<RuleList>, domain: string)
    requires Distinct(universe) && Confined(universe, ops) && ConfinedOp(universe, op) && Within(universe, query)
    requires Touches(op, reloaded) && reloaded in universe && reloaded !in query
    ensures var s := ApplyAll(lib, EMPTY, ops);
            Find(lib, Apply(lib, s, op), query, domain) == Find(lib, s, query, domain)
  {
    RunKeepsMemory(lib, universe, ops);
    ReloadStep(lib, universe, ApplyAll(lib, EMPTY, ops), Written(ops), op, reloaded, query, domain);
  }

  function Without(query: seq<RuleList>, l: RuleList): (r: seq<RuleList>) {
    if query == [] then [] else (if query[0] == l then [] else [query[0]]) + Without(query[1..], l)
  }

  lemma {:induction false} WithoutHolds(universe: set<RuleList>, query: seq<RuleList>, l: RuleList)
    requires Within(universe, query)
    ensures l !in Without(query, l) && Within(universe, Without(query, l))
    decreases |query|
  {
    if query != [] {
      assert query[0] in universe && forall i :: 0 <= i < |query[1..]| ==> query[1..][i] == query[i + 1];
      WithoutHolds(universe, query[1..], l);
    }
  }

  /** A pass finds what it finds without the list, unless it finds something in that list. */
  lemma {:induction false} PassWithout(universe: set<RuleList>, lists: Lists, book: Book, kind: ListType, query: seq<RuleList>,
                                       l: RuleList, action: RuleList -> Verdict)
    requires Distinct(universe) && Registered(universe, lists, book) && Within(universe, query)
    ensures var v := FirstMatch(lists, kind, query, action);
            v == FirstMatch(lists, kind, Without(query, l), action) || (v == action(l) && v.match_ != MatchNone)
    decreases |query|
  {
    if query != [] {
      HeldIsQueried(universe, lists, book, kind, query[0]);
      assert Within(universe, query[1..]);
      PassWithout(universe, lists, book, kind, query[1..], l, action);
      if query[0] == l {
        assert [] + Without(query[1..], l) == Without(query[1..], l);
      } else {
        assert ([query[0]] + Without(query[1..], l))[1..] == Without(query[1..], l);
      }
    }
  }

  lemma FindWithout(lib: Lib, universe: set<RuleList>, s: Store, book: Book, query: seq<RuleList>, l: RuleList, domain: string)
    requires Distinct(universe) && MemoryOk(universe, s, book) && Within(universe, query)
    ensures var v := Find(lib, s, query, domain); v.list == Some(l) || v == Find(lib, s, Without(query, l), domain)
  {
    var action := (k: RuleList) => FindIn(lib, s, k, domain);
    PassWithout(universe, s.lists, book, Allow, query, l, action);
    PassWithout(universe, s.lists, book, Block, query, l, action);
    if l.canonical in s.rules { LookupIsSound(l, s.rules[l.canonical], DomainNames(domain)); }
  }

  /** Reloading one list, step by step and for every query: after the step the verdict names the reloaded
      list, or it is the verdict on the other lists from before the step. */
  lemma ReloadLeavesOthersAlone(lib: Lib, universe: set<RuleList>, ops: seq<Op>, op: Op, reloaded: RuleList,
                                query: seq<RuleList>, domain: string)
    requires Distinct(universe) && Confined(universe, ops) && ConfinedOp(universe, op) && Within(universe, query)
    requires Touches(op, reloaded) && reloaded in universe
    ensures var s := ApplyAll(lib, EMPTY, ops);
            var v := Find(lib, Apply(lib, s, op), query, domain);
            v.list == Some(reloaded) || v == Find(lib, s, Without(query, reloaded), domain)
  {
    var s := ApplyAll(lib, EMPTY, ops);
    RunKeepsMemory(lib, universe, ops);
    StepKeepsMemory(lib, universe, s, Written(ops), op);
    FindWithout(lib, universe, Apply(lib, s, op), Recorded(Written(ops), op), query, reloaded, domain);
    WithoutHolds(universe, query, reloaded);
    ReloadIsInvisibleElsewhere(lib, universe, ops, op, reloaded, Without(query, reloaded), domain);
  }

  lemma ReloadStep(lib: Lib, universe: set<RuleList>, s: Store, book: Book, op: Op, reloaded: RuleList,
                   query: seq<RuleList>, domain: string)
    requires Distinct(universe) && MemoryOk(universe, s, book) && ConfinedOp(universe, op) && Within(universe, query)
    requires Touches(op, reloaded) && reloaded in universe && reloaded !in query
    ensures Find(lib, Apply(lib, s, op), query, domain) == Find(lib, s, query, domain)
  {
    var s' := Apply(lib, s, op);
    var action, action' := (l: RuleList) => FindIn(lib, s, l, domain), (l: RuleList) => FindIn(lib, s', l, domain);
    forall kind, i | 0 <= i < |query| ensures SameView(s, s', kind, query[i]) {
      ViewStays(lib, universe, s, book, op, reloaded, kind, query[i]);
    }
    forall i | 0 <= i < |query| ensures action(query[i]) == action'(query[i]) {
      OtherTablesStay(lib, universe, s, op, reloaded, query[i], domain);
    }
    forall kind { SamePass(s, s', kind, query, action, action'); }
  }

  ghost predicate SameView(s: Store, s': Store, kind: ListType, l: RuleList) {
    && Held(s.lists, kind, l.short) == Held(s'.lists, kind, l.short)
    && (Held(s.lists, kind, l.short).Some? ==> Held(s.lists, kind, l.short).value == l)
  }

  lemma ViewStays(lib: Lib, universe: set<RuleList>, s: Store, book: Book, op: Op, reloaded: RuleList, kind: ListType, l: RuleList)
    requires Distinct(universe) && MemoryOk(universe, s, book) && ConfinedOp(universe, op) && Touches(op, reloaded)
    requires l in universe && reloaded in universe && l != reloaded
    ensures SameView(s, Apply(lib, s, op), kind, l)
  {
    ListedKeepsRegistered(universe, s.lists, book, op);
    HeldIsQueried(universe, s.lists, book, kind, l);
    HeldIsQueried(universe, Listed(s.lists, op), Recorded(book, op), kind, l);
  }

  lemma OtherTablesStay(lib: Lib, universe: set<RuleList>, s: Store, op: Op, reloaded: RuleList, l: RuleList, domain: string)
    requires Distinct(universe) && ConfinedOp(universe, op) && Touches(op, reloaded)
    requires s.Memory? && l in universe && reloaded in universe && l != reloaded
    ensures FindIn(lib, s, l, domain) == FindIn(lib, Apply(lib, s, op), l, domain)
  {
    if op.Finalize? { SortEachLeaves(s.rules, op.lists, l.canonical); }
  }
}
