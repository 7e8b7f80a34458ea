/** From a client to a verdict: consumers are linked to groups once, with their lists de-duplicated;
    requests are decided on the concatenated lists of the groups (engine/engine_init.go,
    engine/engine.go).  Both ways give the same verdict. */
module Decision {
  import opened Text
  import opened Domains
  import opened Rules
  import opened Ordering
  import opened Stores

  datatype Group = Group(name: string, resolvers: seq<string>, lists: seq<RuleList>)

  datatype Consumer = Consumer(block: bool, groupNames: seq<string>, resolverNames: seq<string>, lists: seq<RuleList>)

  // ---- linking ----

  predicate Knows(lists: seq<RuleList>, canonical: string) {
    exists i :: 0 <= i < |lists| && lists[i].canonical == canonical
  }

  /** Lists are appended unless one with the same canonical name is already there. */
  function Merge(have: seq<RuleList>, more: seq<RuleList>): (r: seq<RuleList>)
    decreases |more|
  {
    if more == [] then have
    else Merge(if Knows(have, more[0].canonical) then have else have + [more[0]], more[1..])
  }

  function Linked(groups: seq<Group>, wanted: seq<string>): (r: seq<Group>) {
    if groups == [] then []
    else (if groups[0].name in wanted then [groups[0]] else []) + Linked(groups[1..], wanted)
  }

  function NamesOf(groups: seq<Group>): (r: seq<string>) {
    if groups == [] then [] else [groups[0].name] + NamesOf(groups[1..])
  }

  function ListsOf(groups: seq<Group>): (r: seq<RuleList>) {
    if groups == [] then [] else groups[0].lists + ListsOf(groups[1..])
  }

  function ResolversOf(groups: seq<Group>): (r: seq<string>) {
    if groups == [] then [] else groups[0].resolvers + ResolversOf(groups[1..])
  }

  /** What a consumer under construction becomes once the given groups are linked too. */
  function Finished(consumer: Consumer, groups: seq<Group>): (r: Consumer) {
    Consumer(consumer.block, consumer.groupNames + NamesOf(groups), consumer.resolverNames + ResolversOf(groups),
             Merge(consumer.lists, ListsOf(groups)))
  }

  lemma FinishedWithNone(consumer: Consumer)
    ensures Finished(consumer, []) == consumer
  {
    assert consumer.groupNames + [] == consumer.groupNames && consumer.resolverNames + [] == consumer.resolverNames;
  }

  lemma FinishedStep(consumer: Consumer, group: Group, rest: seq<Group>)
    ensures Finished(consumer, [group] + rest) ==
            Finished(Consumer(consumer.block, consumer.groupNames + [group.name], consumer.resolverNames + group.resolvers,
                              Merge(consumer.lists, group.lists)), rest)
  {
    assert ([group] + rest)[1..] == rest;
    assert consumer.groupNames + ([group.name] + NamesOf(rest)) == (consumer.groupNames + [group.name]) + NamesOf(rest);
    assert consumer.resolverNames + (group.resolvers + ResolversOf(rest)) == (consumer.resolverNames + group.resolvers) + ResolversOf(rest);
    MergeConcat(consumer.lists, group.lists, ListsOf(rest));
  }

  lemma LinkedStep(groups: seq<Group>, i: nat, wanted: seq<string>)
    requires i < |groups|
    ensures var rest := Linked(groups[i + 1..], wanted);
            Linked(groups[i..], wanted) == if groups[i].name in wanted then [groups[i]] + rest else rest
  {
    assert groups[i..][1..] == groups[i + 1..];
  }

  /** The consumer part of bootstrap. */
  method LinkConsumer(groups: seq<Group>, wanted: seq<string>, block: bool) returns (consumer: Consumer)
    ensures var linked := Linked(groups, wanted);
            consumer == Consumer(block, NamesOf(linked), ResolversOf(linked), Merge([], ListsOf(linked)))
  {
    consumer := Consumer(block, [], [], []);
    var i := 0;
    assert groups[0..] == groups;
    ghost var linked := Linked(groups, wanted);
    ghost var goal := Consumer(block, NamesOf(linked), ResolversOf(linked), Merge([], ListsOf(linked)));
    assert Finished(consumer, linked) == goal by {
      assert [] + NamesOf(linked) == NamesOf(linked) && [] + ResolversOf(linked) == ResolversOf(linked);
    }
    while i < |groups|
      invariant 0 <= i <= |groups|
      invariant Finished(consumer, Linked(groups[i..], wanted)) == goal
    {
      var group := groups[i];
      LinkedStep(groups, i, wanted);
      if group.name in wanted {
        FinishedStep(consumer, group, Linked(groups[i + 1..], wanted));
        var lists := MergeLists(consumer.lists, group.lists);
        consumer := Consumer(consumer.block, consumer.groupNames + [group.name], consumer.resolverNames + group.resolvers, lists);
      }
      i := i + 1;
    }
    FinishedWithNone(consumer);
  }

  method MergeLists(have: seq<RuleList>, more: seq<RuleList>) returns (r: seq<RuleList>)
    ensures r == Merge(have, more)
  {
    r := have;
    var i := 0;
    assert more[0..] == more;
    while i < |more|
      invariant 0 <= i <= |more|
      invariant Merge(r, more[i..]) == Merge(have, more)
    {
      assert more[i..][1..] == more[i + 1..];
      var found := false;
      var k := 0;
      while k < |r|
        invariant 0 <= k <= |r|
        invariant found <==> exists j :: 0 <= j < k && r[j].canonical == more[i].canonical
      {
        if r[k].canonical == more[i].canonical {
          found := true;
          break;
        }
        k := k + 1;
      }
      assert found <==> Knows(r, more[i].canonical);
      if !found {
        r := r + [more[i]];
      }
      i := i + 1;
    }
  }

  lemma {:induction false} MergeConcat(have: seq<RuleList>, a: seq<RuleList>, b: seq<RuleList>)
    ensures Merge(have, a + b) == Merge(Merge(have, a), b)
    decreases |a|
  {
    if a == [] {
      assert a + b == b;
    } else {
      assert (a + b)[0] == a[0] && (a + b)[1..] == a[1..] + b;
      MergeConcat(if Knows(have, a[0].canonical) then have else have + [a[0]], a[1..], b);
    }
  }

  // ---- verdicts ----

  /** domainRuleMatchForLists; the store may be missing. */
  function VerdictOn(lib: Lib, store: Option<Store>, lists: seq<RuleList>, domain: string): (r: Verdict) {
    if store.None? || lists == [] then NONE else Find(lib, store.value, lists, DropDot(domain))
  }

  function VerdictForConsumer(lib: Lib, store: Option<Store>, consumer: Consumer, domain: string): (r: Verdict) {
    VerdictOn(lib, store, consumer.lists, domain)
  }

  /** The lists of the named groups, one after the other; unknown names are skipped. */
  function NamedLists(groups: map<string, Group>, names: seq<string>): (r: seq<RuleList>) {
    if names == [] then []
    else (if names[0] in groups then groups[names[0]].lists else []) + NamedLists(groups, names[1..])
  }

  function VerdictForGroups(lib: Lib, store: Option<Store>, groups: map<string, Group>, names: seq<string>, domain: string): (r: Verdict) {
    VerdictOn(lib, store, NamedLists(groups, names), domain)
  }

  method GatherLists(groups: map<string, Group>, names: seq<string>) returns (lists: seq<RuleList>)
    ensures lists == NamedLists(groups, names)
  {
    lists := [];
    var i := 0;
    assert names[0..] == names;
    while i < |names|
      invariant 0 <= i <= |names|
      invariant lists + NamedLists(groups, names[i..]) == NamedLists(groups, names)
    {
      assert names[i..][1..] == names[i + 1..];
      if names[i] in groups {
        assert lists + (groups[names[i]].lists + NamedLists(groups, names[i + 1..])) ==
               (lists + groups[names[i]].lists) + NamedLists(groups, names[i + 1..]);
        lists := lists + groups[names[i]].lists;
      }
      i := i + 1;
    }
    assert names[i..] == [] && lists + [] == lists;
  }

  method DomainRuleMatchedForGroups(lib: Lib, store: Option<Store>, groups: map<string, Group>, names: seq<string>, domain: string)
    returns (verdict: Verdict)
    ensures verdict == VerdictForGroups(lib, store, groups, names, domain)
  {
    if |names| < 1 {
      return NONE;
    }
    var lists := GatherLists(groups, names);
    verdict := VerdictOn(lib, store, lists, domain);
  }

  function GroupsOf(consumer: Consumer): (r: seq<string>) {
    if |consumer.groupNames| > 0 then consumer.groupNames else ["default"]
  }

  /** The engine's map holds every named group, the last one of a name. */
  function GroupMap(groups: seq<Group>): (r: map<string, Group>) {
    if groups == [] then map[]
    else
      var last := groups[|groups| - 1];
      var rest := GroupMap(groups[..|groups| - 1]);
      if last.name == "" then rest else rest[last.name := last]
  }

  predicate UniqueNames(groups: seq<Group>) {
    && (forall i :: 0 <= i < |groups| ==> groups[i].name != "")
    && (forall i, j :: 0 <= i < j < |groups| ==> groups[i].name != groups[j].name)
  }

  lemma {:induction false} GroupMapHolds(groups: seq<Group>, i: nat)
    requires UniqueNames(groups) && i < |groups|
    ensures groups[i].name in GroupMap(groups) && GroupMap(groups)[groups[i].name] == groups[i]
    decreases |groups|
  {
    if i < |groups| - 1 {
      assert groups[..|groups| - 1][i] == groups[i];
      GroupMapHolds(groups[..|groups| - 1], i);
    }
  }

  lemma {:induction false} LinkedComeFrom(groups: seq<Group>, wanted: seq<string>, g: Group)
    requires g in Linked(groups, wanted)
    ensures g in groups
    decreases |groups|
  {
    if groups != [] && g != groups[0] {
      LinkedComeFrom(groups[1..], wanted, g);
    }
  }

  lemma {:induction false} NamedListsOfLinked(all: map<string, Group>, linked: seq<Group>)
    requires forall i :: 0 <= i < |linked| ==> linked[i].name in all && all[linked[i].name] == linked[i]
    ensures NamedLists(all, NamesOf(linked)) == ListsOf(linked)
    decreases |linked|
  {
    if linked != [] {
      NamedListsOfLinked(all, linked[1..]);
      assert NamesOf(linked)[1..] == NamesOf(linked[1..]);
    }
  }

  // ---- what de-duplication keeps ----

  ghost predicate Named(lists: seq<RuleList>, canonical: string) {
    exists l :: l in lists && l.canonical == canonical
  }

  ghost predicate NoneTwice(lists: seq<RuleList>) {
    forall i, j :: 0 <= i < j < |lists| ==> lists[i].canonical != lists[j].canonical
  }

  /** Whatever the lists: de-duplication keeps exactly one list of every canonical name, the first. */
  lemma {:induction false} OneOfEachName(have: seq<RuleList>, more: seq<RuleList>, canonical: string)
    requires NoneTwice(have)
    ensures var r := Merge(have, more);
            NoneTwice(r) && have <= r && (Named(r, canonical) <==> Named(have, canonical) || Named(more, canonical))
    decreases |more|
  {
    if more != [] {
      var l := more[0];
      var have' := if Knows(have, l.canonical) then have else have + [l];
      OneOfEachName(have', more[1..], canonical);
      assert forall m :: m in more <==> m == l || m in more[1..];
      if Knows(have, l.canonical) {
        var i :| 0 <= i < |have| && have[i].canonical == l.canonical;
        assert have[i] in have;
      } else {
        assert forall m :: m in have' <==> m in have || m == l;
        assert l in have';
      }
    }
  }

  // ---- de-duplication is invisible ----

  /** The same lists, whatever their order and number. */
  ghost predicate SameLists(a: seq<RuleList>, b: seq<RuleList>) {
    forall l :: l in a <==> l in b
  }

  lemma SameListsStep(have: seq<RuleList>, more: seq<RuleList>)
    requires more != []
    ensures SameLists(have + [more[0]] + more[1..], have + more)
    ensures more[0] in have ==> SameLists(have + more[1..], have + more)
  {
    assert more == [more[0]] + more[1..];
    assert have + [more[0]] + more[1..] == have + more;
    forall l ensures l in have + more <==> l in have || l == more[0] || l in more[1..] {}
  }

  lemma {:induction false} MergeHolds(have: seq<RuleList>, more: seq<RuleList>, universe: set<RuleList>)
    requires Distinct(universe) && Within(universe, have) && Within(universe, more)
    ensures SameLists(Merge(have, more), have + more) && Within(universe, Merge(have, more))
    decreases |more|
  {
    if more != [] {
      var l := more[0];
      var have' := if Knows(have, l.canonical) then have else have + [l];
      if Knows(have, l.canonical) {
        var i :| 0 <= i < |have| && have[i].canonical == l.canonical;
        assert have[i] == l;
      }
      assert Within(universe, more[1..]);
      MergeHolds(have', more[1..], universe);
      SameListsStep(have, more);
    }
  }

  /** Leaving out a list that has already had its turn does not change a pass. */
  lemma {:induction false} SkipSeen(lists: Lists, kind: ListType, query: seq<RuleList>, l: RuleList, action: RuleList -> Verdict)
    requires l in query
    ensures FirstMatch(lists, kind, query + [l], action) == FirstMatch(lists, kind, query, action)
    decreases |query|
  {
    assert (query + [l])[0] == query[0] && (query + [l])[1..] == query[1..] + [l];
    if l in query[1..] {
      SkipSeen(lists, kind, query[1..], l, action);
    } else {
      PassConcat(lists, kind, query, [l], action);
      PassConcat(lists, kind, [query[0]], query[1..], action);
      assert [query[0]] + query[1..] == query;
    }
  }

  lemma {:induction false} PassConcat(lists: Lists, kind: ListType, a: seq<RuleList>, b: seq<RuleList>, action: RuleList -> Verdict)
    ensures FirstMatch(lists, kind, a + b, action) ==
            if FirstMatch(lists, kind, a, action).match_ != MatchNone then FirstMatch(lists, kind, a, action)
            else FirstMatch(lists, kind, b, action)
    decreases |a|
  {
    if a == [] {
      assert a + b == b;
    } else {
      assert (a + b)[0] == a[0] && (a + b)[1..] == a[1..] + b;
      PassConcat(lists, kind, a[1..], b, action);
    }
  }

  lemma {:induction false} MergePass(lists: Lists, kind: ListType, have: seq<RuleList>, more: seq<RuleList>,
                                     universe: set<RuleList>, action: RuleList -> Verdict)
    requires Distinct(universe) && Within(universe, have) && Within(universe, more)
    ensures FirstMatch(lists, kind, Merge(have, more), action) == FirstMatch(lists, kind, have + more, action)
    decreases |more|
  {
    if more == [] {
      assert have + more == have;
    } else {
      var l := more[0];
      assert have + more == (have + [l]) + more[1..];
      if Knows(have, l.canonical) {
        var i :| 0 <= i < |have| && have[i].canonical == l.canonical;
        assert have[i] == l;
        MergePass(lists, kind, have, more[1..], universe, action);
        SkipSeen(lists, kind, have, l, action);
        PassConcat(lists, kind, have + [l], more[1..], action);
        PassConcat(lists, kind, have, more[1..], action);
      } else {
        MergePass(lists, kind, have + [l], more[1..], universe, action);
      }
    }
  }

  /** The store hands the query on to the database as it is, rather than list by list. */
  predicate AsksSql(s: Store) {
    match s
    case Sql(_, _, _, _, _, _) => true
    case Complex(_, _, backing) => backing.Some? && AsksSql(backing.value)
    case _ => false
  }

  /** De-duplicating a query never changes the kind of a verdict; nor its list and rule, unless the query
      itself goes to the database, which is then free to name another row of the same rank. */
  lemma {:induction false} FindOnMerged(lib: Lib, s: Store, query: seq<RuleList>, universe: set<RuleList>, domain: string)
    requires Distinct(universe) && Within(universe, query)
    ensures Find(lib, s, Merge([], query), domain).match_ == Find(lib, s, query, domain).match_
    ensures !AsksSql(s) ==> Find(lib, s, Merge([], query), domain) == Find(lib, s, query, domain)
    decreases s
  {
    assert [] + query == query;
    if s.Sql? {
      MergeHolds([], query, universe);
      SameRows(s, Merge([], query), query, domain);
    } else {
      var action := (l: RuleList) => FindIn(lib, s, l, domain);
      MergePass(s.lists, Allow, [], query, universe, action);
      MergePass(s.lists, Block, [], query, universe, action);
      if s.Complex? && s.backing.Some? {
        FindOnMerged(lib, s.backing.value, query, universe, domain);
      }
    }
  }

  /** The database chooses among the rows it found. */
  ghost predicate Honest(lib: Lib) {
    forall query, rows :: rows != {} ==> lib.pick(query, rows) in rows
  }

  /** A choice that prefers one row for one query and another row for all others. */
  ghost function Prefer(special: seq<RuleList>, a: Row, b: Row, query: seq<RuleList>, rows: set<Row>): (r: Row)
    ensures rows != {} ==> r in rows
    ensures a in rows && b in rows ==> r == if query == special then a else b
  {
    if a in rows && b in rows then (if query == special then a else b)
    else if rows == {} then a
    else var row :| row in rows; row
  }

  /** A database with two rules of one list, both matching the domain. */
  function TwoRules(l: RuleList): (s: Store) {
    Sql(AddList(map[], l), map[l.short := l.kind], {(l.short, "a.b.c"), (l.short, "b.c")}, {}, false, Absent)
  }

  lemma NamesOfDomain()
    ensures "a.b.c" in DomainNames("a.b.c") && "b.c" in DomainNames("a.b.c")
  {
    assert Plain("a.b.c") && "a.b.c"[1..] == "." + "b.c";
    DomainNamesAreLabelSuffixes("a.b.c", "a.b.c");
    DomainNamesAreLabelSuffixes("a.b.c", "b.c");
  }

  lemma HeldAlone(l: RuleList)
    requires l.short != ""
    ensures GetList(AddList(map[], l), l.short) == Some(l)
  {
    var lists: Lists := AddList(map[], l);
    assert l.kind == Allow || (l.kind == Block && Allow !in lists);
  }

  lemma TwoRulesAreFound(l: RuleList, query: seq<RuleList>)
    requires l in query && l.short != ""
    ensures Rows(TwoRules(l), query, DomainNames("a.b.c")) == {(l.short, "a.b.c"), (l.short, "b.c")}
  {
    NamesOfDomain();
    HeldAlone(l);
    var i :| 0 <= i < |query| && query[i] == l;
    assert Selected(TwoRules(l), query, l.short);
  }

  lemma TwoRulesMatch(lib: Lib, l: RuleList, query: seq<RuleList>)
    requires l in query && l.short != ""
    ensures Find(lib, TwoRules(l), query, "a.b.c").match_ == MatchOf(l.kind)
    ensures Find(lib, TwoRules(l), query, "a.b.c").rule == lib.pick(query, {(l.short, "a.b.c"), (l.short, "b.c")}).1
  {
    var s, rows := TwoRules(l), {(l.short, "a.b.c"), (l.short, "b.c")};
    TwoRulesAreFound(l, query);
    var allow := set row | row in rows && row.0 in s.table && s.table[row.0] == Allow;
    assert (l.short, "b.c") in rows;
    assert allow == if l.kind == Allow then rows else {};
  }

  ghost function Preferring(special: seq<RuleList>, a: Row, b: Row): (lib: Lib)
    ensures Honest(lib) && forall query, rows :: a in rows && b in rows ==> lib.pick(query, rows) == if query == special then a else b
  {
    Lib(s => 0, (c, t) => {}, (q, rows) => Prefer(special, a, b, q, rows), t => false, (p, t) => false, (p, t) => false)
  }

  /** A query with repetitions, and a database that names another rule for it than for its de-duplicated form. */
  lemma SqlMayNameAnotherRule(query: seq<RuleList>, universe: set<RuleList>) returns (lib: Lib, s: Store)
    requires Distinct(universe) && Within(universe, query) && Merge([], query) != query
    ensures Honest(lib) && s.Sql? && Find(lib, s, Merge([], query), "a.b.c").rule != Find(lib, s, query, "a.b.c").rule
  {
    var l := query[0];
    lib, s := Preferring(query, (l.short, "a.b.c"), (l.short, "b.c")), TwoRules(l);
    MergeHolds([], query, universe);
    assert [] + query == query && l in [] + query;
    TwoRulesMatch(lib, l, query);
    TwoRulesMatch(lib, l, Merge([], query));
  }

  /** The whole verdict is the same for every library and store exactly when there is nothing to
      de-duplicate. */
  lemma MergedVerdictsAgreeIff(query: seq<RuleList>, universe: set<RuleList>)
    requires Distinct(universe) && Within(universe, query)
    ensures (forall lib, s, domain :: Honest(lib) ==> Find(lib, s, Merge([], query), domain) == Find(lib, s, query, domain))
            <==> Merge([], query) == query
  {
    if Merge([], query) != query {
      var lib, s := SqlMayNameAnotherRule(query, universe);
      assert Find(lib, s, Merge([], query), "a.b.c") != Find(lib, s, query, "a.b.c");
    }
  }

  lemma SameRows(s: Store, a: seq<RuleList>, b: seq<RuleList>, domain: string)
    requires s.Sql? && SameLists(a, b)
    ensures forall names :: Rows(s, a, names) == Rows(s, b, names)
  {
    forall short ensures Selected(s, a, short) <==> Selected(s, b, short) {
      if Selected(s, a, short) { SelectedBySome(s, a, b, short); }
      if Selected(s, b, short) { SelectedBySome(s, b, a, short); }
    }
  }

  lemma SelectedBySome(s: Store, a: seq<RuleList>, b: seq<RuleList>, short: string)
    requires SameLists(a, b) && Selected(s, a, short)
    ensures Selected(s, b, short)
  {
    var i :| 0 <= i < |a| && GetList(s.lists, a[i].short).Some? && GetList(s.lists, a[i].short).value.short == short;
    assert a[i] in b;
    var j :| 0 <= j < |b| && b[j] == a[i];
  }

  /** The verdict on a consumer's own lists is of the kind of the verdict on its groups' lists, for every
      store and domain, whenever the consumer is linked to a group at all; and it names the same list and
      rule for every store that does not hand the query to the database as it is. */
  lemma DecisionPathsAgree(lib: Lib, store: Option<Store>, groups: seq<Group>, wanted: seq<string>, consumer: Consumer,
                           universe: set<RuleList>, domain: string)
    requires Distinct(universe) && UniqueNames(groups) && Within(universe, ListsOf(Linked(groups, wanted)))
    requires var linked := Linked(groups, wanted);
             consumer == Consumer(consumer.block, NamesOf(linked), ResolversOf(linked), Merge([], ListsOf(linked)))
    requires Linked(groups, wanted) != []
    ensures var own, shared := VerdictForConsumer(lib, store, consumer, domain),
                               VerdictForGroups(lib, store, GroupMap(groups), GroupsOf(consumer), domain);
            own.match_ == shared.match_ && ((store.Some? && AsksSql(store.value)) || own == shared)
  {
    var linked := Linked(groups, wanted);
    forall i | 0 <= i < |linked| ensures linked[i].name in GroupMap(groups) && GroupMap(groups)[linked[i].name] == linked[i] {
      LinkedComeFrom(groups, wanted, linked[i]);
      var k :| 0 <= k < |groups| && groups[k] == linked[i];
      GroupMapHolds(groups, k);
    }
    NamedListsOfLinked(GroupMap(groups), linked);
    var query := ListsOf(linked);
    MergeHolds([], query, universe);
    if query != [] { assert query[0] in [] + query; }
    if store.Some? { FindOnMerged(lib, store.value, query, universe, DropDot(domain)); }
  }

  /** The lists of the default group. */
  function DefaultLists(groups: map<string, Group>): (r: seq<RuleList>) {
    if "default" in groups then groups["default"].lists else []
  }

  /** A memory store with a single rule. */
  function OneRule(l: RuleList): (s: Store) {
    Memory(AddList(map[], l), map[l.canonical := ["ab"]])
  }

  lemma OneRuleIsLoaded(lib: Lib, l: RuleList)
    ensures Apply(lib, Memory(map[], map[]), Load(l, "ab")) == OneRule(l)
  {
    assert Lower("ab") == "ab" && [] + ["ab"] == ["ab"];
  }

  lemma OneRuleIsFound(lib: Lib, l: RuleList)
    ensures FindIn(lib, OneRule(l), l, "ab") == Verdict(MatchOf(l.kind), Some(l), "ab")
  {
    assert Plain("ab");
    WalkUndotted("ab");
    TrimNothing("ab");
    assert DomainNames("ab") == ["ab"];
    LexTotal(Lower("ab"), Lower("ab"));
    assert Bisect(["ab"], "ab", 0, 1) == 0;
    assert Found(["ab"], "ab") == Some("ab");
  }

  /** It matches that rule's domain in every query that starts with the list. */
  lemma OneRuleMatches(lib: Lib, query: seq<RuleList>)
    requires query != []
    ensures var s := Apply(lib, Memory(map[], map[]), Load(query[0], "ab"));
            Find(lib, s, query, "ab").match_ == MatchOf(query[0].kind)
  {
    var l := query[0];
    var s := OneRule(l);
    var action := (k: RuleList) => FindIn(lib, s, k, "ab");
    OneRuleIsLoaded(lib, l);
    OneRuleIsFound(lib, l);
    assert Held(s.lists, l.kind, l.short) == Some(l);
    if l.kind == Block { NoneHeld(s.lists, Allow, query, action); }
  }

  /** A consumer linked to no group, while the default group has lists: a store and a domain on which the
      two paths disagree. */
  lemma UnlinkedConsumersDiffer(lib: Lib, groups: map<string, Group>, consumer: Consumer) returns (store: Store, domain: string)
    requires consumer.groupNames == [] && consumer.lists == [] && DefaultLists(groups) != []
    ensures VerdictForConsumer(lib, Some(store), consumer, domain).match_ == MatchNone
    ensures VerdictForGroups(lib, Some(store), groups, GroupsOf(consumer), domain).match_ == MatchOf(DefaultLists(groups)[0].kind)
  {
    var lists := DefaultLists(groups);
    assert ["default"][1..] == [] && NamedLists(groups, ["default"]) == lists;
    OneRuleMatches(lib, lists);
    store, domain := Apply(lib, Memory(map[], map[]), Load(lists[0], "ab")), "ab";
  }

  /** The two decision paths decide alike, for every store and every domain, if and only if the consumer is
      linked to a group, or the default group has no lists to judge by. */
  lemma DecisionPathsAgreeIff(lib: Lib, groups: seq<Group>, wanted: seq<string>, consumer: Consumer, universe: set<RuleList>)
    requires Distinct(universe) && UniqueNames(groups) && Within(universe, ListsOf(Linked(groups, wanted)))
    requires var linked := Linked(groups, wanted);
             consumer == Consumer(consumer.block, NamesOf(linked), ResolversOf(linked), Merge([], ListsOf(linked)))
    ensures (forall store, domain ::
               VerdictForConsumer(lib, store, consumer, domain).match_ ==
               VerdictForGroups(lib, store, GroupMap(groups), GroupsOf(consumer), domain).match_)
            <==> (Linked(groups, wanted) != [] || DefaultLists(GroupMap(groups)) == [])
  {
    if Linked(groups, wanted) != [] {
      forall store, domain
        ensures VerdictForConsumer(lib, store, consumer, domain).match_ ==
                VerdictForGroups(lib, store, GroupMap(groups), GroupsOf(consumer), domain).match_
      {
        DecisionPathsAgree(lib, store, groups, wanted, consumer, universe, domain);
      }
    } else if DefaultLists(GroupMap(groups)) != [] {
      var store, domain := UnlinkedConsumersDiffer(lib, GroupMap(groups), consumer);
      assert VerdictForConsumer(lib, Some(store), consumer, domain).match_ !=
             VerdictForGroups(lib, Some(store), GroupMap(groups), GroupsOf(consumer), domain).match_;
    } else {
      assert ["default"][1..] == [] && NamedLists(GroupMap(groups), ["default"]) == [];
    }
  }

  // ---- groups in their given order ----

  /** The lists of groups come in the order of the groups. */
  lemma {:induction false} NamedListsInOrder(groups: map<string, Group>, a: seq<string>, b: seq<string>)
    ensures NamedLists(groups, a + b) == NamedLists(groups, a) + NamedLists(groups, b)
    decreases |a|
  {
    if a == [] {
      assert a + b == b;
    } else {
      assert (a + b)[0] == a[0] && (a + b)[1..] == a[1..] + b;
      NamedListsInOrder(groups, a[1..], b);
    }
  }

  lemma NamedListsOfOne(groups: map<string, Group>, name: string)
    ensures NamedLists(groups, [name]) == if name in groups then groups[name].lists else []
  {
    assert [name][1..] == [];
  }

  /** Groups are linked in the order of the configuration. */
  lemma {:induction false} LinkedInOrder(a: seq<Group>, b: seq<Group>, wanted: seq<string>)
    ensures Linked(a + b, wanted) == Linked(a, wanted) + Linked(b, wanted)
    decreases |a|
  {
    if a == [] {
      assert a + b == b;
    } else {
      assert (a + b)[0] == a[0] && (a + b)[1..] == a[1..] + b;
      LinkedInOrder(a[1..], b, wanted);
    }
  }

  /** And their resolvers are taken over in that order. */
  lemma {:induction false} ResolversInOrder(a: seq<Group>, b: seq<Group>)
    ensures ResolversOf(a + b) == ResolversOf(a) + ResolversOf(b)
    decreases |a|
  {
    if a == [] {
      assert a + b == b;
    } else {
      assert (a + b)[0] == a[0] && (a + b)[1..] == a[1..] + b;
      ResolversInOrder(a[1..], b);
    }
  }

  lemma {:induction false} GroupListsInOrder(a: seq<Group>, b: seq<Group>)
    ensures ListsOf(a + b) == ListsOf(a) + ListsOf(b)
    decreases |a|
  {
    if a == [] {
      assert a + b == b;
    } else {
      assert (a + b)[0] == a[0] && (a + b)[1..] == a[1..] + b;
      GroupListsInOrder(a[1..], b);
    }
  }

  lemma LinkedOne(g: Group, wanted: seq<string>)
    ensures Linked([g], wanted) == if g.name in wanted then [g] else []
    ensures NamesOf([g]) == [g.name] && ResolversOf([g]) == g.resolvers && ListsOf([g]) == g.lists
  {
    assert [g][1..] == [];
  }
}
