/** What a verdict of the database names, directly or behind a filter: a queried list and one of its loaded
    rules; and what a Bloom filter holds (rule/store_sqlite.go, rule/store_hash.go, rule/store_bloom.go). */
module Naming {
  import opened Text
  import opened Domains
  import opened Rules
  import opened Stores
  import opened FilterProofs
  import Decision

  /** A positive verdict names a list of the query, of its own kind, and a rule that is loaded in that list
      and is the domain or one of its parents. */
  ghost predicate NamesLoaded(book: Book, query: seq<RuleList>, domain: string, v: Verdict) {
    v.match_ != MatchNone ==>
      && v.list.Some? && v.list.value in query && v.list.value in book && v.match_ == MatchOf(v.list.value.kind)
      && v.rule in book[v.list.value] && v.rule in DomainNames(domain)
  }

  // ---- the database ----

  lemma RowNames(universe: set<RuleList>, s: Store, book: Book, query: seq<RuleList>, names: seq<string>, row: Row)
    requires Distinct(universe) && SqlOk(universe, s, book) && RowsLoaded(s, book) && Within(universe, query) && row in Rows(s, query, names)
    ensures var l := GetList(s.lists, row.0);
            && l.Some? && l.value in query && l.value in book && s.table[row.0] == l.value.kind
            && row.1 in book[l.value] && row.1 in names
  {
    var i :| 0 <= i < |query| && GetList(s.lists, query[i].short).Some? && GetList(s.lists, query[i].short).value.short == row.0;
    GetListIsQueried(universe, s.lists, book, query[i]);
    assert Loaded(book, row);
    var l :| l in book && l.short == row.0 && row.1 in book[l];
    assert l == query[i];
  }

  lemma SqlNames(lib: Lib, universe: set<RuleList>, s: Store, book: Book, query: seq<RuleList>, domain: string)
    requires Decision.Honest(lib) && Distinct(universe) && SqlOk(universe, s, book) && RowsLoaded(s, book) && Within(universe, query)
    ensures NamesLoaded(book, query, domain, SqlFind(lib, s, query, DomainNames(domain)))
  {
    var names := DomainNames(domain);
    var rows := Rows(s, query, names);
    var allow := set row | row in rows && row.0 in s.table && s.table[row.0] == Allow;
    if allow != {} {
      RowNames(universe, s, book, query, names, lib.pick(query, allow));
    } else if rows != {} {
      var row := lib.pick(query, rows);
      RowNames(universe, s, book, query, names, row);
      assert row !in allow;
    }
  }

  /** Over every run the database names a queried list and one of its loaded rules. */
  lemma SqlNamesLoadedRules(lib: Lib, universe: set<RuleList>, table: map<string, ListType>, ops: seq<Op>, query: seq<RuleList>, domain: string)
    requires Decision.Honest(lib) && Distinct(universe) && TableOf(universe, table) && Confined(universe, ops) && Within(universe, query)
    ensures NamesLoaded(Written(ops), query, domain, Find(lib, ApplyAll(lib, FreshSql(table), ops), query, domain))
  {
    RunKeepsSql(lib, universe, table, ops);
    SqlNames(lib, universe, ApplyAll(lib, FreshSql(table), ops), Written(ops), query, domain);
  }

  // ---- behind a filter ----

  /** The verdict is what the action says about a loaded list of the query. */
  ghost predicate SaidOf(book: Book, query: seq<RuleList>, action: RuleList -> Verdict, v: Verdict) {
    exists i :: 0 <= i < |query| && Said(book, query[i], action, v)
  }

  predicate Said(book: Book, l: RuleList, action: RuleList -> Verdict, v: Verdict) {
    l in book && v == action(l)
  }

  lemma {:induction false} PassSays(universe: set<RuleList>, lists: Lists, book: Book, kind: ListType, query: seq<RuleList>, action: RuleList -> Verdict)
    requires Distinct(universe) && Registered(universe, lists, book) && Within(universe, query)
    requires FirstMatch(lists, kind, query, action).match_ != MatchNone
    ensures SaidOf(book, query, action, FirstMatch(lists, kind, query, action))
    decreases |query|
  {
    var v := FirstMatch(lists, kind, query, action);
    HeldIsQueried(universe, lists, book, kind, query[0]);
    if Held(lists, kind, query[0].short).Some? && action(query[0]).match_ != MatchNone {
      assert Said(book, query[0], action, v);
    } else {
      var rest := query[1..];
      assert v == FirstMatch(lists, kind, rest, action);
      PassSays(universe, lists, book, kind, rest, action);
      var i :| 0 <= i < |rest| && Said(book, rest[i], action, v);
      assert Said(book, query[i + 1], action, v);
    }
  }

  /** The store holds the same lists as the database `sql` and asks it about one list at a time. */
  ghost predicate InFrontOf(universe: set<RuleList>, s: Store, sql: Store, book: Book) {
    && Registered(universe, s.lists, book) && SqlOk(universe, sql, book) && RowsLoaded(sql, book)
    && ((s.Bloom? && s.backing == Some(sql)) || (s.Hash? && s.delegate == Some(sql)))
  }

  lemma FilterNamesInList(lib: Lib, universe: set<RuleList>, s: Store, sql: Store, book: Book, l: RuleList, domain: string)
    requires Decision.Honest(lib) && Distinct(universe) && InFrontOf(universe, s, sql, book) && l in book
    ensures NamesLoaded(book, [l], domain, FindIn(lib, s, l, domain))
  {
    SqlNames(lib, universe, sql, book, [l], domain);
    assert Find(lib, sql, [l], domain) == SqlFind(lib, sql, [l], DomainNames(domain));
  }

  lemma FilterNames(lib: Lib, universe: set<RuleList>, s: Store, sql: Store, book: Book, query: seq<RuleList>, domain: string)
    requires Decision.Honest(lib) && Distinct(universe) && Within(universe, query) && InFrontOf(universe, s, sql, book)
    ensures NamesLoaded(book, query, domain, Find(lib, s, query, domain))
  {
    var action := (l: RuleList) => FindIn(lib, s, l, domain);
    var v := TwoPass(s.lists, query, action);
    assert Find(lib, s, query, domain) == v;
    if v.match_ != MatchNone {
      if FirstMatch(s.lists, Allow, query, action).match_ != MatchNone {
        PassSays(universe, s.lists, book, Allow, query, action);
      } else {
        PassSays(universe, s.lists, book, Block, query, action);
      }
      var i :| 0 <= i < |query| && Said(book, query[i], action, v);
      FilterNamesInList(lib, universe, s, sql, book, query[i], domain);
    }
  }

  /** Over every run, so does the database behind a hash set or a Bloom filter. */
  lemma FiltersNameLoadedRules(lib: Lib, universe: set<RuleList>, table: map<string, ListType>, filters: map<string, set<nat>>,
                               ops: seq<Op>, query: seq<RuleList>, domain: string)
    requires Decision.Honest(lib) && Distinct(universe) && TableOf(universe, table) && Confined(universe, ops) && Within(universe, query)
    ensures NamesLoaded(Written(ops), query, domain, Find(lib, ApplyAll(lib, FreshHash(Some(FreshSql(table))), ops), query, domain))
    ensures NamesLoaded(Written(ops), query, domain, Find(lib, ApplyAll(lib, BloomOver(filters, FreshSql(table)), ops), query, domain))
  {
    var sql := ApplyAll(lib, FreshSql(table), ops);
    RunKeepsSql(lib, universe, table, ops);
    RunKeepsHash(lib, universe, Some(FreshSql(table)), ops);
    FilterNames(lib, universe, ApplyAll(lib, FreshHash(Some(FreshSql(table))), ops), sql, Written(ops), query, domain);
    RunKeepsBloom(lib, universe, filters, FreshSql(table), ops);
    FilterNames(lib, universe, ApplyAll(lib, BloomOver(filters, FreshSql(table)), ops), sql, Written(ops), query, domain);
  }

  // ---- what a Bloom filter holds ----

  /** The bits of every rule ever loaded into a list, cleared since or not. */
  function EverSet(lib: Lib, ops: seq<Op>, canonical: string): (r: set<nat>) {
    if ops == [] then {}
    else
      var op := ops[|ops| - 1];
      EverSet(lib, ops[..|ops| - 1], canonical) + if op.Load? && op.list.canonical == canonical then lib.positions(canonical, op.rule) else {}
  }

  /** A list's filter is made with its first load or clear. */
  predicate Touched(ops: seq<Op>, canonical: string) {
    ops != [] && ((!ops[|ops| - 1].Finalize? && ops[|ops| - 1].list.canonical == canonical) || Touched(ops[..|ops| - 1], canonical))
  }

  /** Over every run a filter holds exactly the bits it began with and those of every rule ever loaded: loads
      that were skipped because they tested positive lose nothing, and clearing takes nothing out. */
  lemma {:induction false} BloomBitsAreExact(lib: Lib, filters: map<string, set<nat>>, backing: Option<Store>, ops: seq<Op>, canonical: string)
    ensures var s := ApplyAll(lib, Bloom(map[], filters, backing), ops);
            && s.Bloom? && At(s.blooms, canonical, {}) == At(filters, canonical, {}) + EverSet(lib, ops, canonical)
            && (canonical in s.blooms <==> canonical in filters || Touched(ops, canonical))
    decreases |ops|
  {
    if ops != [] { BloomBitsAreExact(lib, filters, backing, ops[..|ops| - 1], canonical); }
  }

  /** Some name of the domain has all its bits among those the list's filter began with or was ever given. */
  ghost predicate Passes(lib: Lib, filters: map<string, set<nat>>, ops: seq<Op>, l: RuleList, names: seq<string>) {
    exists i :: 0 <= i < |names| && lib.positions(l.canonical, names[i]) <= At(filters, l.canonical, {}) + EverSet(lib, ops, l.canonical)
  }

  lemma {:induction false} BloomIsRegistered(lib: Lib, universe: set<RuleList>, filters: map<string, set<nat>>, ops: seq<Op>)
    requires Distinct(universe) && Confined(universe, ops)
    ensures Registered(universe, ApplyAll(lib, Bloom(map[], filters, None), ops).lists, Written(ops))
    ensures ApplyAll(lib, Bloom(map[], filters, None), ops).Bloom? && ApplyAll(lib, Bloom(map[], filters, None), ops).backing == None
    decreases |ops|
  {
    if ops != [] {
      ConfinedInit(universe, ops);
      BloomIsRegistered(lib, universe, filters, ops[..|ops| - 1]);
      ListedKeepsRegistered(universe, ApplyAll(lib, Bloom(map[], filters, None), ops[..|ops| - 1]).lists, Written(ops[..|ops| - 1]), ops[|ops| - 1]);
    }
  }

  lemma {:induction false} WrittenIsTouched(ops: seq<Op>, l: RuleList)
    requires l in Written(ops)
    ensures Touched(ops, l.canonical)
    decreases |ops|
  {
    if ops[|ops| - 1].Finalize? || ops[|ops| - 1].list != l { WrittenIsTouched(ops[..|ops| - 1], l); }
  }

  /** A Bloom store without a store behind it judges by its filters alone: a loaded list hits exactly when some
      name of the domain passes, also on bits of rules that were cleared. */
  lemma BloomAloneJudges(lib: Lib, universe: set<RuleList>, filters: map<string, set<nat>>, ops: seq<Op>, query: seq<RuleList>, domain: string)
    requires Distinct(universe) && Confined(universe, ops) && Within(universe, query)
    ensures Find(lib, ApplyAll(lib, Bloom(map[], filters, None), ops), query, domain).match_ ==
            Judged(Written(ops), query, set l | l in universe && Passes(lib, filters, ops, l, DomainNames(domain)))
  {
    var s, book, names := ApplyAll(lib, Bloom(map[], filters, None), ops), Written(ops), DomainNames(domain);
    var hits := set l | l in universe && Passes(lib, filters, ops, l, names);
    BloomIsRegistered(lib, universe, filters, ops);
    forall l | l in book ensures FindIn(lib, s, l, domain).match_ == if l in hits then MatchOf(l.kind) else MatchNone {
      BloomBitsAreExact(lib, filters, None, ops, l.canonical);
      WrittenIsTouched(ops, l);
      TestsIff(lib, l, s.blooms[l.canonical], names);
    }
    TwoPassJudges(universe, s.lists, book, query, (l: RuleList) => FindIn(lib, s, l, domain), hits);
  }
}
