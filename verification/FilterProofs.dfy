/** Hash, Bloom and SQL stores, alone and layered: a filter in front of a store never changes the
    kind of a verdict, because it covers every rule the store can still find. */
module FilterProofs {
  import opened Text
  import opened Domains
  import opened Rules
  import opened Stores

  // ---- verdict kinds, list by list ----

  ghost predicate AnyHit(book: Book, kind: ListType, query: seq<RuleList>, hits: set<RuleList>) {
    exists i :: 0 <= i < |query| && query[i] in book && query[i].kind == kind && query[i] in hits
  }

  ghost function Judged(book: Book, query: seq<RuleList>, hits: set<RuleList>): (r: Match) {
    if AnyHit(book, Allow, query, hits) then MatchAllow
    else if AnyHit(book, Block, query, hits) then MatchBlock
    else MatchNone
  }

  /** The action matches a loaded list with that list's kind, exactly when the list is hit. */
  ghost predicate Reflects(book: Book, query: seq<RuleList>, action: RuleList -> Verdict, hits: set<RuleList>) {
    forall i :: 0 <= i < |query| && query[i] in book ==>
      action(query[i]).match_ == if query[i] in hits then MatchOf(query[i].kind) else MatchNone
  }

  lemma {:induction false} PassJudges(universe: set<RuleList>, lists: Lists, book: Book, kind: ListType, query: seq<RuleList>,
                                      action: RuleList -> Verdict, hits: set<RuleList>)
    requires Distinct(universe) && Registered(universe, lists, book) && Within(universe, query)
    requires Reflects(book, query, action, hits)
    ensures FirstMatch(lists, kind, query, action).match_ == if AnyHit(book, kind, query, hits) then MatchOf(kind) else MatchNone
    decreases |query|
  {
    if query != [] {
      var rest := query[1..];
      assert forall i :: 0 <= i < |rest| ==> rest[i] == query[i + 1];
      HeldIsQueried(universe, lists, book, kind, query[0]);
      PassJudges(universe, lists, book, kind, rest, action, hits);
      AnyHitCons(book, kind, query, hits);
      assert query[0] in book ==> action(query[0]).match_ == if query[0] in hits then MatchOf(query[0].kind) else MatchNone;
    }
  }

  lemma AnyHitCons(book: Book, kind: ListType, query: seq<RuleList>, hits: set<RuleList>)
    requires query != []
    ensures AnyHit(book, kind, query, hits) <==>
            (query[0] in book && query[0].kind == kind && query[0] in hits) || AnyHit(book, kind, query[1..], hits)
  {
    var rest := query[1..];
    if AnyHit(book, kind, rest, hits) {
      var i :| 0 <= i < |rest| && rest[i] in book && rest[i].kind == kind && rest[i] in hits;
      assert query[i + 1] == rest[i];
    }
    if AnyHit(book, kind, query, hits) {
      var i :| 0 <= i < |query| && query[i] in book && query[i].kind == kind && query[i] in hits;
      if i > 0 { assert rest[i - 1] == query[i]; }
    }
  }

  lemma TwoPassJudges(universe: set<RuleList>, lists: Lists, book: Book, query: seq<RuleList>, action: RuleList -> Verdict, hits: set<RuleList>)
    requires Distinct(universe) && Registered(universe, lists, book) && Within(universe, query)
    requires Reflects(book, query, action, hits)
    ensures TwoPass(lists, query, action).match_ == Judged(book, query, hits)
  {
    PassJudges(universe, lists, book, Allow, query, action, hits);
    PassJudges(universe, lists, book, Block, query, action, hits);
  }

  lemma JudgedAlone(book: Book, l: RuleList, hits: set<RuleList>)
    requires l in book
    ensures Judged(book, [l], hits) == if l in hits then MatchOf(l.kind) else MatchNone
  {
    AnyHitCons(book, Allow, [l], hits);
    AnyHitCons(book, Block, [l], hits);
  }

  // ---- SQL ----

  predicate SqlHit(s: Store, l: RuleList, names: seq<string>)
    requires s.Sql?
  {
    exists i :: 0 <= i < |names| && (l.short, names[i]) in s.committed
  }

  ghost predicate SqlOk(universe: set<RuleList>, s: Store, book: Book) {
    s.Sql? && Registered(universe, s.lists, book) && TableOf(universe, s.table)
  }

  lemma GetListIsQueried(universe: set<RuleList>, lists: Lists, book: Book, q: RuleList)
    requires Distinct(universe) && Registered(universe, lists, book) && q in universe
    ensures GetList(lists, q.short) == if q in book then Some(q) else None
  {
    HeldIsQueried(universe, lists, book, Allow, q);
    HeldIsQueried(universe, lists, book, Block, q);
  }

  ghost function SqlHits(universe: set<RuleList>, s: Store, names: seq<string>): (r: set<RuleList>)
    requires s.Sql?
  {
    set l | l in universe && SqlHit(s, l, names)
  }

  /** `ORDER BY ListType DESC LIMIT 1` judges like a pass over allow lists before one over block lists. */
  lemma SqlJudges(lib: Lib, universe: set<RuleList>, s: Store, book: Book, query: seq<RuleList>, names: seq<string>)
    requires Distinct(universe) && SqlOk(universe, s, book) && Within(universe, query)
    ensures SqlFind(lib, s, query, names).match_ == Judged(book, query, SqlHits(universe, s, names))
  {
    var rows := Rows(s, query, names);
    SqlFindKind(lib, s, query, names);
    forall row | row in rows ensures AnyHit(book, s.table[row.0], query, SqlHits(universe, s, names)) {
      RowMeansHit(universe, s, book, query, names, row);
    }
    forall kind | AnyHit(book, kind, query, SqlHits(universe, s, names)) ensures exists row :: row in rows && s.table[row.0] == kind {
      HitMeansRow(universe, s, book, kind, query, names);
    }
  }

  lemma SqlFindKind(lib: Lib, s: Store, query: seq<RuleList>, names: seq<string>)
    requires s.Sql?
    ensures SqlFind(lib, s, query, names).match_ ==
            if exists row :: row in Rows(s, query, names) && s.table[row.0] == Allow then MatchAllow
            else if exists row :: row in Rows(s, query, names) && s.table[row.0] == Block then MatchBlock
            else MatchNone
  {
    var rows := Rows(s, query, names);
    var allow := set row | row in rows && row.0 in s.table && s.table[row.0] == Allow;
    if allow != {} {
      var row :| row in allow;
      assert row in rows && s.table[row.0] == Allow;
    } else {
      assert forall row :: row in rows ==> row !in allow;
      if rows != {} {
        var row :| row in rows;
        assert s.table[row.0] == Block;
      }
    }
  }

  lemma RowMeansHit(universe: set<RuleList>, s: Store, book: Book, query: seq<RuleList>, names: seq<string>, row: Row)
    requires Distinct(universe) && SqlOk(universe, s, book) && Within(universe, query) && row in Rows(s, query, names)
    ensures AnyHit(book, s.table[row.0], query, SqlHits(universe, s, names))
  {
    var i :| 0 <= i < |query| && GetList(s.lists, query[i].short).Some? && GetList(s.lists, query[i].short).value.short == row.0;
    GetListIsQueried(universe, s.lists, book, query[i]);
    var k :| 0 <= k < |names| && names[k] == row.1;
    assert (query[i].short, names[k]) == row;
    assert SqlHit(s, query[i], names);
  }

  lemma HitMeansRow(universe: set<RuleList>, s: Store, book: Book, kind: ListType, query: seq<RuleList>, names: seq<string>)
    requires Distinct(universe) && SqlOk(universe, s, book) && Within(universe, query)
    requires AnyHit(book, kind, query, SqlHits(universe, s, names))
    ensures exists row :: row in Rows(s, query, names) && s.table[row.0] == kind
  {
    var i :| 0 <= i < |query| && query[i] in book && query[i].kind == kind && query[i] in SqlHits(universe, s, names);
    GetListIsQueried(universe, s.lists, book, query[i]);
    var k :| 0 <= k < |names| && (query[i].short, names[k]) in s.committed;
    assert Selected(s, query, query[i].short);
    assert (query[i].short, names[k]) in Rows(s, query, names);
  }

  /** Every row, visible or not, is a rule that is loaded now. */
  ghost predicate RowsLoaded(s: Store, book: Book)
    requires s.Sql?
  {
    forall row :: row in s.committed + s.pending ==> Loaded(book, row)
  }

  ghost predicate Loaded(book: Book, row: Row) {
    exists l :: l in book && l.short == row.0 && row.1 in book[l]
  }

  lemma StepKeepsSql(lib: Lib, universe: set<RuleList>, s: Store, book: Book, op: Op)
    requires Distinct(universe) && SqlOk(universe, s, book) && RowsLoaded(s, book) && ConfinedOp(universe, op)
    ensures SqlOk(universe, Apply(lib, s, op), Recorded(book, op)) && RowsLoaded(Apply(lib, s, op), Recorded(book, op))
  {
    ListedKeepsRegistered(universe, s.lists, book, op);
    var s', book' := Apply(lib, s, op), Recorded(book, op);
    forall row | row in s'.committed + s'.pending ensures Loaded(book', row) {
      RowStaysLoaded(lib, universe, s, book, op, row);
    }
  }

  lemma RowStaysLoaded(lib: Lib, universe: set<RuleList>, s: Store, book: Book, op: Op, row: Row)
    requires Distinct(universe) && s.Sql? && RowsLoaded(s, book) && book.Keys <= universe && ConfinedOp(universe, op)
    requires row in Apply(lib, s, op).committed + Apply(lib, s, op).pending
    ensures Loaded(Recorded(book, op), row)
  {
    var book' := Recorded(book, op);
    if row in s.committed + s.pending {
      assert Loaded(book, row);
      var l :| l in book && l.short == row.0 && row.1 in book[l];
      assert l in book' && row.1 in book'[l];
    } else {
      assert op.Load? && row == (op.list.short, op.rule);
      assert row.1 in book'[op.list];
    }
  }

  function FreshSql(table: map<string, ListType>): (r: Store) {
    Sql(map[], table, {}, {}, false, Absent)
  }

  lemma {:induction false} RunKeepsSql(lib: Lib, universe: set<RuleList>, table: map<string, ListType>, ops: seq<Op>)
    requires Distinct(universe) && TableOf(universe, table) && Confined(universe, ops)
    ensures var s := ApplyAll(lib, FreshSql(table), ops);
            SqlOk(universe, s, Written(ops)) && RowsLoaded(s, Written(ops))
    decreases |ops|
  {
    if ops != [] {
      ConfinedInit(universe, ops);
      var init := ops[..|ops| - 1];
      RunKeepsSql(lib, universe, table, init);
      StepKeepsSql(lib, universe, ApplyAll(lib, FreshSql(table), init), Written(init), ops[|ops| - 1]);
    }
  }

  // ---- Bloom over SQL ----

  ghost predicate BloomCovers(lib: Lib, s: Store, book: Book)
    requires s.Bloom?
  {
    forall l, rule :: l in book && rule in book[l] ==> BloomHas(lib, s, l, rule)
  }

  ghost predicate BloomHas(lib: Lib, s: Store, l: RuleList, rule: string)
    requires s.Bloom?
  {
    l.canonical in s.blooms && lib.positions(l.canonical, rule) <= s.blooms[l.canonical]
  }

  ghost predicate BloomOk(lib: Lib, universe: set<RuleList>, s: Store, book: Book) {
    s.Bloom? && Registered(universe, s.lists, book) && BloomCovers(lib, s, book)
  }

  /** Clear leaves stale bits and Load skips texts that already test positive; the filter still covers
      everything that is loaded. */
  lemma StepKeepsBloom(lib: Lib, universe: set<RuleList>, s: Store, book: Book, op: Op)
    requires Distinct(universe) && BloomOk(lib, universe, s, book) && ConfinedOp(universe, op)
    ensures BloomOk(lib, universe, Apply(lib, s, op), Recorded(book, op))
  {
    ListedKeepsRegistered(universe, s.lists, book, op);
    var s', book' := Apply(lib, s, op), Recorded(book, op);
    forall l, rule | l in book' && rule in book'[l] ensures BloomHas(lib, s', l, rule) {
      if l in book && rule in book[l] {
        assert BloomHas(lib, s, l, rule);
      }
    }
  }

  function BloomOver(filters: map<string, set<nat>>, backing: Store): (r: Store) {
    Bloom(map[], filters, Some(backing))
  }

  lemma {:induction false} RunKeepsBloom(lib: Lib, universe: set<RuleList>, filters: map<string, set<nat>>, backing: Store, ops: seq<Op>)
    requires Distinct(universe) && Confined(universe, ops)
    ensures var s := ApplyAll(lib, BloomOver(filters, backing), ops);
            BloomOk(lib, universe, s, Written(ops)) && s.backing == Some(ApplyAll(lib, backing, ops))
    decreases |ops|
  {
    if ops != [] {
      ConfinedInit(universe, ops);
      var init := ops[..|ops| - 1];
      RunKeepsBloom(lib, universe, filters, backing, init);
      StepKeepsBloom(lib, universe, ApplyAll(lib, BloomOver(filters, backing), init), Written(init), ops[|ops| - 1]);
    }
  }

  lemma RowTestsPositive(lib: Lib, universe: set<RuleList>, s: Store, sql: Store, book: Book, l: RuleList, names: seq<string>)
    requires Distinct(universe) && BloomOk(lib, universe, s, book) && SqlOk(universe, sql, book) && RowsLoaded(sql, book)
    requires l in book && SqlHit(sql, l, names)
    ensures l.canonical in s.blooms && Tests(lib, l, s.blooms[l.canonical], names)
  {
    var i :| 0 <= i < |names| && (l.short, names[i]) in sql.committed;
    assert Loaded(book, (l.short, names[i]));
    assert BloomHas(lib, s, l, names[i]);
    TestsIff(lib, l, s.blooms[l.canonical], names);
  }

  lemma BloomReflects(lib: Lib, universe: set<RuleList>, s: Store, sql: Store, book: Book, l: RuleList, domain: string)
    requires Distinct(universe) && l in book
    requires BloomOk(lib, universe, s, book) && s.backing == Some(sql) && SqlOk(universe, sql, book) && RowsLoaded(sql, book)
    ensures FindIn(lib, s, l, domain).match_ ==
            if l in SqlHits(universe, sql, DomainNames(domain)) then MatchOf(l.kind) else MatchNone
  {
    var names := DomainNames(domain);
    SqlJudges(lib, universe, sql, book, [l], names);
    JudgedAlone(book, l, SqlHits(universe, sql, names));
    if SqlHit(sql, l, names) { RowTestsPositive(lib, universe, s, sql, book, l, names); }
  }

  /** Over every run of Load, Clear and Finalize after one Init, whatever the filters contained, a Bloom
      filter in front of the database gives the same kind of verdict as the database alone. */
  lemma BloomOverSqlIsSql(lib: Lib, universe: set<RuleList>, table: map<string, ListType>, filters: map<string, set<nat>>,
                          ops: seq<Op>, query: seq<RuleList>, domain: string)
    requires Distinct(universe) && TableOf(universe, table) && Confined(universe, ops) && Within(universe, query)
    ensures Find(lib, ApplyAll(lib, BloomOver(filters, FreshSql(table)), ops), query, domain).match_
         == Find(lib, ApplyAll(lib, FreshSql(table), ops), query, domain).match_
  {
    var s, sql, book := ApplyAll(lib, BloomOver(filters, FreshSql(table)), ops), ApplyAll(lib, FreshSql(table), ops), Written(ops);
    RunKeepsSql(lib, universe, table, ops);
    RunKeepsBloom(lib, universe, filters, FreshSql(table), ops);
    forall l | l in book { BloomReflects(lib, universe, s, sql, book, l, domain); }
    TwoPassJudges(universe, s.lists, book, query, (l: RuleList) => FindIn(lib, s, l, domain), SqlHits(universe, sql, DomainNames(domain)));
    SqlJudges(lib, universe, sql, book, query, DomainNames(domain));
  }

  // ---- hash over SQL, and hash alone ----

  ghost predicate HashCovers(lib: Lib, s: Store, book: Book)
    requires s.Hash?
  {
    forall l, rule :: l in book && rule in book[l] ==> HashHas(lib, s, l, rule)
  }

  ghost predicate HashHas(lib: Lib, s: Store, l: RuleList, rule: string)
    requires s.Hash?
  {
    l.canonical in s.hashes && lib.hash(Lower(rule)) in s.hashes[l.canonical]
  }

  /** The set of a list holds nothing but hashes of rules loaded now. */
  ghost predicate HashExact(lib: Lib, universe: set<RuleList>, s: Store, book: Book)
    requires s.Hash?
  {
    forall l, h :: l in universe && h in At(s.hashes, l.canonical, {}) ==>
      exists k :: 0 <= k < |RulesOf(book, l)| && h == lib.hash(Lower(RulesOf(book, l)[k]))
  }

  ghost predicate HashOk(lib: Lib, universe: set<RuleList>, s: Store, book: Book) {
    s.Hash? && Registered(universe, s.lists, book) && HashCovers(lib, s, book) && HashExact(lib, universe, s, book)
  }

  lemma StepKeepsHash(lib: Lib, universe: set<RuleList>, s: Store, book: Book, op: Op)
    requires Distinct(universe) && HashOk(lib, universe, s, book) && ConfinedOp(universe, op)
    ensures HashOk(lib, universe, Apply(lib, s, op), Recorded(book, op))
  {
    ListedKeepsRegistered(universe, s.lists, book, op);
    var s', book' := Apply(lib, s, op), Recorded(book, op);
    forall l, rule | l in book' && rule in book'[l]
      ensures HashHas(lib, s', l, rule)
    {
      HashStaysCovering(lib, universe, s, book, op, l, rule);
    }
    forall l, h | l in universe && h in At(s'.hashes, l.canonical, {})
      ensures exists k :: 0 <= k < |RulesOf(book', l)| && h == lib.hash(Lower(RulesOf(book', l)[k]))
    {
      HashStaysExact(lib, universe, s, book, op, l, h);
    }
  }

  lemma HashStaysCovering(lib: Lib, universe: set<RuleList>, s: Store, book: Book, op: Op, l: RuleList, rule: string)
    requires Distinct(universe) && s.Hash? && book.Keys <= universe && HashCovers(lib, s, book) && ConfinedOp(universe, op)
    requires l in Recorded(book, op) && rule in Recorded(book, op)[l]
    ensures HashHas(lib, Apply(lib, s, op), l, rule)
  {
    if l in book && rule in book[l] {
      assert HashHas(lib, s, l, rule);
    }
  }

  lemma HashStaysExact(lib: Lib, universe: set<RuleList>, s: Store, book: Book, op: Op, l: RuleList, h: nat)
    requires Distinct(universe) && s.Hash? && HashExact(lib, universe, s, book) && ConfinedOp(universe, op)
    requires l in universe && h in At(Apply(lib, s, op).hashes, l.canonical, {})
    ensures var rules := RulesOf(Recorded(book, op), l); exists k :: 0 <= k < |rules| && h == lib.hash(Lower(rules[k]))
  {
    var old_, rules := RulesOf(book, l), RulesOf(Recorded(book, op), l);
    if op.Load? && op.list == l && h == lib.hash(Lower(op.rule)) {
      assert rules[|rules| - 1] == op.rule;
    } else {
      assert h in At(s.hashes, l.canonical, {});
      var k :| 0 <= k < |old_| && h == lib.hash(Lower(old_[k]));
      assert rules[k] == old_[k];
    }
  }

  function FreshHash(delegate: Option<Store>): (r: Store) {
    Hash(map[], map[], delegate)
  }

  lemma {:induction false} RunKeepsHash(lib: Lib, universe: set<RuleList>, delegate: Option<Store>, ops: seq<Op>)
    requires Distinct(universe) && Confined(universe, ops)
    ensures var s := ApplyAll(lib, FreshHash(delegate), ops);
            && HashOk(lib, universe, s, Written(ops))
            && s.delegate == if delegate.Some? then Some(ApplyAll(lib, delegate.value, ops)) else None
    decreases |ops|
  {
    if ops != [] {
      ConfinedInit(universe, ops);
      var init := ops[..|ops| - 1];
      RunKeepsHash(lib, universe, delegate, init);
      StepKeepsHash(lib, universe, ApplyAll(lib, FreshHash(delegate), init), Written(init), ops[|ops| - 1]);
    }
  }

  lemma {:induction false} HashLookupHits(lib: Lib, l: RuleList, hashes: set<nat>, names: seq<string>)
    ensures HashLookup(lib, l, hashes, names).match_ ==
            if exists i :: 0 <= i < |names| && lib.hash(Lower(names[i])) in hashes then MatchOf(l.kind) else MatchNone
    decreases |names|
  {
    if names != [] {
      HashLookupHits(lib, l, hashes, names[1..]);
      assert forall i :: 0 <= i < |names[1..]| ==> names[1..][i] == names[i + 1];
      if exists i :: 0 <= i < |names| && lib.hash(Lower(names[i])) in hashes {
        var i :| 0 <= i < |names| && lib.hash(Lower(names[i])) in hashes;
        if i > 0 { assert lib.hash(Lower(names[1..][i - 1])) in hashes; }
      }
    }
  }

  lemma HashReflects(lib: Lib, universe: set<RuleList>, s: Store, sql: Store, book: Book, l: RuleList, domain: string)
    requires Distinct(universe) && l in book
    requires HashOk(lib, universe, s, book) && s.delegate == Some(sql) && SqlOk(universe, sql, book) && RowsLoaded(sql, book)
    ensures FindIn(lib, s, l, domain).match_ ==
            if l in SqlHits(universe, sql, DomainNames(domain)) then MatchOf(l.kind) else MatchNone
  {
    var names := DomainNames(domain);
    SqlJudges(lib, universe, sql, book, [l], names);
    JudgedAlone(book, l, SqlHits(universe, sql, names));
    if l.canonical in s.hashes { HashLookupHits(lib, l, s.hashes[l.canonical], names); }
    if SqlHit(sql, l, names) {
      var i :| 0 <= i < |names| && (l.short, names[i]) in sql.committed;
      assert Loaded(book, (l.short, names[i]));
      assert HashHas(lib, s, l, names[i]);
    }
  }

  lemma HashOverSqlIsSql(lib: Lib, universe: set<RuleList>, table: map<string, ListType>,
                         ops: seq<Op>, query: seq<RuleList>, domain: string)
    requires Distinct(universe) && TableOf(universe, table) && Confined(universe, ops) && Within(universe, query)
    ensures Find(lib, ApplyAll(lib, FreshHash(Some(FreshSql(table))), ops), query, domain).match_
         == Find(lib, ApplyAll(lib, FreshSql(table), ops), query, domain).match_
  {
    var s, sql, book := ApplyAll(lib, FreshHash(Some(FreshSql(table))), ops), ApplyAll(lib, FreshSql(table), ops), Written(ops);
    RunKeepsSql(lib, universe, table, ops);
    RunKeepsHash(lib, universe, Some(FreshSql(table)), ops);
    forall l | l in book { HashReflects(lib, universe, s, sql, book, l, domain); }
    TwoPassJudges(universe, s.lists, book, query, (l: RuleList) => FindIn(lib, s, l, domain), SqlHits(universe, sql, DomainNames(domain)));
    SqlJudges(lib, universe, sql, book, query, DomainNames(domain));
  }

  // ---- Bloom over hash ----

  ghost predicate HashHit(lib: Lib, s: Store, l: RuleList, names: seq<string>)
    requires s.Hash?
  {
    l.canonical in s.hashes && exists i :: 0 <= i < |names| && lib.hash(Lower(names[i])) in s.hashes[l.canonical]
  }

  ghost predicate BloomPasses(lib: Lib, s: Store, l: RuleList, names: seq<string>)
    requires s.Bloom?
  {
    l.canonical in s.blooms && Tests(lib, l, s.blooms[l.canonical], names)
  }

  lemma HashJudges(lib: Lib, universe: set<RuleList>, s: Store, book: Book, query: seq<RuleList>, domain: string)
    requires Distinct(universe) && HashOk(lib, universe, s, book) && s.delegate.None? && Within(universe, query)
    ensures Find(lib, s, query, domain).match_ ==
            Judged(book, query, set l | l in universe && HashHit(lib, s, l, DomainNames(domain)))
  {
    var names := DomainNames(domain);
    var hits := set l | l in universe && HashHit(lib, s, l, names);
    forall l | l in book ensures FindIn(lib, s, l, domain).match_ == if l in hits then MatchOf(l.kind) else MatchNone {
      if l.canonical in s.hashes { HashLookupHits(lib, l, s.hashes[l.canonical], names); }
    }
    TwoPassJudges(universe, s.lists, book, query, (l: RuleList) => FindIn(lib, s, l, domain), hits);
  }

  /** The combination judges like the hash store restricted to the lists whose filter lets the domain pass. */
  lemma BloomOverHashJudges(lib: Lib, universe: set<RuleList>, s: Store, hash: Store, book: Book, query: seq<RuleList>, domain: string)
    requires Distinct(universe) && Within(universe, query)
    requires BloomOk(lib, universe, s, book) && s.backing == Some(hash) && HashOk(lib, universe, hash, book) && hash.delegate.None?
    ensures var names := DomainNames(domain);
            Find(lib, s, query, domain).match_ ==
            Judged(book, query, set l | l in universe && HashHit(lib, hash, l, names) && BloomPasses(lib, s, l, names))
  {
    var names := DomainNames(domain);
    var hits := set l | l in universe && HashHit(lib, hash, l, names) && BloomPasses(lib, s, l, names);
    forall l | l in book ensures FindIn(lib, s, l, domain).match_ == if l in hits then MatchOf(l.kind) else MatchNone {
      HashJudges(lib, universe, hash, book, [l], domain);
      JudgedAlone(book, l, set k | k in universe && HashHit(lib, hash, k, names));
    }
    TwoPassJudges(universe, s.lists, book, query, (l: RuleList) => FindIn(lib, s, l, domain), hits);
  }

  /** Exactly when a Bloom filter in front of the hash store is harmless for a domain: every loaded list
      that the hash store would match also passes its filter. */
  lemma BloomOverHashAgreesIff(lib: Lib, universe: set<RuleList>, filters: map<string, set<nat>>, ops: seq<Op>, domain: string)
    requires Distinct(universe) && Confined(universe, ops)
    ensures var hash, both := ApplyAll(lib, FreshHash(None), ops), ApplyAll(lib, BloomOver(filters, FreshHash(None)), ops);
            && hash.Hash? && both.Bloom?
            && ((forall query :: Within(universe, query) ==> Find(lib, both, query, domain).match_ == Find(lib, hash, query, domain).match_)
                <==> (forall l :: l in Written(ops) && HashHit(lib, hash, l, DomainNames(domain)) ==> BloomPasses(lib, both, l, DomainNames(domain))))
  {
    var hash, both, book := ApplyAll(lib, FreshHash(None), ops), ApplyAll(lib, BloomOver(filters, FreshHash(None)), ops), Written(ops);
    var names := DomainNames(domain);
    RunKeepsHash(lib, universe, None, ops);
    RunKeepsBloom(lib, universe, filters, FreshHash(None), ops);
    var hits := set l | l in universe && HashHit(lib, hash, l, names);
    var passed := set l | l in universe && HashHit(lib, hash, l, names) && BloomPasses(lib, both, l, names);
    forall query | Within(universe, query)
      ensures Find(lib, hash, query, domain).match_ == Judged(book, query, hits)
      ensures Find(lib, both, query, domain).match_ == Judged(book, query, passed)
    {
      HashJudges(lib, universe, hash, book, query, domain);
      BloomOverHashJudges(lib, universe, both, hash, book, query, domain);
    }
    JudgedAlikeIff(universe, book, hits, passed);
    assert (forall l :: l in book ==> (l in hits <==> l in passed)) <==>
           (forall l :: l in book && HashHit(lib, hash, l, names) ==> BloomPasses(lib, both, l, names));
  }

  /** Judging every query alike is the same as hitting the same loaded lists. */
  lemma JudgedAlikeIff(universe: set<RuleList>, book: Book, hits: set<RuleList>, hits': set<RuleList>)
    requires book.Keys <= universe
    ensures (forall query :: Within(universe, query) ==> Judged(book, query, hits) == Judged(book, query, hits')) <==>
            (forall l :: l in book ==> (l in hits <==> l in hits'))
  {
    if forall query :: Within(universe, query) ==> Judged(book, query, hits) == Judged(book, query, hits') {
      forall l | l in book ensures l in hits <==> l in hits' {
        assert Within(universe, [l]);
        JudgedAlone(book, l, hits);
        JudgedAlone(book, l, hits');
      }
    }
  }

  /** No name of the domain shares a hash with a loaded rule it does not equal up to case. */
  ghost predicate NoCollisions(lib: Lib, book: Book, names: seq<string>) {
    forall l, k, i :: l in book && 0 <= k < |book[l]| && 0 <= i < |names| ==>
      (lib.hash(Lower(book[l][k])) == lib.hash(Lower(names[i])) ==> Lower(book[l][k]) == Lower(names[i]))
  }

  ghost predicate LowerCase(book: Book) {
    forall l, k :: l in book && 0 <= k < |book[l]| ==> IsLower(book[l][k])
  }

  /** For lower-case rules and a lower-case domain without colliding hashes the filter is harmless. */
  lemma BloomOverHashIsHash(lib: Lib, universe: set<RuleList>, filters: map<string, set<nat>>, ops: seq<Op>,
                            query: seq<RuleList>, domain: string)
    requires Distinct(universe) && Confined(universe, ops) && Within(universe, query)
    requires LowerCase(Written(ops)) && IsLower(domain) && NoCollisions(lib, Written(ops), DomainNames(domain))
    ensures Find(lib, ApplyAll(lib, BloomOver(filters, FreshHash(None)), ops), query, domain).match_
         == Find(lib, ApplyAll(lib, FreshHash(None), ops), query, domain).match_
  {
    var hash, both, book := ApplyAll(lib, FreshHash(None), ops), ApplyAll(lib, BloomOver(filters, FreshHash(None)), ops), Written(ops);
    var names := DomainNames(domain);
    RunKeepsHash(lib, universe, None, ops);
    RunKeepsBloom(lib, universe, filters, FreshHash(None), ops);
    DomainNamesLower(domain);
    forall l | l in book && HashHit(lib, hash, l, names) ensures BloomPasses(lib, both, l, names) {
      var i :| 0 <= i < |names| && lib.hash(Lower(names[i])) in hash.hashes[l.canonical];
      assert lib.hash(Lower(names[i])) in At(hash.hashes, l.canonical, {});
      var k :| 0 <= k < |RulesOf(book, l)| && lib.hash(Lower(names[i])) == lib.hash(Lower(RulesOf(book, l)[k]));
      assert book[l][k] == names[i];
      assert BloomHas(lib, both, l, names[i]);
      TestsIff(lib, l, both.blooms[l.canonical], names);
    }
    BloomOverHashAgreesIff(lib, universe, filters, ops, domain);
  }

  /** With a mixed-case rule the filter can hide a list that the hash store alone would match. */
  lemma BloomHidesMixedCase(lib: Lib, l: RuleList, domain: string, rule: string)
    requires l.short != "" && domain in DomainNames(domain) && Lower(rule) == Lower(domain)
    requires forall i :: 0 <= i < |DomainNames(domain)| ==>
               !(lib.positions(l.canonical, DomainNames(domain)[i]) <= lib.positions(l.canonical, rule))
    ensures var ops := [Load(l, rule)];
            && Find(lib, ApplyAll(lib, FreshHash(None), ops), [l], domain).match_ == MatchOf(l.kind)
            && Find(lib, ApplyAll(lib, BloomOver(map[], FreshHash(None)), ops), [l], domain).match_ == MatchNone
  {
    var op, names := Load(l, rule), DomainNames(domain);
    var hash, both := Apply(lib, FreshHash(None), op), Apply(lib, BloomOver(map[], FreshHash(None)), op);
    OneOp(lib, FreshHash(None), op);
    OneOp(lib, BloomOver(map[], FreshHash(None)), op);
    var i :| 0 <= i < |names| && names[i] == domain;
    HashLookupHits(lib, l, hash.hashes[l.canonical], names);
    assert FindIn(lib, hash, l, domain).match_ == MatchOf(l.kind);
    assert forall j :: 0 <= j < |names| ==> !(lib.positions(l.canonical, names[j]) <= both.blooms[l.canonical]);
    TestsIff(lib, l, both.blooms[l.canonical], names);
    assert FindIn(lib, both, l, domain) == NONE;
    OneList(hash.lists, l, (k: RuleList) => FindIn(lib, hash, k, domain));
    OneList(both.lists, l, (k: RuleList) => FindIn(lib, both, k, domain));
  }

  lemma OneOp(lib: Lib, s: Store, op: Op)
    ensures ApplyAll(lib, s, [op]) == Apply(lib, s, op)
  {
    ApplySnoc(lib, s, [], op);
    assert [] + [op] == [op];
  }

  lemma OneList(lists: Lists, l: RuleList, action: RuleList -> Verdict)
    requires lists == map[l.kind := map[l.short := l]]
    requires action(l).match_ == MatchNone || action(l).match_ == MatchOf(l.kind)
    ensures TwoPass(lists, [l], action).match_ == action(l).match_
  {
    assert [l][1..] == [] && [l][0] == l;
    assert FirstMatch(lists, Allow, [], action) == NONE && FirstMatch(lists, Block, [], action) == NONE;
    assert Held(lists, l.kind, l.short) == Some(l);
    forall kind | kind != l.kind ensures FirstMatch(lists, kind, [l], action) == NONE {
      assert Held(lists, kind, l.short) == None;
    }
  }
}
