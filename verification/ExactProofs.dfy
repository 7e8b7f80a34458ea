/** The hash store and the SQL store against the specification: exact without colliding hashes, and
    exact on the loads that a left-over insert statement does not swallow. */
module ExactProofs {
  import opened Text
  import opened Domains
  import opened Rules
  import opened Stores
  import opened MemoryProofs
  import opened FilterProofs

  // ---- hash ----

  function LowerRule(v: Verdict): (r: Verdict) {
    v.(rule := Lower(v.rule))
  }

  lemma {:induction false} LowerRulePass(lists: Lists, kind: ListType, query: seq<RuleList>, action: RuleList -> Verdict, action': RuleList -> Verdict)
    requires forall l :: action'(l) == LowerRule(action(l))
    ensures FirstMatch(lists, kind, query, action') == LowerRule(FirstMatch(lists, kind, query, action))
    decreases |query|
  {
    if query != [] { LowerRulePass(lists, kind, query[1..], action, action'); }
  }

  lemma {:induction false} HashLookupIsLookup(lib: Lib, l: RuleList, hashes: set<nat>, rules: seq<string>, names: seq<string>)
    requires forall k :: 0 <= k < |rules| ==> lib.hash(Lower(rules[k])) in hashes
    requires forall h :: h in hashes ==> exists k :: 0 <= k < |rules| && h == lib.hash(Lower(rules[k]))
    requires forall k, i :: 0 <= k < |rules| && 0 <= i < |names| ==>
               (lib.hash(Lower(rules[k])) == lib.hash(Lower(names[i])) ==> Lower(rules[k]) == Lower(names[i]))
    ensures LowerRule(HashLookup(lib, l, hashes, names)) == Lookup(l, LowerAll(rules), LowerAll(names))
    decreases |names|
  {
    if names != [] {
      var name := names[0];
      assert lib.hash(Lower(name)) in hashes <==> Lower(name) in LowerAll(rules) by {
        if lib.hash(Lower(name)) in hashes {
          var k :| 0 <= k < |rules| && lib.hash(Lower(name)) == lib.hash(Lower(rules[k]));
          assert LowerAll(rules)[k] == Lower(name);
        }
        if Lower(name) in LowerAll(rules) {
          var k :| 0 <= k < |rules| && LowerAll(rules)[k] == Lower(name);
          assert lib.hash(Lower(rules[k])) in hashes;
        }
      }
      assert LowerAll(names)[1..] == LowerAll(names[1..]);
      assert forall i :: 0 <= i < |names[1..]| ==> names[1..][i] == names[i + 1];
      HashLookupIsLookup(lib, l, hashes, rules, names[1..]);
    }
  }

  /** Without colliding hashes the hash store meets the specification at every moment, for every domain
      in any letter case. */
  lemma HashMeetsSpec(lib: Lib, universe: set<RuleList>, ops: seq<Op>, query: seq<RuleList>, domain: string)
    requires Distinct(universe) && Confined(universe, ops) && Within(universe, query)
    requires NoCollisions(lib, Written(ops), DomainNames(domain))
    ensures MeetsSpec(LowerBook(Written(ops)), query, DomainNames(Lower(domain)),
                      LowerRule(Find(lib, ApplyAll(lib, FreshHash(None), ops), query, domain)))
  {
    RunKeepsHash(lib, universe, None, ops);
    HashTablesMeetSpec(lib, universe, ApplyAll(lib, FreshHash(None), ops), Written(ops), query, domain);
  }

  lemma HashTablesMeetSpec(lib: Lib, universe: set<RuleList>, s: Store, book: Book, query: seq<RuleList>, domain: string)
    requires Distinct(universe) && HashOk(lib, universe, s, book) && s.delegate == None && Within(universe, query)
    requires NoCollisions(lib, book, DomainNames(domain))
    ensures MeetsSpec(LowerBook(book), query, DomainNames(Lower(domain)), LowerRule(Find(lib, s, query, domain)))
  {
    var low := LowerBook(book);
    var action, action' := (l: RuleList) => FindIn(lib, s, l, domain), (l: RuleList) => LowerRule(FindIn(lib, s, l, domain));
    DomainNamesLower(domain);
    assert Registered(universe, s.lists, low) by { assert low.Keys == book.Keys; }
    forall l | l in low && l in query ensures action'(l) == Lookup(l, RulesOf(low, l), LowerAll(DomainNames(domain))) {
      HashTableIsLookup(lib, universe, s, book, l, domain);
    }
    PassMeetsSpec(universe, s.lists, low, query, LowerAll(DomainNames(domain)), action');
    LowerRulePass(s.lists, Allow, query, action, action');
    LowerRulePass(s.lists, Block, query, action, action');
    assert LowerRule(Find(lib, s, query, domain)) == TwoPass(s.lists, query, action');
  }

  lemma HashTableIsLookup(lib: Lib, universe: set<RuleList>, s: Store, book: Book, l: RuleList, domain: string)
    requires HashOk(lib, universe, s, book) && s.delegate.None? && l in book
    requires NoCollisions(lib, book, DomainNames(domain))
    ensures LowerRule(FindIn(lib, s, l, domain)) == Lookup(l, LowerAll(book[l]), LowerAll(DomainNames(domain)))
  {
    var names := DomainNames(domain);
    if book[l] == [] && l.canonical !in s.hashes {
      assert LowerAll(book[l]) == [];
      LookupIsFirstName(l, [], LowerAll(names));
    } else {
      assert l.canonical in s.hashes by { if book[l] != [] { assert HashHas(lib, s, l, book[l][0]); } }
      var hashes := s.hashes[l.canonical];
      forall k | 0 <= k < |book[l]| ensures lib.hash(Lower(book[l][k])) in hashes {
        assert HashHas(lib, s, l, book[l][k]);
      }
      forall h | h in hashes ensures exists k :: 0 <= k < |book[l]| && h == lib.hash(Lower(book[l][k])) {
        assert h in At(s.hashes, l.canonical, {});
      }
      HashLookupIsLookup(lib, l, hashes, book[l], names);
    }
  }

  // ---- SQL ----

  /** An insert statement is prepared, bound to the open transaction. */
  predicate Inserting(ops: seq<Op>) {
    ops != [] &&
    match ops[|ops| - 1]
    case Load(_, _) => !Swallowing(ops[..|ops| - 1])
    case Clear(_) => false
    case Finalize(_) => false
  }

  /** A list was cleared between a load and the next Finalize: the insert statement still refers to the
      finished transaction, and every load fails until Finalize drops the statement. */
  predicate Swallowing(ops: seq<Op>) {
    ops != [] &&
    match ops[|ops| - 1]
    case Load(_, _) => Swallowing(ops[..|ops| - 1])
    case Clear(_) => Inserting(ops[..|ops| - 1]) || Swallowing(ops[..|ops| - 1])
    case Finalize(_) => false
  }

  /** The operations that count: loads that are swallowed do not. */
  function Effective(ops: seq<Op>): (r: seq<Op>) {
    if ops == [] then []
    else
      var init, last := ops[..|ops| - 1], ops[|ops| - 1];
      if last.Load? && Swallowing(init) then Effective(init) else Effective(init) + [last]
  }

  function AllRows(s: Store): (r: set<Row>)
    requires s.Sql?
  {
    if s.tx then s.committed + s.pending else s.committed
  }

  ghost predicate Exactly(rows: set<Row>, book: Book) {
    forall row :: row in rows <==> Loaded(book, row)
  }

  lemma StepKeepsRows(universe: set<RuleList>, s: Store, book: Book, op: Op)
    requires Distinct(universe) && s.Sql? && book.Keys <= universe && ConfinedOp(universe, op)
    requires Exactly(AllRows(s), book) && !(op.Load? && s.stmt == Stale)
    ensures Exactly(AllRows(SqlApply(s, op)), Recorded(book, op))
  {
    var s', book' := SqlApply(s, op), Recorded(book, op);
    forall row ensures row in AllRows(s') <==> Loaded(book', row) {
      assert row in AllRows(s) <==> Loaded(book, row);
      match op
      case Load(l, rule) => LoadedAfterLoad(universe, book, l, rule, row);
      case Clear(l) => LoadedAfterClear(universe, book, l, row);
      case Finalize(_) =>
    }
  }

  lemma LoadedAfterLoad(universe: set<RuleList>, book: Book, l: RuleList, rule: string, row: Row)
    requires Distinct(universe) && book.Keys <= universe && l in universe
    ensures Loaded(Recorded(book, Load(l, rule)), row) <==> row == (l.short, rule) || Loaded(book, row)
  {
    var book' := Recorded(book, Load(l, rule));
    if Loaded(book, row) {
      var k :| k in book && k.short == row.0 && row.1 in book[k];
      assert k in book' && row.1 in book'[k];
    }
    if row == (l.short, rule) {
      assert l in book' && rule in book'[l];
    }
    if Loaded(book', row) {
      var k :| k in book' && k.short == row.0 && row.1 in book'[k];
      if k == l && row.1 != rule { assert row.1 in RulesOf(book, l); }
    }
  }

  lemma LoadedAfterClear(universe: set<RuleList>, book: Book, l: RuleList, row: Row)
    requires Distinct(universe) && book.Keys <= universe && l in universe
    ensures Loaded(Recorded(book, Clear(l)), row) <==> row.0 != l.short && Loaded(book, row)
  {
    var book' := book - {l};
    if Loaded(book, row) && row.0 != l.short {
      var k :| k in book && k.short == row.0 && row.1 in book[k];
      assert k in book' && row.1 in book'[k];
    }
    if Loaded(book', row) {
      var k :| k in book' && k.short == row.0 && row.1 in book'[k];
      assert k in universe && k != l;
    }
  }

  lemma {:induction false} WrittenWithin(universe: set<RuleList>, ops: seq<Op>)
    requires Confined(universe, ops)
    ensures Written(ops).Keys <= universe
    decreases |ops|
  {
    if ops != [] {
      ConfinedInit(universe, ops);
      WrittenWithin(universe, ops[..|ops| - 1]);
    }
  }

  lemma {:induction false} EffectiveConfined(universe: set<RuleList>, ops: seq<Op>)
    requires Confined(universe, ops)
    ensures Confined(universe, Effective(ops))
    decreases |ops|
  {
    if ops != [] {
      ConfinedInit(universe, ops);
      EffectiveConfined(universe, ops[..|ops| - 1]);
    }
  }

  /** The state of statement and transaction is determined by the last few operations. */
  lemma {:induction false} RunKeepsStatement(lib: Lib, table: map<string, ListType>, ops: seq<Op>)
    ensures var s := ApplyAll(lib, FreshSql(table), ops);
            && s.Sql? && (s.stmt == Stale <==> Swallowing(ops))
            && (s.stmt == Live <==> Inserting(ops)) && (s.tx <==> Inserting(ops))
    decreases |ops|
  {
    if ops != [] {
      RunKeepsStatement(lib, table, ops[..|ops| - 1]);
    }
  }

  lemma {:induction false} RunKeepsRows(lib: Lib, universe: set<RuleList>, table: map<string, ListType>, ops: seq<Op>)
    requires Distinct(universe) && Confined(universe, ops)
    ensures var s := ApplyAll(lib, FreshSql(table), ops);
            s.Sql? && Exactly(AllRows(s), Written(Effective(ops)))
    decreases |ops|
  {
    if ops == [] {
      forall row ensures !Loaded(map[], row) {}
    } else {
      ConfinedInit(universe, ops);
      var init, last := ops[..|ops| - 1], ops[|ops| - 1];
      RunKeepsStatement(lib, table, init);
      RunKeepsRows(lib, universe, table, init);
      var s := ApplyAll(lib, FreshSql(table), init);
      if last.Load? && Swallowing(init) {
        assert AllRows(SqlApply(s, last)) == AllRows(s);
      } else {
        EffectiveConfined(universe, init);
        WrittenWithin(universe, Effective(init));
        StepKeepsRows(universe, s, Written(Effective(init)), last);
        WrittenSnoc(Effective(init), last);
      }
    }
  }

  lemma WrittenSnoc(ops: seq<Op>, op: Op)
    ensures Written(ops + [op]) == Recorded(Written(ops), op)
  {
    assert (ops + [op])[..|ops|] == ops;
  }

  lemma JudgedIsSpec(universe: set<RuleList>, s: Store, book: Book, held: Book, query: seq<RuleList>, names: seq<string>)
    requires Distinct(universe) && Within(universe, query) && s.Sql? && Exactly(s.committed, held) && held.Keys <= universe
    requires forall l :: l in held && held[l] != [] ==> l in book
    ensures Judged(book, query, SqlHits(universe, s, names)) == SpecMatch(held, query, names)
  {
    forall l | l in universe ensures (l in book && l in SqlHits(universe, s, names)) <==> Hits(RulesOf(held, l), names) {
      if l in SqlHits(universe, s, names) {
        var i :| 0 <= i < |names| && (l.short, names[i]) in s.committed;
        assert Loaded(held, (l.short, names[i]));
        assert names[i] in RulesOf(held, l);
      }
      if Hits(RulesOf(held, l), names) {
        var i :| 0 <= i < |names| && names[i] in RulesOf(held, l);
        assert Loaded(held, (l.short, names[i]));
        assert SqlHit(s, l, names);
      }
    }
    forall kind ensures AnyHit(book, kind, query, SqlHits(universe, s, names)) <==> SomeListHits(held, kind, query, names) {
      if SomeListHits(held, kind, query, names) {
        var i :| 0 <= i < |query| && query[i].kind == kind && Hits(RulesOf(held, query[i]), names);
        assert query[i] in universe;
      }
    }
  }

  lemma {:induction false} EffectiveLoadsAreWritten(ops: seq<Op>, l: RuleList)
    requires l in Written(Effective(ops))
    ensures l in Written(ops)
    decreases |ops|
  {
    if ops != [] {
      var init, last := ops[..|ops| - 1], ops[|ops| - 1];
      if !(last.Load? && Swallowing(init)) { WrittenSnoc(Effective(init), last); }
      if l in Written(Effective(init)) { EffectiveLoadsAreWritten(init, l); }
    }
  }

  /** What a reader sees: the loads of an insert that is still under way are not committed. */
  function Visible(ops: seq<Op>): (r: seq<Op>) {
    if Inserting(ops) then Visible(ops[..|ops| - 1]) else Effective(ops)
  }

  lemma {:induction false} VisibleIsCommitted(lib: Lib, universe: set<RuleList>, table: map<string, ListType>, ops: seq<Op>)
    requires Distinct(universe) && Confined(universe, ops)
    ensures var s := ApplyAll(lib, FreshSql(table), ops);
            s.Sql? && Exactly(s.committed, Written(Visible(ops))) && Written(Visible(ops)).Keys <= universe
    decreases |ops|
  {
    RunKeepsStatement(lib, table, ops);
    if Inserting(ops) {
      var init := ops[..|ops| - 1];
      ConfinedInit(universe, ops);
      RunKeepsStatement(lib, table, init);
      VisibleIsCommitted(lib, universe, table, init);
      assert ApplyAll(lib, FreshSql(table), ops).committed == ApplyAll(lib, FreshSql(table), init).committed;
    } else {
      RunKeepsRows(lib, universe, table, ops);
      EffectiveConfined(universe, ops);
      WrittenWithin(universe, Effective(ops));
    }
  }

  lemma {:induction false} VisibleLoadsAreWritten(ops: seq<Op>, l: RuleList)
    requires l in Written(Visible(ops))
    ensures l in Written(ops)
    decreases |ops|
  {
    if Inserting(ops) {
      VisibleLoadsAreWritten(ops[..|ops| - 1], l);
    } else {
      EffectiveLoadsAreWritten(ops, l);
    }
  }

  /** At every point of every run, the SQL store's verdict kind is that of the specification on exactly the
      loads that were neither swallowed nor are still waiting to be committed. */
  lemma SqlMeetsSpecOnCommittedLoads(lib: Lib, universe: set<RuleList>, table: map<string, ListType>, ops: seq<Op>,
                                     query: seq<RuleList>, domain: string)
    requires Distinct(universe) && TableOf(universe, table) && Confined(universe, ops) && Within(universe, query)
    ensures Find(lib, ApplyAll(lib, FreshSql(table), ops), query, domain).match_ ==
            SpecMatch(Written(Visible(ops)), query, DomainNames(domain))
  {
    var s, held := ApplyAll(lib, FreshSql(table), ops), Written(Visible(ops));
    RunKeepsSql(lib, universe, table, ops);
    VisibleIsCommitted(lib, universe, table, ops);
    SqlJudges(lib, universe, s, Written(ops), query, DomainNames(domain));
    forall l | l in held ensures l in Written(ops) { VisibleLoadsAreWritten(ops, l); }
    JudgedIsSpec(universe, s, Written(ops), held, query, DomainNames(domain));
  }

  /** No load happens between a Clear that interrupts a load and the next Finalize. */
  predicate Orderly(ops: seq<Op>) {
    ops == [] || (Orderly(ops[..|ops| - 1]) && !(ops[|ops| - 1].Load? && Swallowing(ops[..|ops| - 1])))
  }

  lemma {:induction false} OrderlyIsEffective(ops: seq<Op>)
    ensures Effective(ops) == ops <==> Orderly(ops)
    ensures |Effective(ops)| <= |ops|
    decreases |ops|
  {
    if ops != [] {
      OrderlyIsEffective(ops[..|ops| - 1]);
      assert ops == ops[..|ops| - 1] + [ops[|ops| - 1]];
    }
  }

  /** On the rows of the database: a rule just loaded is there exactly when its load was not swallowed, or
      it was there already. */
  lemma LoadIsKeptIff(lib: Lib, table: map<string, ListType>, ops: seq<Op>, l: RuleList, rule: string)
    ensures var before, after := ApplyAll(lib, FreshSql(table), ops), ApplyAll(lib, FreshSql(table), ops + [Load(l, rule)]);
            && before.Sql? && after.Sql?
            && ((l.short, rule) in AllRows(after) <==> !Swallowing(ops) || (l.short, rule) in AllRows(before))
            && (forall row :: row != (l.short, rule) ==> (row in AllRows(after) <==> row in AllRows(before)))
  {
    ApplySnoc(lib, FreshSql(table), ops, Load(l, rule));
    RunKeepsStatement(lib, table, ops);
  }

  /** In orderly runs, such as the store's own initial load and reloads, the SQL store meets the
      specification after Finalize. */
  lemma SqlMeetsSpec(lib: Lib, universe: set<RuleList>, table: map<string, ListType>, ops: seq<Op>,
                     query: seq<RuleList>, domain: string)
    requires Distinct(universe) && TableOf(universe, table) && Confined(universe, ops) && Within(universe, query)
    requires Orderly(ops) && !Inserting(ops)
    ensures Find(lib, ApplyAll(lib, FreshSql(table), ops), query, domain).match_ == SpecMatch(Written(ops), query, DomainNames(domain))
  {
    OrderlyIsEffective(ops);
    SqlMeetsSpecOnCommittedLoads(lib, universe, table, ops, query, domain);
  }

  /** A reload that interrupts the initial load loses rules: the second rule is loaded, finalized and
      never found. */
  lemma InterruptedLoadLosesRules(lib: Lib, table: map<string, ListType>, a: RuleList, b: RuleList, r1: string, r2: string)
    requires r1 != r2 && a.short != b.short
    ensures var ops := [Load(a, r1), Clear(b), Load(a, r2), Finalize([a, b])];
            var s := ApplyAll(lib, FreshSql(table), ops);
            s.Sql? && !Inserting(ops) && (a.short, r1) in s.committed && (a.short, r2) !in s.committed
  {
    var o1, o2, o3, o4 := Load(a, r1), Clear(b), Load(a, r2), Finalize([a, b]);
    var s := FreshSql(table);
    assert [] + [o1] == [o1] && [o1] + [o2] == [o1, o2] && [o1, o2] + [o3] == [o1, o2, o3] && [o1, o2, o3] + [o4] == [o1, o2, o3, o4];
    ApplySnoc(lib, s, [], o1);
    ApplySnoc(lib, s, [o1], o2);
    ApplySnoc(lib, s, [o1, o2], o3);
    ApplySnoc(lib, s, [o1, o2, o3], o4);
    var s2 := SqlClear(SqlLoad(s, a, r1), b);
    assert (a.short, r1) in s2.committed && s2.stmt == Stale;
    assert ApplyAll(lib, s, [o1, o2, o3, o4]) == SqlFinalize(SqlLoad(s2, a, r2));
  }
}
