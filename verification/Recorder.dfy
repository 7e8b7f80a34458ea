/** The recorder's database: queries are buffered row by row and flushed into the query log and the
    count tables (engine/recorder.go, engine/metrics_details.go). */
module Recorder {
  import opened Tally

  datatype Row = Row(address: string, clientName: string, domain: string, qtype: string,
                     listShort: string, rule: string, created: nat)

  datatype Db = Db(buffer: seq<Row>, qlog: seq<Row>, clients: map<string, nat>, domains: map<string, nat>,
                   types: map<string, nat>, lists: map<string, nat>, rules: map<(string, string), nat>,
                   names: map<string, string>)

  const EMPTY := Db([], [], map[], map[], map[], map[], map[], map[])

  // ---- the statements of metrics.flush ----

  function Addresses(rows: seq<Row>): (r: seq<string>)
    ensures |r| == |rows|
  {
    if rows == [] then [] else Addresses(rows[..|rows| - 1]) + [rows[|rows| - 1].address]
  }

  function Domains(rows: seq<Row>): (r: seq<string>)
    ensures |r| == |rows|
  {
    if rows == [] then [] else Domains(rows[..|rows| - 1]) + [rows[|rows| - 1].domain]
  }

  function Types(rows: seq<Row>): (r: seq<string>)
    ensures |r| == |rows|
  {
    if rows == [] then [] else Types(rows[..|rows| - 1]) + [rows[|rows| - 1].qtype]
  }

  /** Rows with a matched list. */
  function MatchedLists(rows: seq<Row>): (r: seq<string>) {
    if rows == [] then []
    else
      var last := rows[|rows| - 1];
      MatchedLists(rows[..|rows| - 1]) + if last.listShort != "" then [last.listShort] else []
  }

  /** Rows with a matched rule, joined with the list table. */
  function MatchedRules(rows: seq<Row>, lists: map<string, nat>): (r: seq<(string, string)>) {
    if rows == [] then []
    else
      var last := rows[|rows| - 1];
      MatchedRules(rows[..|rows| - 1], lists) + if last.rule != "" && last.listShort in lists then [(last.listShort, last.rule)] else []
  }

  /** New clients get their first name. */
  function InsertNames(names: map<string, string>, rows: seq<Row>): (r: map<string, string>) {
    if rows == [] then names
    else
      var before, last := InsertNames(names, rows[..|rows| - 1]), rows[|rows| - 1];
      if last.clientName != "" && last.address !in before then before[last.address := last.clientName] else before
  }

  /** The longest of the stored name and the buffered names of a client. */
  function Longest(stored: string, rows: seq<Row>, address: string): (r: string) {
    if rows == [] then stored
    else
      var before, last := Longest(stored, rows[..|rows| - 1], address), rows[|rows| - 1];
      if last.address == address && |last.clientName| > |before| then last.clientName else before
  }

  function UpdateNames(names: map<string, string>, rows: seq<Row>): (r: map<string, string>) {
    map a | a in names :: Longest(names[a], rows, a)
  }

  function Flushed(db: Db): (r: Db) {
    var lists := BumpAll(db.lists, MatchedLists(db.buffer));
    Db([], db.qlog + db.buffer,
       BumpAll(db.clients, Addresses(db.buffer)), BumpAll(db.domains, Domains(db.buffer)), BumpAll(db.types, Types(db.buffer)),
       lists, BumpAll(db.rules, MatchedRules(db.buffer, lists)),
       UpdateNames(InsertNames(db.names, db.buffer), db.buffer))
  }

  /** DELETE ... WHERE Created <= cutoff leaves these. */
  function Kept(rows: seq<Row>, cutoff: nat): (r: seq<Row>) {
    if rows == [] then []
    else Kept(rows[..|rows| - 1], cutoff) + if rows[|rows| - 1].created > cutoff then [rows[|rows| - 1]] else []
  }

  /** INSERT ... ON CONFLICT DO NOTHING, row by row. */
  method NameNewClients(names: map<string, string>, rows: seq<Row>) returns (r: map<string, string>)
    ensures r == InsertNames(names, rows)
  {
    r := names;
    var i := 0;
    while i < |rows|
      invariant 0 <= i <= |rows|
      invariant r == InsertNames(names, rows[..i])
    {
      assert rows[..i + 1][..i] == rows[..i];
      if rows[i].clientName != "" && rows[i].address !in r {
        r := r[rows[i].address := rows[i].clientName];
      }
      i := i + 1;
    }
    assert rows[..i] == rows;
  }

  // ---- the recorder ----

  class Recorder {
    var buffer: seq<Row>
    var qlog: seq<Row>
    var clients: map<string, nat>
    var domains: map<string, nat>
    var types: map<string, nat>
    var lists: map<string, nat>
    var rules: map<(string, string), nat>
    var names: map<string, string>

    constructor ()
      ensures Contents() == EMPTY
    {
      buffer, qlog, clients, domains, types, lists, rules, names := [], [], map[], map[], map[], map[], map[], map[];
    }

    ghost function Contents(): (r: Db)
      reads this
    {
      Db(buffer, qlog, clients, domains, types, lists, rules, names)
    }

    method Buffer(row: Row)
      modifies this`buffer
      ensures Contents() == old(Contents()).(buffer := old(buffer) + [row])
    {
      buffer := buffer + [row];
    }

    /** One transaction: query log, the seven statements, then the buffer is emptied. */
    method Flush()
      modifies this
      ensures Contents() == Flushed(old(Contents()))
    {
      qlog := qlog + buffer;
      lists := Upsert(lists, MatchedLists(buffer));
      rules := Upsert(rules, MatchedRules(buffer, lists));
      clients := Upsert(clients, Addresses(buffer));
      domains := Upsert(domains, Domains(buffer));
      types := Upsert(types, Types(buffer));
      names := NameNewClients(names, buffer);
      names := UpdateNames(names, buffer);
      buffer := [];
    }

    method Prune(cutoff: nat)
      modifies this`qlog
      ensures Contents() == old(Contents()).(qlog := Kept(old(qlog), cutoff))
    {
      qlog := Kept(qlog, cutoff);
    }
  }

  // ---- every run ----

  datatype Op = DoBuffer(row: Row) | DoFlush | DoPrune(cutoff: nat)

  function Apply(db: Db, op: Op): (r: Db) {
    match op
    case DoBuffer(row) => db.(buffer := db.buffer + [row])
    case DoFlush => Flushed(db)
    case DoPrune(cutoff) => db.(qlog := Kept(db.qlog, cutoff))
  }

  function After(ops: seq<Op>): (r: Db) {
    if ops == [] then EMPTY else Apply(After(ops[..|ops| - 1]), ops[|ops| - 1])
  }

  /** Every row ever buffered, in order. */
  function History(ops: seq<Op>): (r: seq<Row>) {
    if ops == [] then []
    else History(ops[..|ops| - 1]) + if ops[|ops| - 1].DoBuffer? then [ops[|ops| - 1].row] else []
  }

  /** Every row ever flushed. */
  function FlushedRows(ops: seq<Op>): (r: seq<Row>) {
    if ops == [] then []
    else if ops[|ops| - 1].DoFlush? then History(ops) else FlushedRows(ops[..|ops| - 1])
  }

  lemma {:induction false} HistorySplits(ops: seq<Op>)
    ensures History(ops) == FlushedRows(ops) + After(ops).buffer
    decreases |ops|
  {
    if ops != [] {
      HistorySplits(ops[..|ops| - 1]);
    }
  }

  lemma {:induction false} ColumnsConcat(a: seq<Row>, b: seq<Row>)
    ensures Addresses(a + b) == Addresses(a) + Addresses(b)
    ensures Domains(a + b) == Domains(a) + Domains(b)
    ensures Types(a + b) == Types(a) + Types(b)
    decreases |b|
  {
    if b == [] {
      assert a + b == a;
    } else {
      assert (a + b)[..|a + b| - 1] == a + b[..|b| - 1];
      ColumnsConcat(a, b[..|b| - 1]);
    }
  }

  lemma {:induction false} MatchedListsConcat(a: seq<Row>, b: seq<Row>)
    ensures MatchedLists(a + b) == MatchedLists(a) + MatchedLists(b)
    decreases |b|
  {
    if b == [] {
      assert a + b == a;
    } else {
      assert (a + b)[..|a + b| - 1] == a + b[..|b| - 1];
      MatchedListsConcat(a, b[..|b| - 1]);
    }
  }

  lemma {:induction false} BumpAllConcat<K>(t: map<K, nat>, a: seq<K>, b: seq<K>)
    ensures BumpAll(t, a + b) == BumpAll(BumpAll(t, a), b)
    decreases |b|
  {
    if b == [] {
      assert a + b == a;
    } else {
      assert (a + b)[..|a + b| - 1] == a + b[..|b| - 1];
      BumpAllConcat(t, a, b[..|b| - 1]);
    }
  }

  /** The tables are what one upsert per flushed row makes of empty tables. */
  lemma {:induction false} TablesCountFlushedRows(ops: seq<Op>)
    ensures var db, rows := After(ops), FlushedRows(ops);
            && db.clients == BumpAll(map[], Addresses(rows)) && db.domains == BumpAll(map[], Domains(rows))
            && db.types == BumpAll(map[], Types(rows)) && db.lists == BumpAll(map[], MatchedLists(rows))
    decreases |ops|
  {
    if ops != [] {
      var init := ops[..|ops| - 1];
      TablesCountFlushedRows(init);
      if ops[|ops| - 1].DoFlush? {
        var rows, buffer := FlushedRows(init), After(init).buffer;
        HistorySplits(init);
        assert History(ops) == History(init);
        ColumnsConcat(rows, buffer);
        MatchedListsConcat(rows, buffer);
        BumpAllConcat(map[], Addresses(rows), Addresses(buffer));
        BumpAllConcat(map[], Domains(rows), Domains(buffer));
        BumpAllConcat(map[], Types(rows), Types(buffer));
        BumpAllConcat(map[], MatchedLists(rows), MatchedLists(buffer));
      }
    }
  }

  // ---- counts ----

  function Count(p: Row -> bool, rows: seq<Row>): (r: nat) {
    if rows == [] then 0 else Count(p, rows[..|rows| - 1]) + if p(rows[|rows| - 1]) then 1 else 0
  }

  lemma {:induction false} CountConcat(p: Row -> bool, a: seq<Row>, b: seq<Row>)
    ensures Count(p, a + b) == Count(p, a) + Count(p, b)
    decreases |b|
  {
    if b == [] {
      assert a + b == a;
    } else {
      assert (a + b)[..|a + b| - 1] == a + b[..|b| - 1];
      CountConcat(p, a, b[..|b| - 1]);
    }
  }

  function OfClient(key: string): (r: Row -> bool) {
    (row: Row) => row.address == key
  }

  function OfDomain(key: string): (r: Row -> bool) {
    (row: Row) => row.domain == key
  }

  function OfType(key: string): (r: Row -> bool) {
    (row: Row) => row.qtype == key
  }

  function ByList(short: string): (r: Row -> bool) {
    (row: Row) => row.listShort == short
  }

  function ByRule(short: string, rule: string): (r: Row -> bool) {
    (row: Row) => row.listShort == short && row.rule == rule
  }

  lemma {:induction false} AddressCounts(rows: seq<Row>, key: string)
    ensures multiset(Addresses(rows))[key] == Count(OfClient(key), rows)
    decreases |rows|
  {
    if rows != [] { AddressCounts(rows[..|rows| - 1], key); }
  }

  lemma {:induction false} DomainCounts(rows: seq<Row>, key: string)
    ensures multiset(Domains(rows))[key] == Count(OfDomain(key), rows)
    decreases |rows|
  {
    if rows != [] { DomainCounts(rows[..|rows| - 1], key); }
  }

  lemma {:induction false} TypeCounts(rows: seq<Row>, key: string)
    ensures multiset(Types(rows))[key] == Count(OfType(key), rows)
    decreases |rows|
  {
    if rows != [] { TypeCounts(rows[..|rows| - 1], key); }
  }

  lemma {:induction false} ListCounts(rows: seq<Row>, key: string)
    ensures multiset(MatchedLists(rows))[key] == if key != "" then Count(ByList(key), rows) else 0
    decreases |rows|
  {
    if rows != [] { ListCounts(rows[..|rows| - 1], key); }
  }

  lemma {:induction false} RuleCounts(rows: seq<Row>, lists: map<string, nat>, short: string, rule: string)
    requires "" !in lists && AllListed(rows, lists)
    ensures multiset(MatchedRules(rows, lists))[(short, rule)] == if short != "" && rule != "" then Count(ByRule(short, rule), rows) else 0
    decreases |rows|
  {
    if rows != [] {
      assert rows[|rows| - 1].listShort == "" || rows[|rows| - 1].listShort in lists;
      RuleCounts(rows[..|rows| - 1], lists, short, rule);
    }
  }

  /** The matched lists of the rows are in the list table. */
  ghost predicate AllListed(rows: seq<Row>, lists: map<string, nat>) {
    forall i :: 0 <= i < |rows| ==> rows[i].listShort == "" || rows[i].listShort in lists
  }

  lemma BumpMatchedLists(t: map<string, nat>, rows: seq<Row>, last: Row)
    ensures BumpAll(t, MatchedLists(rows + [last])) ==
            if last.listShort != "" then Bump(BumpAll(t, MatchedLists(rows)), last.listShort) else BumpAll(t, MatchedLists(rows))
  {
    var keys := MatchedLists(rows);
    assert (rows + [last])[..|rows|] == rows;
    if last.listShort != "" {
      assert (keys + [last.listShort])[..|keys|] == keys;
    } else {
      assert keys + [] == keys;
    }
  }

  /** After a flush they are there, and the empty name is not. */
  lemma {:induction false} MatchedListsAreThere(t: map<string, nat>, rows: seq<Row>)
    requires "" !in t
    ensures var lists := BumpAll(t, MatchedLists(rows)); "" !in lists && AllListed(rows, lists)
    decreases |rows|
  {
    if rows != [] {
      var init, last := rows[..|rows| - 1], rows[|rows| - 1];
      MatchedListsAreThere(t, init);
      assert rows == init + [last];
      BumpMatchedLists(t, init, last);
    }
  }

  lemma {:induction false} RulesCountFlushedRows(ops: seq<Op>, short: string, rule: string)
    ensures "" !in After(ops).lists
    ensures Value(After(ops).rules, (short, rule)) == if short != "" && rule != "" then Count(ByRule(short, rule), FlushedRows(ops)) else 0
    decreases |ops|
  {
    if ops != [] {
      var init := ops[..|ops| - 1];
      RulesCountFlushedRows(init, short, rule);
      if ops[|ops| - 1].DoFlush? {
        var db := After(init);
        var lists := BumpAll(db.lists, MatchedLists(db.buffer));
        MatchedListsAreThere(db.lists, db.buffer);
        RuleCounts(db.buffer, lists, short, rule);
        BumpAllCounts(db.rules, MatchedRules(db.buffer, lists), (short, rule));
        HistorySplits(init);
        assert History(ops) == History(init);
        CountConcat(ByRule(short, rule), FlushedRows(init), db.buffer);
      }
    }
  }

  /** What is persisted plus what is still buffered is what was ever buffered. */
  predicate Conserved(persisted: nat, p: Row -> bool, db: Db, ops: seq<Op>) {
    persisted + Count(p, db.buffer) == Count(p, History(ops))
  }

  lemma FlushedIsConserved(p: Row -> bool, ops: seq<Op>)
    ensures Conserved(Count(p, FlushedRows(ops)), p, After(ops), ops)
  {
    HistorySplits(ops);
    CountConcat(p, FlushedRows(ops), After(ops).buffer);
  }

  lemma ColumnIsConserved(ops: seq<Op>, key: string)
    ensures var db := After(ops);
            && Conserved(Value(db.clients, key), OfClient(key), db, ops)
            && Conserved(Value(db.domains, key), OfDomain(key), db, ops)
            && Conserved(Value(db.types, key), OfType(key), db, ops)
            && (if key == "" then Value(db.lists, key) == 0 else Conserved(Value(db.lists, key), ByList(key), db, ops))
  {
    var rows := FlushedRows(ops);
    TablesCountFlushedRows(ops);
    AddressCounts(rows, key);
    DomainCounts(rows, key);
    TypeCounts(rows, key);
    ListCounts(rows, key);
    BumpAllCounts(map[], Addresses(rows), key);
    BumpAllCounts(map[], Domains(rows), key);
    BumpAllCounts(map[], Types(rows), key);
    BumpAllCounts(map[], MatchedLists(rows), key);
    FlushedIsConserved(OfClient(key), ops);
    FlushedIsConserved(OfDomain(key), ops);
    FlushedIsConserved(OfType(key), ops);
    FlushedIsConserved(ByList(key), ops);
  }

  /** Conservation: for every address, domain, query type and list, what is persisted plus what is still
      buffered is what was ever buffered; so it is for every rule of every list; no row without a list or
      without a rule is counted as one; and the first three tables have the same total. */
  lemma CountsAreConserved(ops: seq<Op>, key: string, rule: string)
    ensures var db := After(ops);
            && Conserved(Value(db.clients, key), OfClient(key), db, ops)
            && Conserved(Value(db.domains, key), OfDomain(key), db, ops)
            && Conserved(Value(db.types, key), OfType(key), db, ops)
            && (if key == "" then Value(db.lists, key) == 0 else Conserved(Value(db.lists, key), ByList(key), db, ops))
            && (if key == "" || rule == "" then Value(db.rules, (key, rule)) == 0
                else Conserved(Value(db.rules, (key, rule)), ByRule(key, rule), db, ops))
            && Total(db.clients) == Total(db.domains) == Total(db.types) == |History(ops)| - |db.buffer|
  {
    var db, rows := After(ops), FlushedRows(ops);
    ColumnIsConserved(ops, key);
    RulesCountFlushedRows(ops, key, rule);
    FlushedIsConserved(ByRule(key, rule), ops);
    TablesCountFlushedRows(ops);
    HistorySplits(ops);
    BumpAllTotal(map[], Addresses(rows));
    BumpAllTotal(map[], Domains(rows));
    BumpAllTotal(map[], Types(rows));
  }

  /** Pruning forgets nothing that is newer than every cutoff so far. */
  function Horizon(ops: seq<Op>): (r: nat) {
    if ops == [] then 0
    else
      var before := Horizon(ops[..|ops| - 1]);
      if ops[|ops| - 1].DoPrune? && ops[|ops| - 1].cutoff > before then ops[|ops| - 1].cutoff else before
  }

  lemma KeptSnoc(rows: seq<Row>, row: Row, cutoff: nat)
    ensures row.created > cutoff ==> Kept(rows + [row], cutoff) == Kept(rows, cutoff) + [row]
    ensures row.created <= cutoff ==> Kept(rows + [row], cutoff) == Kept(rows, cutoff)
  {
    assert (rows + [row])[..|rows|] == rows;
  }

  /** Pruning removes exactly the rows up to the cutoff, however often they occur. */
  lemma {:induction false} KeptCounts(rows: seq<Row>, cutoff: nat, row: Row)
    ensures multiset(Kept(rows, cutoff))[row] == if row.created > cutoff then multiset(rows)[row] else 0
    decreases |rows|
  {
    if rows != [] {
      var init, last := rows[..|rows| - 1], rows[|rows| - 1];
      assert rows == init + [last];
      KeptCounts(init, cutoff, row);
      KeptSnoc(init, last, cutoff);
    }
  }

  lemma {:induction false} KeptConcat(a: seq<Row>, b: seq<Row>, cutoff: nat)
    ensures Kept(a + b, cutoff) == Kept(a, cutoff) + Kept(b, cutoff)
    decreases |b|
  {
    if b == [] {
      assert a + b == a;
    } else {
      var init, last := b[..|b| - 1], b[|b| - 1];
      assert a + b == (a + init) + [last] && b == init + [last];
      KeptConcat(a, init, cutoff);
      KeptSnoc(a + init, last, cutoff);
      KeptSnoc(init, last, cutoff);
    }
  }

  lemma {:induction false} KeptTwice(rows: seq<Row>, first: nat, second: nat)
    ensures Kept(Kept(rows, first), second) == Kept(rows, if first > second then first else second)
    decreases |rows|
  {
    if rows != [] {
      var init, last := rows[..|rows| - 1], rows[|rows| - 1];
      assert rows == init + [last];
      KeptTwice(init, first, second);
      KeptSnoc(init, last, first);
      KeptSnoc(Kept(init, first), last, second);
      KeptSnoc(init, last, if first > second then first else second);
    }
  }

  /** Above every cutoff so far, the query log is exactly the flushed rows, in order. */
  lemma {:induction false} QueryLogKeepsRecentRows(ops: seq<Op>)
    ensures Kept(After(ops).qlog, Horizon(ops)) == Kept(FlushedRows(ops), Horizon(ops))
    decreases |ops|
  {
    if ops != [] {
      var init, op := ops[..|ops| - 1], ops[|ops| - 1];
      var db, h := After(init), Horizon(init);
      QueryLogKeepsRecentRows(init);
      match op
      case DoFlush =>
        HistorySplits(init);
        assert History(ops) == History(init);
        KeptConcat(db.qlog, db.buffer, h);
        KeptConcat(FlushedRows(init), db.buffer, h);
      case DoPrune(cutoff) =>
        KeptTwice(db.qlog, cutoff, Horizon(ops));
        KeptTwice(db.qlog, h, Horizon(ops));
        KeptTwice(FlushedRows(init), h, Horizon(ops));
      case _ =>
    }
  }

  // ---- rule hits and list hits ----

  function OfList(rules: map<(string, string), nat>, short: string): (r: map<(string, string), nat>) {
    map p | p in rules && p.0 == short :: rules[p]
  }

  function Matching(keys: seq<(string, string)>, short: string): (r: nat) {
    if keys == [] then 0 else Matching(keys[..|keys| - 1], short) + if keys[|keys| - 1].0 == short then 1 else 0
  }

  lemma {:induction false} RuleHitsAdd(rules: map<(string, string), nat>, keys: seq<(string, string)>, short: string)
    ensures Total(OfList(BumpAll(rules, keys), short)) == Total(OfList(rules, short)) + Matching(keys, short)
    decreases |keys|
  {
    if keys != [] {
      var before, k := BumpAll(rules, keys[..|keys| - 1]), keys[|keys| - 1];
      RuleHitsAdd(rules, keys[..|keys| - 1], short);
      if k.0 == short {
        assert OfList(Bump(before, k), short) == OfList(before, short)[k := Value(before, k) + 1];
        TotalUpdate(OfList(before, short), k, Value(before, k) + 1);
      } else {
        assert OfList(Bump(before, k), short) == OfList(before, short);
      }
    }
  }

  lemma MatchingSnoc(keys: seq<(string, string)>, key: (string, string), short: string)
    ensures Matching(keys + [key], short) == Matching(keys, short) + if key.0 == short then 1 else 0
  {
    assert (keys + [key])[..|keys|] == keys;
  }

  lemma RuleStep(rows: seq<Row>, lists: map<string, nat>, short: string)
    requires rows != []
    ensures var init, last := rows[..|rows| - 1], rows[|rows| - 1];
            Matching(MatchedRules(rows, lists), short) ==
            Matching(MatchedRules(init, lists), short) + if last.rule != "" && last.listShort in lists && last.listShort == short then 1 else 0
  {
    var keys, last := MatchedRules(rows[..|rows| - 1], lists), rows[|rows| - 1];
    if last.rule != "" && last.listShort in lists {
      MatchingSnoc(keys, (last.listShort, last.rule), short);
    } else {
      assert keys + [] == keys;
    }
  }

  lemma ListStep(rows: seq<Row>, short: string)
    requires rows != []
    ensures var init, last := rows[..|rows| - 1], rows[|rows| - 1];
            multiset(MatchedLists(rows))[short] ==
            multiset(MatchedLists(init))[short] + if last.listShort != "" && last.listShort == short then 1 else 0
  {
  }

  lemma {:induction false} FewerRulesThanLists(rows: seq<Row>, lists: map<string, nat>, short: string)
    requires "" !in lists
    ensures Matching(MatchedRules(rows, lists), short) <= multiset(MatchedLists(rows))[short]
    decreases |rows|
  {
    if rows != [] {
      FewerRulesThanLists(rows[..|rows| - 1], lists, short);
      RuleStep(rows, lists, short);
      ListStep(rows, short);
    }
  }

  /** The hits of a list's rules together never exceed the hits of the list. */
  lemma {:induction false} RuleHitsNeverExceedListHits(ops: seq<Op>, short: string)
    ensures Total(OfList(After(ops).rules, short)) <= Value(After(ops).lists, short) && "" !in After(ops).lists
    decreases |ops|
  {
    if ops == [] {
      assert OfList(map[], short) == map[];
    } else {
      var init := ops[..|ops| - 1];
      RuleHitsNeverExceedListHits(init, short);
      if ops[|ops| - 1].DoFlush? {
        var db := After(init);
        var lists := BumpAll(db.lists, MatchedLists(db.buffer));
        MatchedListsAreThere(db.lists, db.buffer);
        BumpAllCounts(db.lists, MatchedLists(db.buffer), short);
        RuleHitsAdd(db.rules, MatchedRules(db.buffer, lists), short);
        FewerRulesThanLists(db.buffer, lists, short);
      }
    }
  }

  // ---- client names ----

  /** Some row gives the client this name, and no row gives it a longer one. */
  ghost predicate IsLongest(name: string, rows: seq<Row>, address: string) {
    && (exists i :: 0 <= i < |rows| && rows[i].address == address && rows[i].clientName == name)
    && (forall i :: 0 <= i < |rows| && rows[i].address == address ==> |rows[i].clientName| <= |name|)
  }

  ghost predicate Named(rows: seq<Row>, address: string) {
    exists i :: 0 <= i < |rows| && rows[i].address == address && rows[i].clientName != ""
  }

  lemma {:induction false} LongestIsLongest(stored: string, rows: seq<Row>, address: string)
    ensures var name := Longest(stored, rows, address);
            && |name| >= |stored|
            && (name == stored || exists i :: 0 <= i < |rows| && rows[i].address == address && rows[i].clientName == name)
            && (forall i :: 0 <= i < |rows| && rows[i].address == address ==> |rows[i].clientName| <= |name|)
    decreases |rows|
  {
    if rows != [] {
      var init := rows[..|rows| - 1];
      LongestIsLongest(stored, init, address);
      assert forall i :: 0 <= i < |init| ==> init[i] == rows[i];
      var before := Longest(stored, init, address);
      if before != stored {
        var i :| 0 <= i < |init| && init[i].address == address && init[i].clientName == before;
        assert rows[i].address == address && rows[i].clientName == before;
      }
    }
  }

  lemma {:induction false} InsertNamesAdds(names: map<string, string>, rows: seq<Row>, address: string)
    ensures var r := InsertNames(names, rows);
            && (address in r <==> address in names || Named(rows, address))
            && (address in names ==> r[address] == names[address])
            && (address in r && address !in names ==>
                 exists i :: 0 <= i < |rows| && rows[i].address == address && rows[i].clientName == r[address] && r[address] != "")
    decreases |rows|
  {
    if rows != [] {
      var init, last := rows[..|rows| - 1], rows[|rows| - 1];
      InsertNamesAdds(names, init, address);
      assert forall i :: 0 <= i < |init| ==> init[i] == rows[i];
      if Named(rows, address) && !Named(init, address) {
        assert last.address == address && last.clientName != "";
      }
      if Named(init, address) {
        var i :| 0 <= i < |init| && init[i].address == address && init[i].clientName != "";
        assert rows[i].address == address;
      }
      var before, r := InsertNames(names, init), InsertNames(names, rows);
      if address in r && address !in names {
        if address in before {
          var i :| 0 <= i < |init| && init[i].address == address && init[i].clientName == before[address] && before[address] != "";
          assert rows[i].clientName == r[address];
        } else {
          assert rows[|rows| - 1].clientName == r[address];
        }
      }
    }
  }

  ghost predicate NamesOk(names: map<string, string>, rows: seq<Row>) {
    forall a :: (a in names <==> Named(rows, a)) && (a in names ==> names[a] != "" && IsLongest(names[a], rows, a))
  }

  lemma FlushKeepsNames(names: map<string, string>, rows: seq<Row>, buffer: seq<Row>)
    requires NamesOk(names, rows)
    ensures NamesOk(UpdateNames(InsertNames(names, buffer), buffer), rows + buffer)
  {
    var inserted := InsertNames(names, buffer);
    var names' := UpdateNames(inserted, buffer);
    forall a ensures (a in names' <==> Named(rows + buffer, a)) && (a in names' ==> names'[a] != "" && IsLongest(names'[a], rows + buffer, a)) {
      NameAfterFlush(names, rows, buffer, a);
    }
  }

  lemma NamedConcat(a: seq<Row>, b: seq<Row>, address: string)
    ensures Named(a + b, address) <==> Named(a, address) || Named(b, address)
  {
    if Named(a, address) {
      var i :| 0 <= i < |a| && a[i].address == address && a[i].clientName != "";
      assert (a + b)[i] == a[i];
    }
    if Named(b, address) {
      var i :| 0 <= i < |b| && b[i].address == address && b[i].clientName != "";
      assert (a + b)[|a| + i] == b[i];
    }
  }

  lemma NameAfterFlush(names: map<string, string>, rows: seq<Row>, buffer: seq<Row>, a: string)
    requires NamesOk(names, rows)
    ensures var names' := UpdateNames(InsertNames(names, buffer), buffer);
            (a in names' <==> Named(rows + buffer, a)) && (a in names' ==> names'[a] != "" && IsLongest(names'[a], rows + buffer, a))
  {
    var inserted := InsertNames(names, buffer);
    InsertNamesAdds(names, buffer, a);
    NamedConcat(rows, buffer, a);
    if a in inserted {
      var stored := inserted[a];
      LongestIsLongest(stored, buffer, a);
      var name := Longest(stored, buffer, a);
      var all := rows + buffer;
      assert stored != "";
      // the name comes from some row
      if name != stored || a !in names {
        var i :| 0 <= i < |buffer| && buffer[i].address == a && buffer[i].clientName == name;
        assert all[|rows| + i] == buffer[i];
      } else {
        var i :| 0 <= i < |rows| && rows[i].address == a && rows[i].clientName == name;
        assert all[i] == rows[i];
      }
      // and no row has a longer one
      forall i | 0 <= i < |all| && all[i].address == a ensures |all[i].clientName| <= |name| {
        if i < |rows| {
          assert all[i] == rows[i];
          if a !in names { assert !Named(rows, a); }
        } else {
          assert all[i] == buffer[i - |rows|];
        }
      }
    }
  }

  /** From empty tables on, a client has a stored name exactly when a name was flushed for it, and the
      stored name is one of those, of maximal length. */
  lemma {:induction false} StoredNamesAreLongest(ops: seq<Op>)
    ensures NamesOk(After(ops).names, FlushedRows(ops))
    decreases |ops|
  {
    if ops != [] {
      var init := ops[..|ops| - 1];
      StoredNamesAreLongest(init);
      if ops[|ops| - 1].DoFlush? {
        HistorySplits(init);
        FlushKeepsNames(After(init).names, FlushedRows(init), After(init).buffer);
        assert History(ops) == History(init);
      }
    }
  }
}
