/** The metrics counters: interval, session and lifetime counts of queries, their snapshots in the
    database, and the rule counters kept through list reloads (engine/metrics.go, engine/engine_init.go). */
module Metrics {
  import opened Text
  import opened Tally

  /** The counters with fixed names as fields, the per-list match counters as maps.  The rule counters
      of the lists ("rules-list-<short>") are kept apart. */
  datatype Counters = Counters(active: int, session: int, lifetime: int, interval: int, cached: int,
                               sessionBlocked: int, lifetimeBlocked: int, intervalBlocked: int,
                               time: int, timeAvg: int,
                               sessionMatched: map<string, nat>, lifetimeMatched: map<string, nat>)

  const ZERO := Counters(0, 0, 0, 0, 0, 0, 0, 0, 0, 0, map[], map[])

  /** What the recorder knows of an answered query; `list` is the short name of the matched list. */
  datatype Info = Info(millis: int, cached: bool, blocked: bool, list: Option<string>)

  /** A row of the metrics table. */
  datatype Snapshot = Snapshot(from: nat, at: nat, counters: Counters, lists: map<string, nat>)

  datatype Session = Session(counters: Counters, lists: map<string, nat>, table: seq<Snapshot>, clock: nat)

  const START := Session(ZERO, map[], [], 0)

  // ---- one call each ----

  function Recorded(c: Counters, info: Info): (r: Counters) {
    var hit := if info.cached then 1 else 0;
    var block := if info.blocked then 1 else 0;
    var matched := info.blocked && info.list.Some?;
    Counters(c.active, c.session + 1, c.lifetime + 1, c.interval + 1, c.cached + hit,
             c.sessionBlocked + block, c.lifetimeBlocked + block, c.intervalBlocked + block, c.time + info.millis, c.timeAvg,
             if matched then Bump(c.sessionMatched, info.list.value) else c.sessionMatched,
             if matched then Bump(c.lifetimeMatched, info.list.value) else c.lifetimeMatched)
  }

  /** Division as the implementation language does it, toward zero. */
  function Quotient(a: int, b: int): (r: int)
    requires b > 0
  {
    if a >= 0 then a / b else -((-a) / b)
  }

  function Updated(c: Counters): (r: Counters) {
    if c.interval > 0 then c.(timeAvg := Quotient(c.time, c.interval)) else c
  }

  function Row(s: Session, gap: nat): (r: Snapshot) {
    Snapshot(s.clock, s.clock + gap + 1, s.counters, s.lists)
  }

  /** Rows with AtTime <= cutoff are deleted. */
  function Kept(table: seq<Snapshot>, cutoff: nat): (r: seq<Snapshot>) {
    if table == [] then []
    else Kept(table[..|table| - 1], cutoff) + if table[|table| - 1].at <= cutoff then [] else [table[|table| - 1]]
  }

  /** ORDER BY AtTime DESC LIMIT 1 */
  function Latest(table: seq<Snapshot>): (r: Option<Snapshot>) {
    if table == [] then None
    else
      var before, last := Latest(table[..|table| - 1]), table[|table| - 1];
      if before.Some? && before.value.at > last.at then before else Some(last)
  }

  predicate HasLifetime(s: string) {
    |s| >= 8 && (s[..8] == "lifetime" || HasLifetime(s[1..]))
  }

  /** Loading takes every counter whose name holds the word "lifetime", which a list's short name may. */
  function LifetimeCounters(row: Option<Snapshot>): (r: Counters) {
    if row.None? then ZERO
    else
      var c := row.value.counters;
      ZERO.(lifetime := c.lifetime, lifetimeBlocked := c.lifetimeBlocked, lifetimeMatched := c.lifetimeMatched,
            sessionMatched := map l | l in c.sessionMatched && HasLifetime(l) :: c.sessionMatched[l])
  }

  function LifetimeLists(row: Option<Snapshot>): (r: map<string, nat>) {
    if row.None? then map[] else map l | l in row.value.lists && HasLifetime(l) :: row.value.lists[l]
  }

  /** Every configured list's counter is set to the number of its rules. */
  function ListsSet(lists: map<string, nat>, counts: seq<(string, nat)>): (r: map<string, nat>) {
    if counts == [] then lists
    else ListsSet(lists, counts[..|counts| - 1])[counts[|counts| - 1].0 := counts[|counts| - 1].1]
  }

  function SumCounts(counts: seq<(string, nat)>): (r: nat) {
    if counts == [] then 0 else SumCounts(counts[..|counts| - 1]) + counts[|counts| - 1].1
  }

  function Restarted(s: Session, counts: seq<(string, nat)>): (r: Session) {
    var row := Latest(s.table);
    Session(LifetimeCounters(row).(active := SumCounts(counts)), ListsSet(LifetimeLists(row), counts), s.table, s.clock)
  }

  function Reloaded(s: Session, short: string, count: nat): (r: Session) {
    if short == "" then s
    else s.(counters := s.counters.(active := s.counters.active - Value(s.lists, short) + count), lists := s.lists[short := count])
  }

  // ---- every run ----

  datatype Op =
    | DoRecord(info: Info)
    | DoUpdate
    | DoInsert(gap: nat)
    | DoPrune(cutoff: nat)
    | DoReload(short: string, count: nat)
    | DoRestart(counts: seq<(string, nat)>)

  function Apply(s: Session, op: Op): (r: Session) {
    match op
    case DoRecord(info) => s.(counters := Recorded(s.counters, info))
    case DoUpdate => s.(counters := Updated(s.counters))
    case DoInsert(gap) => Session(s.counters.(interval := 0, intervalBlocked := 0, time := 0), s.lists, s.table + [Row(s, gap)], s.clock + gap + 1)
    case DoPrune(cutoff) => s.(table := Kept(s.table, cutoff))
    case DoReload(short, count) => Reloaded(s, short, count)
    case DoRestart(counts) => Restarted(s, counts)
  }

  function After(ops: seq<Op>): (r: Session) {
    if ops == [] then START else Apply(After(ops[..|ops| - 1]), ops[|ops| - 1])
  }

  // ---- the process ----

  class Recording {
    var counters: Counters
    var lists: map<string, nat>
    var table: seq<Snapshot>
    var clock: nat

    ghost function Contents(): (r: Session)
      reads this
    {
      Session(counters, lists, table, clock)
    }

    constructor ()
      ensures Contents() == START
    {
      counters, lists, table, clock := ZERO, map[], [], 0;
    }

    method Record(info: Info)
      modifies this`counters
      ensures Contents() == Apply(old(Contents()), DoRecord(info))
    {
      counters := counters.(session := counters.session + 1, lifetime := counters.lifetime + 1,
                            interval := counters.interval + 1, time := counters.time + info.millis);
      if info.cached {
        counters := counters.(cached := counters.cached + 1);
      }
      if info.blocked {
        counters := counters.(sessionBlocked := counters.sessionBlocked + 1, lifetimeBlocked := counters.lifetimeBlocked + 1,
                              intervalBlocked := counters.intervalBlocked + 1);
        if info.list.Some? {
          counters := counters.(sessionMatched := Bump(counters.sessionMatched, info.list.value),
                                lifetimeMatched := Bump(counters.lifetimeMatched, info.list.value));
        }
      }
    }

    method Update()
      modifies this`counters
      ensures Contents() == Apply(old(Contents()), DoUpdate)
    {
      if counters.interval > 0 {
        counters := counters.(timeAvg := Quotient(counters.time, counters.interval));
      }
    }

    /** The row is written before the interval counters are cleared. */
    method Insert(gap: nat)
      modifies this`counters, this`table, this`clock
      ensures Contents() == Apply(old(Contents()), DoInsert(gap))
    {
      var now := clock + gap + 1;
      table := table + [Snapshot(clock, now, counters, lists)];
      counters := counters.(interval := 0);
      counters := counters.(intervalBlocked := 0);
      counters := counters.(time := 0);
      clock := now;
    }

    method Prune(cutoff: nat)
      modifies this`table
      ensures Contents() == Apply(old(Contents()), DoPrune(cutoff))
    {
      table := Kept(table, cutoff);
    }

    /** The handler of a changed list. */
    method ListChanged(short: string, count: nat)
      modifies this`counters, this`lists
      ensures Contents() == Apply(old(Contents()), DoReload(short, count))
    {
      if short != "" {
        var oldCount := if short in lists then lists[short] else 0;
        counters := counters.(active := counters.active - oldCount);
        counters := counters.(active := counters.active + count);
        lists := lists[short := count];
      }
    }

    /** A new process: lifetime counters come back from the latest row, then the lists are counted. */
    method Restart(counts: seq<(string, nat)>)
      modifies this
      ensures Contents() == Apply(old(Contents()), DoRestart(counts))
    {
      var row := Latest(table);
      counters, lists := LifetimeCounters(row), LifetimeLists(row);
      var total := 0;
      var i := 0;
      while i < |counts|
        modifies this`lists
        invariant 0 <= i <= |counts|
        invariant total == SumCounts(counts[..i])
        invariant lists == ListsSet(LifetimeLists(row), counts[..i])
      {
        assert counts[..i + 1][..i] == counts[..i];
        lists := lists[counts[i].0 := counts[i].1];
        total := total + counts[i].1;
        i := i + 1;
      }
      assert counts[..i] == counts;
      counters := counters.(active := counters.active + total);
    }
  }

  // ---- queries are conserved ----

  function SumTotal(rows: seq<Snapshot>): (r: int) {
    if rows == [] then 0 else SumTotal(rows[..|rows| - 1]) + rows[|rows| - 1].counters.interval
  }

  function SumBlocked(rows: seq<Snapshot>): (r: int) {
    if rows == [] then 0 else SumBlocked(rows[..|rows| - 1]) + rows[|rows| - 1].counters.intervalBlocked
  }

  /** The rows inserted by this process, pruned since or not. */
  function Inserted(ops: seq<Op>): (r: seq<Snapshot>) {
    if ops == [] then []
    else
      MoreRows(After(ops[..|ops| - 1]), Inserted(ops[..|ops| - 1]), ops[|ops| - 1])
  }

  /** The rows inserted since the last start that found no row at all. */
  function Lineage(ops: seq<Op>): (r: seq<Snapshot>) {
    if ops == [] then []
    else
      var init, op := ops[..|ops| - 1], ops[|ops| - 1];
      if op.DoInsert? then Lineage(init) + [Row(After(init), op.gap)]
      else if op.DoRestart? && After(init).table == [] then []
      else Lineage(init)
  }

  // ---- kinds of queries ----

  function Any(): (r: Info -> bool) {
    (info: Info) => true
  }

  function FromCache(): (r: Info -> bool) {
    (info: Info) => info.cached
  }

  function Blocked(): (r: Info -> bool) {
    (info: Info) => info.blocked
  }

  function BlockedBy(short: string): (r: Info -> bool) {
    (info: Info) => info.blocked && info.list == Some(short)
  }

  /** The operation records a query of the kind. */
  function Counted(kind: Info -> bool, op: Op): (r: nat) {
    if op.DoRecord? && kind(op.info) then 1 else 0
  }

  /** Queries of a kind recorded by this process. */
  function Asked(kind: Info -> bool, ops: seq<Op>): (r: nat) {
    if ops == [] || ops[|ops| - 1].DoRestart? then 0
    else Asked(kind, ops[..|ops| - 1]) + Counted(kind, ops[|ops| - 1])
  }

  lemma SumAppend(rows: seq<Snapshot>, row: Snapshot)
    ensures SumTotal(rows + [row]) == SumTotal(rows) + row.counters.interval
    ensures SumBlocked(rows + [row]) == SumBlocked(rows) + row.counters.intervalBlocked
  {
    assert (rows + [row])[..|rows|] == rows;
  }

  /** The rows of the running process after one more operation. */
  function MoreRows(s: Session, rows: seq<Snapshot>, op: Op): (r: seq<Snapshot>) {
    if op.DoInsert? then rows + [Row(s, op.gap)] else if op.DoRestart? then [] else rows
  }

  lemma TotalStep(s: Session, rows: seq<Snapshot>, op: Op)
    requires s.counters.session == SumTotal(rows) + s.counters.interval
    ensures var c := Apply(s, op).counters;
            && c.session == SumTotal(MoreRows(s, rows, op)) + c.interval
            && c.session == if op.DoRestart? then 0 else s.counters.session + if op.DoRecord? then 1 else 0
  {
    if op.DoInsert? { SumAppend(rows, Row(s, op.gap)); }
  }

  lemma BlockedStep(s: Session, rows: seq<Snapshot>, op: Op)
    requires s.counters.sessionBlocked == SumBlocked(rows) + s.counters.intervalBlocked
    ensures var c := Apply(s, op).counters;
            && c.sessionBlocked == SumBlocked(MoreRows(s, rows, op)) + c.intervalBlocked
            && c.sessionBlocked == if op.DoRestart? then 0 else s.counters.sessionBlocked + if op.DoRecord? && op.info.blocked then 1 else 0
  {
    if op.DoInsert? { SumAppend(rows, Row(s, op.gap)); }
  }

  lemma {:induction false} TotalIsConserved(ops: seq<Op>)
    ensures var c := After(ops).counters; c.session == SumTotal(Inserted(ops)) + c.interval == Asked(Any(), ops)
    decreases |ops|
  {
    if ops != [] {
      TotalIsConserved(ops[..|ops| - 1]);
      TotalStep(After(ops[..|ops| - 1]), Inserted(ops[..|ops| - 1]), ops[|ops| - 1]);
    }
  }

  lemma {:induction false} BlockedIsConserved(ops: seq<Op>)
    ensures var c := After(ops).counters; c.sessionBlocked == SumBlocked(Inserted(ops)) + c.intervalBlocked == Asked(Blocked(), ops)
    decreases |ops|
  {
    if ops != [] {
      BlockedIsConserved(ops[..|ops| - 1]);
      BlockedStep(After(ops[..|ops| - 1]), Inserted(ops[..|ops| - 1]), ops[|ops| - 1]);
    }
  }

  lemma {:induction false} CachedAreCounted(ops: seq<Op>)
    ensures After(ops).counters.cached == Asked(FromCache(), ops)
    decreases |ops|
  {
    if ops != [] { CachedAreCounted(ops[..|ops| - 1]); }
  }

  /** The session counts are the recorded queries, and they equal the interval counts of every row this
      process inserted plus the current interval; cache hits are counted per session. */
  lemma SessionIsConserved(ops: seq<Op>)
    ensures var c, rows := After(ops).counters, Inserted(ops);
            && c.session == SumTotal(rows) + c.interval == Asked(Any(), ops)
            && c.sessionBlocked == SumBlocked(rows) + c.intervalBlocked == Asked(Blocked(), ops)
            && c.cached == Asked(FromCache(), ops)
  {
    TotalIsConserved(ops);
    BlockedIsConserved(ops);
    CachedAreCounted(ops);
  }

  // ---- matches per list ----

  /** What the last start brought back into a list's session counter: its name must hold "lifetime". */
  ghost function Returned(ops: seq<Op>, short: string): (r: nat) {
    if ops == [] then 0
    else
      var init, op := ops[..|ops| - 1], ops[|ops| - 1];
      if op.DoRestart? then
        var row := Latest(After(init).table);
        if row.Some? && HasLifetime(short) then Value(row.value.counters.sessionMatched, short) else 0
      else Returned(init, short)
  }

  /** A list's session matches are the queries it blocked since the start, and what came back. */
  lemma {:induction false} SessionMatchesAreCounted(ops: seq<Op>, short: string)
    ensures Value(After(ops).counters.sessionMatched, short) == Asked(BlockedBy(short), ops) + Returned(ops, short)
    decreases |ops|
  {
    if ops != [] { SessionMatchesAreCounted(ops[..|ops| - 1], short); }
  }

  /** Text holds the word exactly when it is something, the word and something. */
  lemma {:induction false} WordIsFound(a: string, b: string)
    ensures HasLifetime(a + "lifetime" + b)
    decreases |a|
  {
    var s := a + "lifetime" + b;
    if a == "" {
      assert s[..8] == "lifetime";
    } else {
      assert s[1..] == a[1..] + "lifetime" + b;
      WordIsFound(a[1..], b);
    }
  }

  lemma {:induction false} FoundIsWord(s: string) returns (a: string, b: string)
    requires HasLifetime(s)
    ensures s == a + "lifetime" + b
    decreases |s|
  {
    if s[..8] == "lifetime" {
      a, b := "", s[8..];
    } else {
      a, b := FoundIsWord(s[1..]);
      a := [s[0]] + a;
    }
  }

  // ---- the interval ----

  /** Queries and milliseconds since the last insert or start. */
  function SinceInsert(ops: seq<Op>): (r: (nat, int)) {
    if ops == [] || ops[|ops| - 1].DoInsert? || ops[|ops| - 1].DoRestart? then (0, 0)
    else
      var before, op := SinceInsert(ops[..|ops| - 1]), ops[|ops| - 1];
      if op.DoRecord? then (before.0 + 1, before.1 + op.info.millis) else before
  }

  lemma {:induction false} IntervalIsCounted(ops: seq<Op>)
    ensures var c := After(ops).counters; (c.interval, c.time) == SinceInsert(ops)
    decreases |ops|
  {
    if ops != [] { IntervalIsCounted(ops[..|ops| - 1]); }
  }

  lemma QuotientIsTruncated(a: int, b: int)
    requires b > 0
    ensures var q := Quotient(a, b); if a >= 0 then q * b <= a < (q + 1) * b else (q - 1) * b < a <= q * b
  {
  }

  /** An update sets the average to the mean time of the queries of the interval, rounded toward zero, and
      leaves it alone when there were none. */
  lemma AverageIsTheMean(ops: seq<Op>)
    ensures var n, t := SinceInsert(ops).0, SinceInsert(ops).1;
            var avg := After(ops + [DoUpdate]).counters.timeAvg;
            if n == 0 then avg == After(ops).counters.timeAvg
            else if t >= 0 then avg * n <= t < (avg + 1) * n
            else (avg - 1) * n < t <= avg * n
  {
    IntervalIsCounted(ops);
    assert (ops + [DoUpdate])[..|ops|] == ops;
    if SinceInsert(ops).0 > 0 { QuotientIsTruncated(SinceInsert(ops).1, SinceInsert(ops).0); }
  }

  ghost predicate Ranked(c: Counters) {
    && 0 <= c.interval <= c.session <= c.lifetime
    && 0 <= c.intervalBlocked <= c.sessionBlocked <= c.lifetimeBlocked
    && c.intervalBlocked <= c.interval && c.sessionBlocked <= c.session && c.lifetimeBlocked <= c.lifetime
  }

  ghost predicate RankedRows(table: seq<Snapshot>) {
    forall i :: 0 <= i < |table| ==> Ranked(table[i].counters)
  }

  lemma {:induction false} KeptRanked(table: seq<Snapshot>, cutoff: nat)
    requires RankedRows(table)
    ensures RankedRows(Kept(table, cutoff))
    decreases |table|
  {
    if table != [] { KeptRanked(table[..|table| - 1], cutoff); }
  }

  lemma {:induction false} LatestIsARow(table: seq<Snapshot>)
    ensures Latest(table).Some? <==> table != []
    ensures Latest(table).Some? ==> Latest(table).value in table
    decreases |table|
  {
    if table != [] {
      var init, last := table[..|table| - 1], table[|table| - 1];
      LatestIsARow(init);
      assert last in table && forall row :: row in init ==> row in table;
    }
  }

  /** Interval within session within lifetime, and blocked within total, at every point of every run. */
  lemma {:induction false} CountersStayRanked(ops: seq<Op>)
    ensures Ranked(After(ops).counters) && RankedRows(After(ops).table)
    decreases |ops|
  {
    if ops != [] {
      var init, op := ops[..|ops| - 1], ops[|ops| - 1];
      CountersStayRanked(init);
      var s := After(init);
      match op
      case DoPrune(cutoff) => KeptRanked(s.table, cutoff);
      case DoRestart(counts) =>
        LatestIsARow(s.table);
        var row := Latest(s.table);
        assert row.Some? ==> Ranked(row.value.counters);
      case _ =>
    }
  }

  // ---- lifetime counts survive restarts ----

  /** Rows are in the order of their times, none later than the clock. */
  ghost predicate InOrder(table: seq<Snapshot>, clock: int)
    decreases |table|
  {
    table != [] ==> table[|table| - 1].at <= clock && InOrder(table[..|table| - 1], table[|table| - 1].at - 1)
  }

  lemma {:induction false} InOrderLater(table: seq<Snapshot>, early: int, late: int)
    requires InOrder(table, early) && early <= late
    ensures InOrder(table, late)
  {
  }

  lemma {:induction false} LatestIsLast(table: seq<Snapshot>, clock: int)
    requires InOrder(table, clock)
    ensures Latest(table) == if table == [] then None else Some(table[|table| - 1])
    decreases |table|
  {
    if table != [] { LatestIsLast(table[..|table| - 1], table[|table| - 1].at - 1); }
  }

  /** Pruning either leaves the latest row or empties the table. */
  lemma {:induction false} KeptInOrder(table: seq<Snapshot>, clock: int, cutoff: nat)
    requires InOrder(table, clock)
    ensures var kept := Kept(table, cutoff);
            InOrder(kept, clock) && (kept != [] ==> table != [] && kept[|kept| - 1] == table[|table| - 1])
    ensures clock <= cutoff ==> Kept(table, cutoff) == []
    decreases |table|
  {
    if table != [] {
      var init, last := table[..|table| - 1], table[|table| - 1];
      KeptInOrder(init, last.at - 1, cutoff);
      if last.at > cutoff {
        var kept := Kept(init, cutoff) + [last];
        assert kept[..|kept| - 1] == Kept(init, cutoff);
      }
    }
  }

  ghost predicate Continued(s: Session, rows: seq<Snapshot>) {
    && s.counters.lifetime == SumTotal(rows) + s.counters.interval
    && s.counters.lifetimeBlocked == SumBlocked(rows) + s.counters.intervalBlocked
    && (s.table != [] ==> s.table[|s.table| - 1].counters.lifetime == SumTotal(rows))
    && (s.table != [] ==> s.table[|s.table| - 1].counters.lifetimeBlocked == SumBlocked(rows))
    && InOrder(s.table, s.clock)
  }

  lemma InsertContinues(s: Session, rows: seq<Snapshot>, gap: nat)
    requires Continued(s, rows)
    ensures Continued(Apply(s, DoInsert(gap)), rows + [Row(s, gap)])
  {
    SumAppend(rows, Row(s, gap));
    assert (s.table + [Row(s, gap)])[..|s.table|] == s.table;
    InOrderLater(s.table, s.clock, s.clock + gap);
  }

  /** Across any number of restarts the lifetime counts equal the interval counts of every row inserted
      since a process last started on an empty table, plus the current interval: pruning loses nothing
      while a row remains, and a restart loses only the interval not yet inserted. */
  lemma {:induction false} LifetimeIsConserved(ops: seq<Op>)
    ensures Continued(After(ops), Lineage(ops))
    decreases |ops|
  {
    if ops != [] {
      var init, op := ops[..|ops| - 1], ops[|ops| - 1];
      var s := After(init);
      LifetimeIsConserved(init);
      match op
      case DoInsert(gap) => InsertContinues(s, Lineage(init), gap);
      case DoPrune(cutoff) => KeptInOrder(s.table, s.clock, cutoff);
      case DoRestart(_) => LatestIsLast(s.table, s.clock);
      case _ =>
    }
  }

  // ---- lifetime counts are queries ----

  /** Queries of a kind that count for life, and those of them that the latest row of the table holds.  A
      start goes back to the row; pruning the last row forgets them. */
  function Lives(kind: Info -> bool, ops: seq<Op>): (r: (nat, nat)) {
    if ops == [] then (0, 0)
    else
      var before, op := Lives(kind, ops[..|ops| - 1]), ops[|ops| - 1];
      match op
      case DoRecord(_) => (before.0 + Counted(kind, op), before.1)
      case DoInsert(_) => (before.0, before.0)
      case DoPrune(_) => (before.0, if After(ops).table == [] then 0 else before.1)
      case DoRestart(_) => (before.1, before.1)
      case _ => before
  }

  /** The lifetime counters of the process and of the latest row. */
  ghost predicate LivesOn(s: Session, all: (nat, nat), blocked: (nat, nat), matched: (nat, nat), short: string) {
    && s.counters.lifetime == all.0 && s.counters.lifetimeBlocked == blocked.0 && Value(s.counters.lifetimeMatched, short) == matched.0
    && (if s.table == [] then all.1 == blocked.1 == matched.1 == 0 else HeldBy(s.table[|s.table| - 1].counters, all.1, blocked.1, matched.1, short))
  }

  predicate HeldBy(c: Counters, all: nat, blocked: nat, matched: nat, short: string) {
    c.lifetime == all && c.lifetimeBlocked == blocked && Value(c.lifetimeMatched, short) == matched
  }

  /** At every point of every run, restarts and pruning included, the lifetime counters are the numbers of
      queries, of blocked queries and of queries each list blocked that were recorded, less those that a
      start found in no row. */
  lemma {:induction false} LifetimeCountsQueries(ops: seq<Op>, short: string)
    ensures LivesOn(After(ops), Lives(Any(), ops), Lives(Blocked(), ops), Lives(BlockedBy(short), ops), short)
    decreases |ops|
  {
    if ops != [] {
      var init, op := ops[..|ops| - 1], ops[|ops| - 1];
      var s := After(init);
      LifetimeCountsQueries(init, short);
      LifetimeIsConserved(init);
      match op
      case DoPrune(cutoff) => KeptInOrder(s.table, s.clock, cutoff);
      case DoRestart(_) => LatestIsLast(s.table, s.clock);
      case _ =>
    }
  }

  // ---- rule counters ----

  /** Counts that a later entry of the same list replaces. */
  function Replaced(lists: map<string, nat>, counts: seq<(string, nat)>): (r: nat) {
    if counts == [] then 0
    else Replaced(lists, counts[..|counts| - 1]) + Value(ListsSet(lists, counts[..|counts| - 1]), counts[|counts| - 1].0)
  }

  lemma {:induction false} SetTotal(lists: map<string, nat>, counts: seq<(string, nat)>)
    ensures Total(ListsSet(lists, counts)) + Replaced(lists, counts) == Total(lists) + SumCounts(counts)
    decreases |counts|
  {
    if counts != [] {
      var init, last := counts[..|counts| - 1], counts[|counts| - 1];
      SetTotal(lists, init);
      TotalUpdate(ListsSet(lists, init), last.0, last.1);
    }
  }

  /** What the last start left between the active rules and the sum of the list counters: replaced
      counts, less the counters that came back from the database. */
  ghost function Drift(ops: seq<Op>): (r: int) {
    if ops == [] then 0
    else
      var init, op := ops[..|ops| - 1], ops[|ops| - 1];
      if op.DoRestart? then
        var back := LifetimeLists(Latest(After(init).table));
        Replaced(back, op.counts) - Total(back)
      else Drift(init)
  }

  /** No operation of a running process, reloads included, changes the difference between the active
      rules and the sum of the list counters. */
  lemma {:induction false} ActiveRulesFollowTheLists(ops: seq<Op>)
    ensures After(ops).counters.active == Total(After(ops).lists) + Drift(ops)
    decreases |ops|
  {
    if ops != [] {
      var init, op := ops[..|ops| - 1], ops[|ops| - 1];
      ActiveRulesFollowTheLists(init);
      var s := After(init);
      match op
      case DoReload(short, count) => TotalUpdate(s.lists, short, count);
      case DoRestart(counts) => SetTotal(LifetimeLists(Latest(s.table)), counts);
      case _ =>
    }
  }

  /** The count that a configuration gives a list: its last one. */
  function LastCount(counts: seq<(string, nat)>, short: string): (r: Option<nat>) {
    if counts == [] then None
    else if counts[|counts| - 1].0 == short then Some(counts[|counts| - 1].1)
    else LastCount(counts[..|counts| - 1], short)
  }

  /** The number of rules a list was last loaded with, by its configuration or by a reload; a list that is
      not configured has what came back from the latest row. */
  ghost function LoadedCount(ops: seq<Op>, short: string): (r: nat) {
    if ops == [] then 0
    else
      var init, op := ops[..|ops| - 1], ops[|ops| - 1];
      match op
      case DoReload(name, count) => if name == short && short != "" then count else LoadedCount(init, short)
      case DoRestart(counts) =>
        var last := LastCount(counts, short);
        if last.Some? then last.value else Value(LifetimeLists(Latest(After(init).table)), short)
      case _ => LoadedCount(init, short)
  }

  lemma {:induction false} SetIsLastCount(lists: map<string, nat>, counts: seq<(string, nat)>, short: string)
    ensures var last := LastCount(counts, short);
            Value(ListsSet(lists, counts), short) == if last.Some? then last.value else Value(lists, short)
    decreases |counts|
  {
    if counts != [] { SetIsLastCount(lists, counts[..|counts| - 1], short); }
  }

  /** Every list counter is the number of rules the list was last loaded with. */
  lemma {:induction false} ListCountersAreLoadedCounts(ops: seq<Op>, short: string)
    ensures Value(After(ops).lists, short) == LoadedCount(ops, short)
    decreases |ops|
  {
    if ops != [] {
      var init, op := ops[..|ops| - 1], ops[|ops| - 1];
      ListCountersAreLoadedCounts(init, short);
      if op.DoRestart? { SetIsLastCount(LifetimeLists(Latest(After(init).table)), op.counts, short); }
    }
  }

  /** No list with rules is configured again under the same short name. */
  ghost predicate Unrepeated(counts: seq<(string, nat)>) {
    forall i, j :: 0 <= i < j < |counts| && counts[i].0 == counts[j].0 ==> counts[i].1 == 0
  }

  ghost predicate NoRules(counts: seq<(string, nat)>, short: string) {
    forall i :: 0 <= i < |counts| && counts[i].0 == short ==> counts[i].1 == 0
  }

  lemma {:induction false} SetValue(counts: seq<(string, nat)>, short: string)
    requires Unrepeated(counts)
    ensures Value(ListsSet(map[], counts), short) == 0 <==> NoRules(counts, short)
    decreases |counts|
  {
    if counts != [] {
      var init, last := counts[..|counts| - 1], counts[|counts| - 1];
      SetValue(init, short);
      assert NoRules(counts, short) <==> NoRules(init, short) && (last.0 == short ==> last.1 == 0) by {
        if NoRules(counts, short) { assert counts[|counts| - 1] == last && forall i :: 0 <= i < |init| ==> init[i] == counts[i]; }
      }
      assert last.0 == short ==> NoRules(init, short);
    }
  }

  lemma {:induction false} NothingReplacedIff(counts: seq<(string, nat)>)
    ensures Replaced(map[], counts) == 0 <==> Unrepeated(counts)
    decreases |counts|
  {
    if counts != [] {
      var init, last := counts[..|counts| - 1], counts[|counts| - 1];
      NothingReplacedIff(init);
      assert forall i :: 0 <= i < |init| ==> init[i] == counts[i];
      assert Unrepeated(counts) <==> Unrepeated(init) && NoRules(init, last.0) by {
        if Unrepeated(counts) {
          forall i | 0 <= i < |init| && init[i].0 == last.0 ensures init[i].1 == 0 {
            assert counts[i].0 == counts[|counts| - 1].0;
          }
        }
      }
      if Unrepeated(init) { SetValue(init, last.0); }
    }
  }

  function Configured(counts: seq<(string, nat)>): (r: set<string>) {
    if counts == [] then {} else Configured(counts[..|counts| - 1]) + {counts[|counts| - 1].0}
  }

  lemma {:induction false} SetConfigured(lists: map<string, nat>, counts: seq<(string, nat)>, short: string)
    ensures short in Configured(counts) ==> Value(ListsSet(lists, counts), short) == Value(ListsSet(map[], counts), short)
    ensures short !in Configured(counts) ==> Value(ListsSet(lists, counts), short) == Value(lists, short)
    decreases |counts|
  {
    if counts != [] { SetConfigured(lists, counts[..|counts| - 1], short); }
  }

  /** What a start replaces: earlier counts of repeated names, and everything that came back and is
      configured. */
  lemma {:induction false} ReplacedSplits(back: map<string, nat>, counts: seq<(string, nat)>)
    ensures Replaced(back, counts) + Total(back - Configured(counts)) == Replaced(map[], counts) + Total(back)
    decreases |counts|
  {
    if counts == [] {
      assert back - {} == back;
    } else {
      var init, short := counts[..|counts| - 1], counts[|counts| - 1].0;
      ReplacedSplits(back, init);
      SetConfigured(back, init, short);
      SetConfigured(map[], init, short);
      var rest := back - Configured(init);
      assert back - Configured(counts) == rest - {short};
      if short in rest { TotalRemove(rest, short); } else { assert rest - {short} == rest; }
    }
  }

  lemma {:induction false} DriftOfLastStart(before: seq<Op>, counts: seq<(string, nat)>, ops: seq<Op>)
    requires forall i :: 0 <= i < |ops| ==> !ops[i].DoRestart?
    ensures var back := LifetimeLists(Latest(After(before).table));
            Drift(before + [DoRestart(counts)] + ops) == Replaced(back, counts) - Total(back)
    decreases |ops|
  {
    var all := before + [DoRestart(counts)] + ops;
    if ops == [] {
      assert all[..|all| - 1] == before && all[|all| - 1] == DoRestart(counts);
    } else {
      assert all[..|all| - 1] == before + [DoRestart(counts)] + ops[..|ops| - 1];
      assert !all[|all| - 1].DoRestart?;
      DriftOfLastStart(before, counts, ops[..|ops| - 1]);
    }
  }

  /** For every process, whatever ran before and however often lists are reloaded: the active rules are the
      sum of the list counters exactly when the counts that repeated names replace amount to the counters
      that came back for lists no longer configured; where none came back, exactly when the configuration
      repeats no short name of a list with rules. */
  lemma ActiveRulesExactIff(before: seq<Op>, counts: seq<(string, nat)>, ops: seq<Op>)
    requires forall i :: 0 <= i < |ops| ==> !ops[i].DoRestart?
    ensures var s, back := After(before + [DoRestart(counts)] + ops), LifetimeLists(Latest(After(before).table));
            && (s.counters.active == Total(s.lists) <==> Replaced(map[], counts) == Total(back - Configured(counts)))
            && (back.Keys <= Configured(counts) ==> (s.counters.active == Total(s.lists) <==> Unrepeated(counts)))
  {
    var back := LifetimeLists(Latest(After(before).table));
    ActiveRulesFollowTheLists(before + [DoRestart(counts)] + ops);
    DriftOfLastStart(before, counts, ops);
    ReplacedSplits(back, counts);
    NothingReplacedIff(counts);
    if back.Keys <= Configured(counts) { assert back - Configured(counts) == map[]; }
  }

  /** No start of the run repeats the short name of a list with rules, and no short name holds "lifetime". */
  ghost predicate WellNamed(ops: seq<Op>) {
    forall i :: 0 <= i < |ops| ==> WellNamedOp(ops[i])
  }

  ghost predicate WellNamedOp(op: Op) {
    match op
    case DoRestart(counts) => Unrepeated(counts) && forall i :: 0 <= i < |counts| ==> !HasLifetime(counts[i].0)
    case DoReload(short, _) => !HasLifetime(short)
    case _ => true
  }

  ghost predicate Plain(lists: map<string, nat>) {
    forall l :: l in lists ==> !HasLifetime(l)
  }

  lemma {:induction false} SetPlain(lists: map<string, nat>, counts: seq<(string, nat)>)
    requires Plain(lists) && WellNamedOp(DoRestart(counts))
    ensures Plain(ListsSet(lists, counts))
    decreases |counts|
  {
    if counts != [] { SetPlain(lists, counts[..|counts| - 1]); }
  }

  ghost predicate PlainRows(table: seq<Snapshot>) {
    forall i :: 0 <= i < |table| ==> Plain(table[i].lists)
  }

  lemma {:induction false} KeptPlain(table: seq<Snapshot>, cutoff: nat)
    requires PlainRows(table)
    ensures PlainRows(Kept(table, cutoff))
    decreases |table|
  {
    if table != [] { KeptPlain(table[..|table| - 1], cutoff); }
  }

  lemma NothingComesBack(table: seq<Snapshot>)
    requires PlainRows(table)
    ensures LifetimeLists(Latest(table)) == map[]
  {
    LatestIsARow(table);
    var row := Latest(table);
    assert row.Some? ==> Plain(row.value.lists);
  }

  /** The active rules are exactly the sum of the list counters, after every run of reloads, restarts,
      inserts and queries. */
  lemma {:induction false} ActiveRulesAreTheSum(ops: seq<Op>)
    requires WellNamed(ops)
    ensures After(ops).counters.active == Total(After(ops).lists)
    ensures Drift(ops) == 0 && Plain(After(ops).lists) && PlainRows(After(ops).table)
    decreases |ops|
  {
    ActiveRulesFollowTheLists(ops);
    if ops != [] {
      var init, op := ops[..|ops| - 1], ops[|ops| - 1];
      ActiveRulesAreTheSum(init);
      var s := After(init);
      assert WellNamedOp(op);
      match op
      case DoPrune(cutoff) => KeptPlain(s.table, cutoff);
      case DoRestart(counts) =>
        NothingComesBack(s.table);
        NothingReplacedIff(counts);
        SetPlain(map[], counts);
      case _ =>
    }
  }

  lemma RepeatedListDrifts()
    ensures var s := After([DoRestart([("ads", 3), ("ads", 4)])]);
            s.counters.active != Total(s.lists)
  {
    var counts: seq<(string, nat)> := [("ads", 3), ("ads", 4)];
    assert counts[0].0 == counts[1].0 && counts[0].1 != 0;
    assert !Unrepeated(counts);
    ActiveRulesExactIff([], counts, []);
    assert [] + [DoRestart(counts)] + [] == [DoRestart(counts)];
  }

  /** A list called "lifetime" is counted, its counter saved, and the list no longer configured. */
  lemma RetiredListDrifts()
    ensures var s := After([DoRestart([("lifetime", 3)]), DoInsert(0), DoRestart([])]);
            s.counters.active == 0 && Total(s.lists) == 3
  {
    var counts: seq<(string, nat)> := [("lifetime", 3)];
    var o1, o2, o3 := DoRestart(counts), DoInsert(0), DoRestart([]);
    assert [o1, o2, o3][..2] == [o1, o2] && [o1, o2][..1] == [o1] && [o1][..0] == [];
    var s1, s2 := Restarted(START, counts), Apply(Restarted(START, counts), o2);
    assert After([o1]) == s1 && After([o1, o2]) == s2 && After([o1, o2, o3]) == Restarted(s2, []);
    assert |counts[..0]| == 0 && s1.lists == map["lifetime" := 3];
    assert s2.table == [Row(s1, 0)] && s2.table[..0] == [];
    assert Latest(s2.table) == Some(Row(s1, 0));
    assert "lifetime"[..8] == "lifetime";
    assert LifetimeLists(Latest(s2.table)) == map["lifetime" := 3];
    TotalUpdate(map[], "lifetime", 3);
    assert map[]["lifetime" := 3] == map["lifetime" := 3];
  }
}
