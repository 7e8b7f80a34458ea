/** The partitioned response cache (cache/cache.go).  Times are nanoseconds. */
module Cache {
  import opened Text
  import opened Dns

  const SECOND := 1_000_000_000
  const MAX_TTL: Uint32 := 604800

  // ---- keys ----

  /** The text the DNS library prints for classes and types. */
  datatype Mnemonics = Mnemonics(classText: nat -> string, typeText: nat -> string)

  /** What holds of the library's tables: no `|`, and no two codes share a text up to case. */
  ghost predicate Sound(mn: Mnemonics) {
    && (forall c :: '|' !in Lower(mn.classText(c)) && '|' !in Lower(mn.typeText(c)))
    && (forall c, d :: Lower(mn.classText(c)) == Lower(mn.classText(d)) ==> c == d)
    && (forall c, d :: Lower(mn.typeText(c)) == Lower(mn.typeText(d)) ==> c == d)
  }

  function Fields(mn: Mnemonics, q: Question): (r: seq<string>) {
    [q.name, mn.classText(q.qclass), mn.typeText(q.qtype)]
  }

  function AllFields(mn: Mnemonics, questions: seq<Question>): (r: seq<string>)
    ensures |r| == 3 * |questions|
  {
    if questions == [] then [] else Fields(mn, questions[0]) + AllFields(mn, questions[1..])
  }

  /** The key of a question list: all fields lower-cased and joined with `|`. */
  function KeyOf(mn: Mnemonics, questions: seq<Question>): (r: string) {
    Lower(Join(AllFields(mn, questions), '|'))
  }

  method Key(mn: Mnemonics, questions: seq<Question>) returns (key: string)
    ensures key == KeyOf(mn, questions)
    ensures key == "" <==> questions == []
  {
    if |questions| == 0 {
      return "";
    }
    var text := "";
    var idx := 0;
    while idx < |questions|
      invariant 0 <= idx <= |questions|
      invariant idx == 0 ==> text == ""
      invariant idx > 0 ==> text == Join(AllFields(mn, questions[..idx]), '|') && '|' in text
    {
      if idx > 0 {
        text := text + "|";
      }
      var q := questions[idx];
      var part := q.name + "|" + mn.classText(q.qclass) + "|" + mn.typeText(q.qtype);
      ghost var f := Fields(mn, q);
      JoinOfThree(f[0], f[1], f[2], '|');
      assert part[|q.name|] == '|';
      AllFieldsSnoc(mn, questions, idx);
      if idx > 0 {
        JoinConcat(AllFields(mn, questions[..idx]), f, '|');
      } else {
        assert AllFields(mn, questions[..0]) + f == f;
      }
      text := text + part;
      idx := idx + 1;
    }
    assert questions[..|questions|] == questions;
    key := Lower(text);
  }

  lemma {:induction false} AllFieldsSnoc(mn: Mnemonics, questions: seq<Question>, n: nat)
    requires n < |questions|
    ensures AllFields(mn, questions[..n + 1]) == AllFields(mn, questions[..n]) + Fields(mn, questions[n])
    decreases n
  {
    if n == 0 {
      assert questions[..1][1..] == [];
    } else {
      assert questions[..n + 1][1..] == questions[1..][..n] && questions[..n][1..] == questions[1..][..n - 1];
      AllFieldsSnoc(mn, questions[1..], n - 1);
    }
  }

  predicate SameUpToCase(p: Question, q: Question) {
    Lower(p.name) == Lower(q.name) && p.qtype == q.qtype && p.qclass == q.qclass
  }

  predicate AllSameUpToCase(ps: seq<Question>, qs: seq<Question>) {
    if ps == [] || qs == [] then ps == qs
    else SameUpToCase(ps[0], qs[0]) && AllSameUpToCase(ps[1..], qs[1..])
  }

  /** Single-question keys collide only for questions equal up to case, whatever the names contain. */
  lemma SingleKeysCollideOnlyUpToCase(mn: Mnemonics, p: Question, q: Question)
    requires Sound(mn)
    ensures KeyOf(mn, [p]) == KeyOf(mn, [q]) <==> SameUpToCase(p, q)
  {
    SingleKey(mn, p);
    SingleKey(mn, q);
    if KeyOf(mn, [p]) == KeyOf(mn, [q]) {
      var pc, qc := Lower(mn.classText(p.qclass)), Lower(mn.classText(q.qclass));
      LastField(Lower(p.name) + "|" + pc, Lower(mn.typeText(p.qtype)), Lower(q.name) + "|" + qc, Lower(mn.typeText(q.qtype)));
      LastField(Lower(p.name), pc, Lower(q.name), qc);
    }
  }

  lemma SingleKey(mn: Mnemonics, q: Question)
    ensures KeyOf(mn, [q]) == Lower(q.name) + "|" + Lower(mn.classText(q.qclass)) + "|" + Lower(mn.typeText(q.qtype))
  {
    var f := Fields(mn, q);
    assert [q][1..] == [] && AllFields(mn, [q]) == f;
    JoinOfThree(f[0], f[1], f[2], '|');
    LowerConcat(f[0] + "|" + f[1] + "|", f[2]);
  }

  lemma LastField(a: string, x: string, b: string, y: string)
    requires '|' !in x && '|' !in y
    requires a + "|" + x == b + "|" + y
    ensures a == b && x == y
  {
    var s, t := a + "|" + x, b + "|" + y;
    assert s[|a|] == '|' && t[|b|] == '|';
    assert forall i :: |a| < i < |s| ==> s[i] == x[i - |a| - 1];
    assert forall i :: |b| < i < |t| ==> t[i] == y[i - |b| - 1];
    assert s[..|a|] == a && t[..|b|] == b;
    assert s[|a| + 1..] == x && t[|b| + 1..] == y;
  }

  /** With several questions a `|` inside a name can forge a field boundary. */
  lemma ListKeysCanCollide(mn: Mnemonics, p: Question, q: Question)
    ensures var forged := p.name + "|" + mn.classText(p.qclass) + "|" + mn.typeText(p.qtype) + "|" + q.name;
            KeyOf(mn, [q.(name := forged)]) == KeyOf(mn, [p, q])
  {
    var c, t := mn.classText(q.qclass), mn.typeText(q.qtype);
    var first := p.name + "|" + mn.classText(p.qclass) + "|" + mn.typeText(p.qtype);
    var forged := q.(name := first + "|" + q.name);
    assert [forged][1..] == [] && [p, q][1..] == [q] && [q][1..] == [];
    assert AllFields(mn, [forged]) == Fields(mn, forged);
    assert AllFields(mn, [p, q]) == Fields(mn, p) + Fields(mn, q);
    JoinConcat(Fields(mn, p), Fields(mn, q), '|');
    JoinOfThree(p.name, mn.classText(p.qclass), mn.typeText(p.qtype), '|');
    JoinOfThree(q.name, c, t, '|');
    JoinOfThree(forged.name, c, t, '|');
    assert first + "|" + (q.name + "|" + c + "|" + t) == first + "|" + q.name + "|" + c + "|" + t;
  }

  /** Exactly when two keys collide, whatever the questions: when their lower-cased fields, split at `|`,
      are the same. */
  lemma KeysEqualIff(mn: Mnemonics, ps: seq<Question>, qs: seq<Question>)
    ensures KeyOf(mn, ps) == KeyOf(mn, qs) <==>
            Pieces(LowerAll(AllFields(mn, ps)), '|') == Pieces(LowerAll(AllFields(mn, qs)), '|')
  {
    var a, b := LowerAll(AllFields(mn, ps)), LowerAll(AllFields(mn, qs));
    LowerJoin(AllFields(mn, ps));
    LowerJoin(AllFields(mn, qs));
    if ps != [] { JoinHasSeparator(a, '|'); }
    if qs != [] { JoinHasSeparator(b, '|'); }
    if ps != [] && qs != [] { JoinsEqualIff(a, b, '|'); }
  }

  predicate NamesAvoidBar(questions: seq<Question>) {
    forall i :: 0 <= i < |questions| ==> '|' !in Lower(questions[i].name)
  }

  /** Names without `|` make the key of any two question lists exact. */
  lemma ListKeysExactWithoutBar(mn: Mnemonics, ps: seq<Question>, qs: seq<Question>)
    requires Sound(mn) && NamesAvoidBar(ps) && NamesAvoidBar(qs) && ps != [] && qs != []
    ensures KeyOf(mn, ps) == KeyOf(mn, qs) <==> AllSameUpToCase(ps, qs)
  {
    var a, b := LowerAll(AllFields(mn, ps)), LowerAll(AllFields(mn, qs));
    LowerJoin(AllFields(mn, ps));
    LowerJoin(AllFields(mn, qs));
    FieldsAvoidBar(mn, ps);
    FieldsAvoidBar(mn, qs);
    if KeyOf(mn, ps) == KeyOf(mn, qs) {
      JoinInjective(a, b, '|');
      SameFields(mn, ps, qs);
    }
    if AllSameUpToCase(ps, qs) {
      SameQuestions(mn, ps, qs);
    }
  }

  lemma {:induction false} LowerJoin(fields: seq<string>)
    ensures Lower(Join(fields, '|')) == Join(LowerAll(fields), '|')
    decreases |fields|
  {
    if |fields| > 1 {
      LowerJoin(fields[1..]);
      assert LowerAll(fields)[1..] == LowerAll(fields[1..]);
      LowerConcat(fields[0] + "|", Join(fields[1..], '|'));
      LowerConcat(fields[0], "|");
    }
  }

  lemma {:induction false} FieldsAvoidBar(mn: Mnemonics, qs: seq<Question>)
    requires Sound(mn) && NamesAvoidBar(qs)
    ensures FreeOf(LowerAll(AllFields(mn, qs)), '|')
    decreases |qs|
  {
    if qs != [] {
      FieldsAvoidBar(mn, qs[1..]);
      HeadFields(mn, qs);
    }
  }

  lemma {:induction false} SameFields(mn: Mnemonics, ps: seq<Question>, qs: seq<Question>)
    requires Sound(mn)
    requires LowerAll(AllFields(mn, ps)) == LowerAll(AllFields(mn, qs))
    ensures AllSameUpToCase(ps, qs)
    decreases |ps|
  {
    assert 3 * |ps| == |LowerAll(AllFields(mn, ps))| == 3 * |qs|;
    if ps != [] {
      HeadFields(mn, ps);
      HeadFields(mn, qs);
      SameFields(mn, ps[1..], qs[1..]);
    }
  }

  lemma {:induction false} SameQuestions(mn: Mnemonics, ps: seq<Question>, qs: seq<Question>)
    requires AllSameUpToCase(ps, qs)
    ensures LowerAll(AllFields(mn, ps)) == LowerAll(AllFields(mn, qs))
    decreases |ps|
  {
    if ps != [] && qs != [] {
      SameQuestions(mn, ps[1..], qs[1..]);
      HeadFields(mn, ps);
      HeadFields(mn, qs);
    }
  }

  lemma HeadFields(mn: Mnemonics, qs: seq<Question>)
    requires qs != []
    ensures var f := LowerAll(AllFields(mn, qs));
            && f[..3] == [Lower(qs[0].name), Lower(mn.classText(qs[0].qclass)), Lower(mn.typeText(qs[0].qtype))]
            && f[3..] == LowerAll(AllFields(mn, qs[1..]))
            && f == f[..3] + f[3..]
            && f[0] == Lower(qs[0].name) && f[1] == Lower(mn.classText(qs[0].qclass)) && f[2] == Lower(mn.typeText(qs[0].qtype))
  {
    var f := LowerAll(AllFields(mn, qs));
    assert AllFields(mn, qs) == Fields(mn, qs[0]) + AllFields(mn, qs[1..]);
  }

  // ---- lifetimes ----

  function MinOf(current: Uint32, records: seq<Record>): (r: Uint32)
    ensures r <= current
  {
    if records == [] then current
    else
      var rest := MinOf(current, records[..|records| - 1]);
      if rest <= records[|records| - 1].ttl then rest else records[|records| - 1].ttl
  }

  lemma {:induction false} MinOfIsLeast(current: Uint32, records: seq<Record>)
    ensures forall i :: 0 <= i < |records| ==> MinOf(current, records) <= records[i].ttl
    ensures MinOf(current, records) == current || exists i :: 0 <= i < |records| && MinOf(current, records) == records[i].ttl
    decreases |records|
  {
    if records != [] {
      var init := records[..|records| - 1];
      MinOfIsLeast(current, init);
      assert forall i :: 0 <= i < |init| ==> init[i] == records[i];
      if MinOf(current, init) > records[|records| - 1].ttl {
        assert MinOf(current, records) == records[|records| - 1].ttl;
      } else if MinOf(current, init) != current {
        var i :| 0 <= i < |init| && MinOf(current, init) == init[i].ttl;
        assert MinOf(current, records) == records[i].ttl;
      }
    }
  }

  method MinTtl(currentMin: Uint32, records: seq<Record>) returns (r: Uint32)
    ensures r == MinOf(currentMin, records)
  {
    r := currentMin;
    var i := 0;
    while i < |records|
      invariant 0 <= i <= |records|
      invariant r == MinOf(currentMin, records[..i])
    {
      assert records[..i + 1][..i] == records[..i];
      r := if r <= records[i].ttl then r else records[i].ttl;
      i := i + 1;
    }
    assert records[..i] == records;
  }

  /** How long a response may be served: the least lifetime in its deciding section, capped. */
  function Lifetime(m: Message): (r: Uint32)
    ensures r <= MAX_TTL
  {
    MinOf(MAX_TTL, Deciding(m))
  }

  method ResponseTtl(m: Message) returns (ttl: Uint32)
    ensures ttl == Lifetime(m)
  {
    ttl := MinTtl(MAX_TTL, m.answer);
    if |m.answer| < 1 {
      ttl := MinTtl(MAX_TTL, m.ns);
      if |m.ns| < 1 {
        ttl := MinTtl(MAX_TTL, m.extra);
      }
    }
  }

  predicate Storable(m: Message) {
    !IsEmpty(m) && !m.truncated && Lifetime(m) > 0
  }

  /** The least of the lifetimes, and at most a week. */
  ghost predicate LeastOf(ttl: nat, records: seq<Record>) {
    && ttl <= 604800 && (forall i :: 0 <= i < |records| ==> ttl <= records[i].ttl)
    && (ttl == 604800 || exists i :: 0 <= i < |records| && records[i].ttl == ttl)
  }

  /** The lifetime of a response is the least one of its first section with records, capped at a week. */
  lemma LifetimeIsLeast(m: Message)
    ensures m.answer != [] ==> LeastOf(Lifetime(m), m.answer)
    ensures m.answer == [] && m.ns != [] ==> LeastOf(Lifetime(m), m.ns)
    ensures m.answer == [] && m.ns == [] ==> LeastOf(Lifetime(m), m.extra)
  {
    MinOfIsLeast(MAX_TTL, m.answer);
    MinOfIsLeast(MAX_TTL, m.ns);
    MinOfIsLeast(MAX_TTL, m.extra);
  }

  ghost predicate AllLive(records: seq<Record>) {
    forall i :: 0 <= i < |records| ==> records[i].ttl > 0
  }

  /** Stored are exactly the responses that are neither empty nor truncated and whose first section with
      records has no record of lifetime zero. */
  lemma StorableIff(m: Message)
    ensures m.answer != [] ==> (Storable(m) <==> !IsEmpty(m) && !m.truncated && AllLive(m.answer))
    ensures m.answer == [] && m.ns != [] ==> (Storable(m) <==> !IsEmpty(m) && !m.truncated && AllLive(m.ns))
    ensures m.answer == [] && m.ns == [] ==> (Storable(m) <==> !IsEmpty(m) && !m.truncated && AllLive(m.extra))
  {
    LifetimeIsLeast(m);
  }

  lemma {:induction false} MinOfAnonymous(current: Uint32, records: seq<Record>)
    ensures MinOf(current, Anonymous(records)) == MinOf(current, records)
    decreases |records|
  {
    if records != [] {
      var init := records[..|records| - 1];
      MinOfAnonymous(current, init);
      assert Anonymous(records)[..|init|] == Anonymous(init);
    }
  }

  /** Neither lifetime nor storability depends on what re-labelling changes. */
  lemma ContentFixesLifetime(m: Message, m': Message)
    requires Content(m) == Content(m')
    ensures Lifetime(m) == Lifetime(m')
    ensures !IsEmpty(m) && !IsEmpty(m') ==> Storable(m) == Storable(m')
  {
    MinOfAnonymous(MAX_TTL, m.answer);
    MinOfAnonymous(MAX_TTL, m'.answer);
    assert |m.answer| == |Content(m).answer| && |m'.answer| == |Content(m').answer|;
  }

  // ---- counting lifetimes down ----

  function AgeTtl(ttl: Uint32, delta: nat): (r: Uint32) {
    if ttl > delta then ttl - delta else 0
  }

  function AgedRecords(records: seq<Record>, delta: nat): (r: seq<Record>)
    ensures |r| == |records|
    ensures forall i :: 0 <= i < |r| ==> r[i] == records[i].(ttl := AgeTtl(records[i].ttl, delta))
  {
    seq(|records|, i requires 0 <= i < |records| => records[i].(ttl := AgeTtl(records[i].ttl, delta)))
  }

  function Aged(m: Message, delta: nat): (r: Message) {
    m.(answer := AgedRecords(m.answer, delta), ns := AgedRecords(m.ns, delta), extra := AgedRecords(m.extra, delta))
  }

  lemma {:induction false} AnonymousAged(records: seq<Record>, delta: nat)
    ensures Anonymous(AgedRecords(records, delta)) == AgedRecords(Anonymous(records), delta)
    decreases |records|
  {
    if records != [] {
      var init := records[..|records| - 1];
      AnonymousAged(init, delta);
      assert AgedRecords(records, delta)[..|init|] == AgedRecords(init, delta);
    }
  }

  lemma ContentFixesAgeing(m: Message, m': Message, delta: nat)
    requires Content(m) == Content(m')
    ensures Content(Aged(m, delta)) == Content(Aged(m', delta))
  {
    AnonymousAged(m.answer, delta);
    AnonymousAged(m'.answer, delta);
  }

  method AdjustTtls(timeDelta: Uint32, records: array<Record>)
    modifies records
    ensures records[..] == AgedRecords(old(records[..]), timeDelta)
  {
    var i := 0;
    while i < records.Length
      invariant 0 <= i <= records.Length
      invariant forall k :: 0 <= k < i ==> records[k] == old(records[k]).(ttl := AgeTtl(old(records[k]).ttl, timeDelta))
      invariant forall k :: i <= k < records.Length ==> records[k] == old(records[k])
    {
      if records[i].ttl > timeDelta {
        records[i] := records[i].(ttl := records[i].ttl - timeDelta);
      } else {
        records[i] := records[i].(ttl := 0);
      }
      i := i + 1;
    }
  }

  /** A deep copy whose lifetimes are counted down in place; the stored message keeps its own. */
  method AgedCopy(m: Message, delta: Uint32) returns (r: Message)
    ensures r == Aged(m, delta)
  {
    var answer := new Record[|m.answer|](i requires 0 <= i < |m.answer| => m.answer[i]);
    var ns := new Record[|m.ns|](i requires 0 <= i < |m.ns| => m.ns[i]);
    var extra := new Record[|m.extra|](i requires 0 <= i < |m.extra| => m.extra[i]);
    assert answer[..] == m.answer && ns[..] == m.ns && extra[..] == m.extra;
    AdjustTtls(delta, answer);
    AdjustTtls(delta, ns);
    AdjustTtls(delta, extra);
    r := m.(answer := answer[..], ns := ns[..], extra := extra[..]);
  }

  // ---- the backing maps and their history ----

  datatype Envelope = Envelope(message: Message, time: nat, ttl: Uint32)

  type Backers = map<string, map<string, Envelope>>

  datatype Event = Stored(partition: string, key: string, envelope: Envelope) | Cleared

  function Lookup(b: Backers, partition: string, key: string): (r: Option<Envelope>) {
    if partition in b && key in b[partition] then Some(b[partition][key]) else None
  }

  function Put(b: Backers, partition: string, key: string, e: Envelope): (r: Backers)
    ensures forall p, k :: Lookup(r, p, k) == if p == partition && k == key then Some(e) else Lookup(b, p, k)
  {
    b[partition := (if partition in b then b[partition] else map[])[key := e]]
  }

  function Flushed(b: Backers): (r: Backers)
    ensures forall p, k :: Lookup(r, p, k) == None
  {
    map p | p in b :: map[]
  }

  /** An item is served up to and including the instant its lifetime ends. */
  predicate Expired(e: Envelope, now: nat) {
    now > e.time + e.ttl * SECOND
  }

  /** The janitor of the backing cache: expired items go, everything else stays. */
  function Scraped(b: Backers, now: nat): (r: Backers)
    ensures forall p, k ::
      (Lookup(r, p, k) ==
       if Lookup(b, p, k).Some? && !Expired(Lookup(b, p, k).value, now) then Lookup(b, p, k) else None)
  {
    map p | p in b :: map k | k in b[p] && !Expired(b[p][k], now) :: b[p][k]
  }

  /** The last accepted store for a partition and key since the last clear. */
  function Latest(log: seq<Event>, partition: string, key: string): (r: Option<Envelope>) {
    if log == [] then None
    else match log[|log| - 1]
      case Cleared => None
      case Stored(p, k, e) => if p == partition && k == key then Some(e) else Latest(log[..|log| - 1], partition, key)
  }

  ghost predicate Faithful(b: Backers, log: seq<Event>, now: nat) {
    forall p, k :: FaithfulAt(b, log, now, p, k)
  }

  ghost predicate FaithfulAt(b: Backers, log: seq<Event>, now: nat, p: string, k: string) {
    && (Lookup(b, p, k).Some? ==> Latest(log, p, k) == Lookup(b, p, k) && Sealed(Lookup(b, p, k).value, now))
    && (Latest(log, p, k).Some? && !Expired(Latest(log, p, k).value, now) ==> Lookup(b, p, k) == Latest(log, p, k))
  }

  predicate Sealed(e: Envelope, now: nat) {
    e.time <= now && e.ttl == Lifetime(e.message) && Storable(e.message)
  }

  /** What a lookup at `now` serves: the unexpired item, its lifetimes counted down. */
  function Served(b: Backers, partition: string, key: string, id: nat, now: nat): (r: Option<Message>) {
    match Lookup(b, partition, key)
    case None => None
    case Some(e) =>
      if Expired(e, now) || now < e.time then None
      else Some(Aged(e.message, (now - e.time) / SECOND).(id := id))
  }

  class ResponseCache {
    const names: Mnemonics
    var backers: Backers
    ghost var log: seq<Event>

    constructor (names: Mnemonics)
      ensures this.names == names && backers == map[] && log == []
    {
      this.names := names;
      backers := map[];
      log := [];
    }

    ghost predicate Valid(now: nat)
      reads this
    {
      Faithful(backers, log, now)
    }

    method Store(partition: string, request: Request, response: Option<Message>, now: nat) returns (stored: bool)
      requires Valid(now)
      modifies this
      ensures Valid(now)
      ensures stored <==> response.Some? && Storable(response.value) && request.questions != []
      ensures !stored ==> backers == old(backers) && log == old(log)
      ensures stored ==>
        var e := Envelope(response.value, now, Lifetime(response.value));
        && backers == Put(old(backers), partition, KeyOf(names, request.questions), e)
        && log == old(log) + [Event.Stored(partition, KeyOf(names, request.questions), e)]
    {
      if IsEmptyResponse(response) || response.value.truncated {
        return false;
      }
      var m := response.value;
      var ttl := ResponseTtl(m);
      if ttl > 0 {
        var key := Key(names, request.questions);
        if "" == key {
          return false;
        }
        if partition !in backers {
          backers := backers[partition := map[]];
        }
        var e := Envelope(m, now, ttl);
        assert backers[partition := backers[partition][key := e]] == Put(old(backers), partition, key, e);
        StoreKeepsFaithful(old(backers), log, now, partition, key, e);
        backers := backers[partition := backers[partition][key := e]];
        log := log + [Event.Stored(partition, key, e)];
        return true;
      }
      return false;
    }

    method Query(partition: string, request: Request, now: nat) returns (r: Option<Message>)
      requires Valid(now)
      ensures request.questions != [] ==> r == Served(backers, partition, KeyOf(names, request.questions), request.id, now)
      ensures request.questions == [] ==> r == None
      ensures request.questions != [] ==>
        var latest := Latest(log, partition, KeyOf(names, request.questions));
        r.Some? <==> latest.Some? && !Expired(latest.value, now)
    {
      var key := Key(names, request.questions);
      if "" == key {
        return None;
      }
      assert FaithfulAt(backers, log, now, partition, key);
      if partition !in backers {
        return None;
      }
      if key !in backers[partition] || Expired(backers[partition][key], now) {
        return None;
      }
      var envelope := backers[partition][key];
      if IsEmpty(envelope.message) {
        return None;
      }
      var delta := now - envelope.time;
      // the conversion to 32 bits cannot overflow: the item is at most MAX_TTL seconds old
      ElapsedFits(envelope, now);
      var secondDelta: Uint32 := delta / SECOND;
      var messageCopy := AgedCopy(envelope.message, secondDelta);
      return Some(messageCopy.(id := request.id));
    }

    method Scrape(now: nat)
      requires Valid(now)
      modifies this`backers
      ensures Valid(now) && backers == Scraped(old(backers), now)
    {
      ScrapeKeepsFaithful(backers, log, now);
      backers := Scraped(backers, now);
    }

    method Clear(now: nat)
      requires Valid(now)
      modifies this
      ensures Valid(now) && backers == Flushed(old(backers)) && log == old(log) + [Cleared]
    {
      ClearKeepsFaithful(backers, log, now);
      backers := map p | p in backers :: map[];
      log := log + [Cleared];
    }
  }

  lemma ElapsedFits(e: Envelope, now: nat)
    requires Sealed(e, now) && !Expired(e, now)
    ensures (now - e.time) / SECOND <= e.ttl <= MAX_TTL
  {
  }

  lemma StoreKeepsFaithful(b: Backers, log: seq<Event>, now: nat, partition: string, key: string, e: Envelope)
    requires Faithful(b, log, now) && Sealed(e, now) && e.time == now
    ensures Faithful(Put(b, partition, key, e), log + [Event.Stored(partition, key, e)], now)
  {
    var log' := log + [Event.Stored(partition, key, e)];
    assert log'[..|log|] == log;
    forall p, k ensures FaithfulAt(Put(b, partition, key, e), log', now, p, k) {
      assert FaithfulAt(b, log, now, p, k);
    }
  }

  lemma ScrapeKeepsFaithful(b: Backers, log: seq<Event>, now: nat)
    requires Faithful(b, log, now)
    ensures Faithful(Scraped(b, now), log, now)
  {
    forall p, k ensures FaithfulAt(Scraped(b, now), log, now, p, k) {
      assert FaithfulAt(b, log, now, p, k);
    }
  }

  lemma ClearKeepsFaithful(b: Backers, log: seq<Event>, now: nat)
    requires Faithful(b, log, now)
    ensures Faithful(Flushed(b), log + [Cleared], now)
  {
    forall p, k ensures FaithfulAt(Flushed(b), log + [Cleared], now, p, k) {
    }
  }

  lemma TickKeepsFaithful(b: Backers, log: seq<Event>, now: nat, later: nat)
    requires Faithful(b, log, now) && now <= later
    ensures Faithful(b, log, later)
  {
    forall p, k ensures FaithfulAt(b, log, later, p, k) {
      assert FaithfulAt(b, log, now, p, k);
    }
  }

  // ---- every run of the cache ----

  datatype Op =
    | DoStore(partition: string, request: Request, response: Option<Message>)
    | DoClear
    | DoScrape
    | DoTick(elapsed: nat)

  datatype Run = Run(backers: Backers, log: seq<Event>, now: nat)

  function Apply(mn: Mnemonics, s: Run, op: Op): (r: Run) {
    match op
    case DoStore(p, request, response) =>
      if response.Some? && Storable(response.value) && request.questions != [] then
        var e := Envelope(response.value, s.now, Lifetime(response.value));
        var key := KeyOf(mn, request.questions);
        s.(backers := Put(s.backers, p, key, e), log := s.log + [Event.Stored(p, key, e)])
      else s
    case DoClear => s.(backers := Flushed(s.backers), log := s.log + [Cleared])
    case DoScrape => s.(backers := Scraped(s.backers, s.now))
    case DoTick(n) => s.(now := s.now + n)
  }

  function ApplyAll(mn: Mnemonics, s: Run, ops: seq<Op>): (r: Run) {
    if ops == [] then s else Apply(mn, ApplyAll(mn, s, ops[..|ops| - 1]), ops[|ops| - 1])
  }

  lemma {:induction false} EveryRunIsFaithful(mn: Mnemonics, ops: seq<Op>, start: nat)
    ensures var s := ApplyAll(mn, Run(map[], [], start), ops);
            Faithful(s.backers, s.log, s.now)
    decreases |ops|
  {
    if ops == [] {
      forall p, k ensures FaithfulAt(map[], [], start, p, k) {}
    } else {
      EveryRunIsFaithful(mn, ops[..|ops| - 1], start);
      var s := ApplyAll(mn, Run(map[], [], start), ops[..|ops| - 1]);
      match ops[|ops| - 1]
      case DoStore(p, request, response) =>
        if response.Some? && Storable(response.value) && request.questions != [] {
          StoreKeepsFaithful(s.backers, s.log, s.now, p, KeyOf(mn, request.questions),
                             Envelope(response.value, s.now, Lifetime(response.value)));
        }
      case DoClear => ClearKeepsFaithful(s.backers, s.log, s.now);
      case DoScrape => ScrapeKeepsFaithful(s.backers, s.log, s.now);
      case DoTick(n) => TickKeepsFaithful(s.backers, s.log, s.now, s.now + n);
    }
  }

  // ---- the cache as a timed map ----

  function TimeAt(ops: seq<Op>, start: nat): (r: nat) {
    if ops == [] then start else TimeAt(ops[..|ops| - 1], start) + if ops[|ops| - 1].DoTick? then ops[|ops| - 1].elapsed else 0
  }

  /** The latest storable response for a partition and key since the last clear, and when it came. */
  function LatestStore(mn: Mnemonics, ops: seq<Op>, start: nat, partition: string, key: string): (r: Option<(Message, nat)>) {
    if ops == [] then None
    else
      var init := ops[..|ops| - 1];
      match ops[|ops| - 1]
      case DoStore(p, request, response) =>
        if p == partition && request.questions != [] && KeyOf(mn, request.questions) == key && response.Some? && Storable(response.value)
        then Some((response.value, TimeAt(init, start)))
        else LatestStore(mn, init, start, partition, key)
      case DoClear => None
      case _ => LatestStore(mn, init, start, partition, key)
  }

  lemma {:induction false} LogFollowsTheRun(mn: Mnemonics, ops: seq<Op>, start: nat, partition: string, key: string)
    ensures var s, latest := ApplyAll(mn, Run(map[], [], start), ops), LatestStore(mn, ops, start, partition, key);
            && s.now == TimeAt(ops, start)
            && Latest(s.log, partition, key) ==
               if latest.None? then None else Some(Envelope(latest.value.0, latest.value.1, Lifetime(latest.value.0)))
    decreases |ops|
  {
    if ops != [] {
      var init := ops[..|ops| - 1];
      LogFollowsTheRun(mn, init, start, partition, key);
      var s := ApplyAll(mn, Run(map[], [], start), init);
      match ops[|ops| - 1]
      case DoStore(p, request, response) =>
        if response.Some? && Storable(response.value) && request.questions != [] {
          var e := Event.Stored(p, KeyOf(mn, request.questions), Envelope(response.value, s.now, Lifetime(response.value)));
          assert (s.log + [e])[..|s.log|] == s.log;
        }
      case _ =>
    }
  }

  /** The same records, each with its lifetime counted down. */
  ghost predicate CountedDown(stored: seq<Record>, served: seq<Record>, elapsed: nat) {
    && |served| == |stored|
    && forall i :: 0 <= i < |stored| ==>
         && served[i].name == stored[i].name && served[i].rrtype == stored[i].rrtype && served[i].value == stored[i].value
         && served[i].ttl == if stored[i].ttl > elapsed then stored[i].ttl - elapsed else 0
  }

  /** The stored response under the identity of the request, all three sections counted down. */
  ghost predicate ServedFrom(stored: Message, served: Message, id: nat, elapsed: nat) {
    && served.id == id && served.rcode == stored.rcode && served.truncated == stored.truncated && served.questions == stored.questions
    && CountedDown(stored.answer, served.answer, elapsed) && CountedDown(stored.ns, served.ns, elapsed)
    && CountedDown(stored.extra, served.extra, elapsed)
  }

  /** No record has run out. */
  ghost predicate NoneSpent(stored: seq<Record>, served: seq<Record>, elapsed: nat) {
    |served| == |stored| && forall i :: 0 <= i < |stored| ==> served[i].ttl + elapsed == stored[i].ttl
  }

  /** What an item serves while it lives. */
  lemma ItemServes(e: Envelope, id: nat, now: nat)
    requires Sealed(e, now) && !Expired(e, now)
    ensures var elapsed := (now - e.time) / 1_000_000_000;
            var served := Aged(e.message, elapsed).(id := id);
            && 0 <= elapsed <= 604800 && ServedFrom(e.message, served, id, elapsed)
            && NoneSpent(Deciding(e.message), Deciding(served), elapsed)
  {
    ElapsedFits(e, now);
    MinOfIsLeast(MAX_TTL, Deciding(e.message));
  }

  lemma LookupHits(b: Backers, log: seq<Event>, now: nat, partition: string, key: string, id: nat)
    requires FaithfulAt(b, log, now, partition, key)
    ensures var latest, served := Latest(log, partition, key), Served(b, partition, key, id, now);
            && (served.Some? ==> latest.Some? && latest.value.time <= now && latest == Lookup(b, partition, key))
            && (latest.Some? && latest.value.time <= now ==> (served.Some? <==> now <= latest.value.time + latest.value.ttl * 1_000_000_000))
  {
  }

  lemma LookupServes(b: Backers, log: seq<Event>, now: nat, partition: string, key: string, id: nat)
    requires FaithfulAt(b, log, now, partition, key) && Served(b, partition, key, id, now).Some?
    ensures var latest, served := Latest(log, partition, key), Served(b, partition, key, id, now);
            && latest.Some? && latest.value.time <= now
            && var elapsed := (now - latest.value.time) / 1_000_000_000;
               && 0 <= elapsed <= 604800 && ServedFrom(latest.value.message, served.value, id, elapsed)
               && NoneSpent(Deciding(latest.value.message), Deciding(served.value), elapsed)
  {
    LookupHits(b, log, now, partition, key, id);
    ItemServes(Lookup(b, partition, key).value, id, now);
  }

  lemma {:induction false} StoredInThePast(mn: Mnemonics, ops: seq<Op>, start: nat, partition: string, key: string)
    ensures var latest := LatestStore(mn, ops, start, partition, key); latest.Some? ==> latest.value.1 <= TimeAt(ops, start)
    decreases |ops|
  {
    if ops != [] { StoredInThePast(mn, ops[..|ops| - 1], start, partition, key); }
  }

  /** The cache is a timed map: over every run a lookup hits exactly when the latest storable response of its
      partition and key since the last clear is no older than its lifetime; it then serves that response,
      counted down by the elapsed whole seconds, and no record of the section that set the lifetime has
      run out. */
  lemma TimedMap(mn: Mnemonics, ops: seq<Op>, start: nat, partition: string, request: Request)
    requires request.questions != []
    ensures var s := ApplyAll(mn, Run(map[], [], start), ops);
            var key := KeyOf(mn, request.questions);
            var latest, now := LatestStore(mn, ops, start, partition, key), TimeAt(ops, start);
            var served := Served(s.backers, partition, key, request.id, s.now);
            && s.now == now
            && (served.Some? <==> latest.Some? && now <= latest.value.1 + Lifetime(latest.value.0) * 1_000_000_000)
            && (served.Some? ==>
                 var elapsed := (now - latest.value.1) / 1_000_000_000;
                 && 0 <= elapsed <= 604800 && ServedFrom(latest.value.0, served.value, request.id, elapsed)
                 && NoneSpent(Deciding(latest.value.0), Deciding(served.value), elapsed))
  {
    var s := ApplyAll(mn, Run(map[], [], start), ops);
    var key := KeyOf(mn, request.questions);
    EveryRunIsFaithful(mn, ops, start);
    LogFollowsTheRun(mn, ops, start, partition, key);
    StoredInThePast(mn, ops, start, partition, key);
    assert FaithfulAt(s.backers, s.log, s.now, partition, key);
    LookupHits(s.backers, s.log, s.now, partition, key, request.id);
    if Served(s.backers, partition, key, request.id, s.now).Some? {
      LookupServes(s.backers, s.log, s.now, partition, key, request.id);
    }
  }

  /** Reading never disturbs later reads: what is served at a later instant is what was served
      before, aged by the difference of whole seconds. */
  lemma ReadsNeverDrift(b: Backers, partition: string, key: string, id: nat, t1: nat, t2: nat)
    requires t1 <= t2 && Served(b, partition, key, id, t2).Some? && Served(b, partition, key, id, t1).Some?
    ensures var e := Lookup(b, partition, key).value;
            Served(b, partition, key, id, t2).value ==
            Aged(Served(b, partition, key, id, t1).value, (t2 - e.time) / SECOND - (t1 - e.time) / SECOND)
  {
    var e := Lookup(b, partition, key).value;
    var d1, d2 := (t1 - e.time) / SECOND, (t2 - e.time) / SECOND;
    AgedTwice(e.message.answer, d1, d2 - d1);
    AgedTwice(e.message.ns, d1, d2 - d1);
    AgedTwice(e.message.extra, d1, d2 - d1);
  }

  lemma AgedTwice(records: seq<Record>, d: nat, d': nat)
    ensures AgedRecords(AgedRecords(records, d), d') == AgedRecords(records, d + d')
  {
  }
}
