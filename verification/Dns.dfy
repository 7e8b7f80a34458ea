/** DNS messages as values, and what counts as an empty response (util/dns.go). */
module Dns {
  import opened Text

  type Uint32 = x: nat | x < 0x1_0000_0000

  const RCODE_SUCCESS := 0
  const RCODE_NAME_ERROR := 3
  const TYPE_NONE := 0
  const TYPE_CNAME := 5

  datatype Question = Question(name: string, qtype: nat, qclass: nat)

  datatype Request = Request(id: nat, questions: seq<Question>)

  /** A record; `value` is its payload as text, empty when the payload is missing. */
  datatype Record = Record(name: string, rrtype: nat, ttl: Uint32, value: string)

  datatype Message = Message(id: nat, rcode: nat, truncated: bool, questions: seq<Question>,
                             answer: seq<Record>, ns: seq<Record>, extra: seq<Record>)

  predicate Substantive(records: seq<Record>) {
    records != [] && ((records[0].rrtype != TYPE_NONE && records[0].value != "") || Substantive(records[1..]))
  }

  /** The section that IsEmptyResponse and the cache's lifetime look at: the first one with records. */
  function Deciding(m: Message): (r: seq<Record>) {
    if |m.answer| > 0 then m.answer else if |m.ns| > 0 then m.ns else m.extra
  }

  predicate IsEmpty(m: Message) {
    m.rcode == RCODE_NAME_ERROR || !Substantive(Deciding(m))
  }

  predicate IsEmptyResponse(m: Option<Message>) {
    m.None? || IsEmpty(m.value)
  }

  /** A record with a type and a payload. */
  predicate HasContent(record: Record) {
    record.rrtype != 0 && record.value != ""
  }

  ghost predicate SomeContent(records: seq<Record>) {
    exists i :: 0 <= i < |records| && HasContent(records[i])
  }

  lemma {:induction false} SubstantiveIff(records: seq<Record>)
    ensures Substantive(records) <==> SomeContent(records)
    decreases |records|
  {
    if records != [] {
      SubstantiveIff(records[1..]);
      assert forall i :: 0 <= i < |records| - 1 ==> records[1..][i] == records[i + 1];
      if SomeContent(records) {
        var i :| 0 <= i < |records| && HasContent(records[i]);
        if i > 0 { assert HasContent(records[1..][i - 1]); }
      }
      if SomeContent(records[1..]) {
        var i :| 0 <= i < |records[1..]| && HasContent(records[1..][i]);
        assert HasContent(records[i + 1]);
      }
    }
  }

  /** The first section with records decides alone whether a response is empty; a name error always is. */
  lemma EmptyIff(m: Message)
    ensures m.rcode == 3 ==> IsEmpty(m)
    ensures m.rcode != 3 && m.answer != [] ==> (IsEmpty(m) <==> !SomeContent(m.answer))
    ensures m.rcode != 3 && m.answer == [] && m.ns != [] ==> (IsEmpty(m) <==> !SomeContent(m.ns))
    ensures m.rcode != 3 && m.answer == [] && m.ns == [] ==> (IsEmpty(m) <==> !SomeContent(m.extra))
  {
    SubstantiveIff(m.answer);
    SubstantiveIff(m.ns);
    SubstantiveIff(m.extra);
  }

  function Renamed(records: seq<Record>, name: string): (r: seq<Record>)
    ensures |r| == |records|
    ensures forall i :: 0 <= i < |r| ==> r[i] == records[i].(name := name)
  {
    seq(|records|, i requires 0 <= i < |records| => records[i].(name := name))
  }

  /** dns.Msg.SetReply: the reply takes over identity and (first) question of the request. */
  function SetReply(m: Message, request: Request): (r: Message) {
    m.(id := request.id, rcode := RCODE_SUCCESS,
       questions := if request.questions == [] then m.questions else [request.questions[0]])
  }

  /** A response re-labelled as the answer to `request`: every answer owned by the asked name. */
  function Relabelled(m: Message, request: Request): (r: Message)
    requires request.questions != []
  {
    SetReply(m.(answer := Renamed(m.answer, request.questions[0].name)), request)
  }

  /** The records with their owner names blanked. */
  function Anonymous(records: seq<Record>): (r: seq<Record>)
    ensures |r| == |records|
  {
    if records == [] then []
    else Anonymous(records[..|records| - 1]) + [records[|records| - 1].(name := "")]
  }

  lemma {:induction false} AnonymousRenamed(records: seq<Record>, name: string)
    ensures Anonymous(Renamed(records, name)) == Anonymous(records)
    decreases |records|
  {
    if records != [] {
      var init := records[..|records| - 1];
      assert Renamed(records, name)[..|init|] == Renamed(init, name);
      AnonymousRenamed(init, name);
    }
  }

  /** What of a message survives re-labelling: records, types, lifetimes and payloads. */
  function Content(m: Message): (r: Message) {
    m.(id := 0, rcode := 0, questions := [], answer := Anonymous(m.answer))
  }

  lemma RelabelKeeps(m: Message, request: Request)
    requires request.questions != [] && !IsEmpty(m)
    ensures !IsEmpty(Relabelled(m, request))
    ensures Content(Relabelled(m, request)) == Content(m)
  {
    SubstantiveRenamed(m.answer, request.questions[0].name);
    AnonymousRenamed(m.answer, request.questions[0].name);
  }

  lemma {:induction false} SubstantiveRenamed(records: seq<Record>, name: string)
    ensures Substantive(Renamed(records, name)) == Substantive(records)
    decreases |records|
  {
    if records != [] {
      assert Renamed(records, name)[1..] == Renamed(records[1..], name);
      SubstantiveRenamed(records[1..], name);
    }
  }

  /** A re-labelled response field by field: the request's identity and first question, no error code, every
      answer owned by the asked name, and nothing else changed. */
  lemma RelabelledFields(m: Message, request: Request)
    requires request.questions != []
    ensures var r := Relabelled(m, request);
            && r.id == request.id && r.rcode == 0 && r.truncated == m.truncated && r.questions == [request.questions[0]]
            && r.ns == m.ns && r.extra == m.extra && |r.answer| == |m.answer|
            && forall i :: 0 <= i < |m.answer| ==>
                 && r.answer[i].name == request.questions[0].name && r.answer[i].rrtype == m.answer[i].rrtype
                 && r.answer[i].ttl == m.answer[i].ttl && r.answer[i].value == m.answer[i].value
  {
  }
}
