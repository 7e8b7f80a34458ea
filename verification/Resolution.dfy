/** Resolution over a graph of resolvers (resolver/resolver.go, resolver_map.go, resolver_source.go,
    multi_source.go, loadbalancing_source.go).  A source may name another resolver, so the graph may
    be cyclic; a request carries a context that remembers the resolvers already entered.

    This module is the specification: each function is one Go function, from the state before to the
    state after.  The methods in `ResolverMethods` are proved equal to these functions. */
module Resolution {
  import opened Text
  import opened Domains
  import opened Dns
  import opened Cache

  type Name = string

  /** Forwarding leaves ask the outside (DNS, system); authoritative ones hold records (hosts, zone)
      and mark the context as stored, so that their answers are never cached. */
  datatype LeafKind = Forwarding | Authoritative

  datatype Source =
    | Leaf(id: string, kind: LeafKind)
    | Multi(name: string, sources: seq<Source>)
    | Balanced(name: string, sources: seq<Source>)
    | File(upstream: Option<Source>)
    | Reference(resolver: Name)

  datatype Resolver = Resolver(name: Name, domains: seq<string>, skip: seq<string>,
                               search: seq<string>, sources: seq<Source>)

  datatype Outcome = Nothing | Failed | Reply(message: Message)

  predicate Answered(o: Outcome) {
    o.Reply? && !IsEmpty(o.message)
  }

  datatype Arrival = Arrival(outcome: Outcome, elapsed: nat)

  /** Everything fixed while requests run.  `upstream` gives the outcome of the n-th leaf call of the
      whole history and the time it takes, so leaves may answer differently every time. */
  datatype Net = Net(resolvers: map<Name, Resolver>, caching: bool, names: Mnemonics,
                     glob: (string, string) -> bool, upstream: (string, Request, nat) -> Arrival)

  ghost predicate WellFormed(net: Net) {
    "" !in net.resolvers && forall n :: n in net.resolvers ==> net.resolvers[n].name == n
  }

  /** `current` is the resolver whose sources are being asked; it is kept for the record of calls only. */
  datatype Context = Context(visited: seq<Name>, stored: bool, cached: bool, resolverUsed: Name, current: Name)

  datatype Call = Call(leaf: string, kind: LeafKind, request: Request, at: nat, outcome: Outcome, caller: Name)

  /** The part of the state that outlives a request; `calls` and `log` are its history. */
  datatype World = World(now: nat, backers: Backers, log: seq<Event>, cursors: map<string, nat>, calls: seq<Call>)

  datatype State = State(ctx: Context, world: World)

  datatype Result = Result(outcome: Outcome, state: State)

  const FRESH := Context([], false, false, "", "")

  function Unvisited(net: Net, visited: seq<Name>): (r: set<Name>) {
    set n | n in net.resolvers && n !in visited
  }

  predicate NoDuplicates(names: seq<Name>) {
    forall i, j :: 0 <= i < j < |names| ==> names[i] != names[j]
  }

  /** Visited names are only added, each of them a resolver, and never one that is already there. */
  predicate Grows(net: Net, before: seq<Name>, after: seq<Name>) {
    && before <= after
    && (forall n :: n in after ==> n in before || n in net.resolvers)
    && (NoDuplicates(before) ==> NoDuplicates(after))
  }

  function CallLeaf(net: Net, leaf: string, kind: LeafKind, request: Request, s: State): (r: Result) {
    var a := net.upstream(leaf, request, |s.world.calls|);
    var now := s.world.now + a.elapsed;
    var world := s.world.(now := now, calls := s.world.calls + [Call(leaf, kind, request, now, a.outcome, s.ctx.current)]);
    var ctx := if kind.Authoritative? && Answered(a.outcome) then s.ctx.(stored := true) else s.ctx;
    Result(a.outcome, State(ctx, world))
  }

  /** The pick after `i` among `n` sources. */
  function RoundRobin(i: nat, n: nat): (r: nat)
    requires i < n
    ensures r < n
  {
    if i + 1 == n then 0 else i + 1
  }

  /** The next pick of a balancer over `n` sources. */
  function Cursor(cursors: map<string, nat>, name: string, n: nat): (r: nat)
    requires n > 0
  {
    if name in cursors && cursors[name] < n then cursors[name] else 0
  }

  function Advanced(cursors: map<string, nat>, name: string, n: nat): (r: map<string, nat>)
    requires n > 0
  {
    cursors[name := RoundRobin(Cursor(cursors, name, n), n)]
  }

  function Advance(s: State, name: string, n: nat): (r: State)
    requires n > 0
  {
    s.(world := s.world.(cursors := Advanced(s.world.cursors, name, n)))
  }

  function AskSource(net: Net, source: Source, request: Request, s: State): (r: Result)
    requires WellFormed(net)
    ensures Grows(net, s.ctx.visited, r.state.ctx.visited)
    decreases Unvisited(net, s.ctx.visited), source, 2
  {
    match source
    case Leaf(id, kind) => CallLeaf(net, id, kind, request, s)
    case Multi(_, sources) => AskMulti(net, sources, request, s)
    case Balanced(name, sources) => AskBalanced(net, name, sources, |sources| + 1, request, s)
    case File(upstream) => if upstream.Some? then AskSource(net, upstream.value, request, s) else Result(Nothing, s)
    case Reference(name) =>
      if name in s.ctx.visited then Result(Nothing, s) else AskNamed(net, name, request, s)
  }

  function AskMulti(net: Net, sources: seq<Source>, request: Request, s: State): (r: Result)
    requires WellFormed(net)
    ensures Grows(net, s.ctx.visited, r.state.ctx.visited)
    decreases Unvisited(net, s.ctx.visited), sources, 0
  {
    if sources == [] then Result(Failed, s)
    else
      var r := AskSource(net, sources[0], request, s);
      if Answered(r.outcome) then r else AskMulti(net, sources[1..], request, r.state)
  }

  /** `tries` is the number of picks left; the source starts with one more than it has sources. */
  function AskBalanced(net: Net, name: string, sources: seq<Source>, tries: nat, request: Request, s: State): (r: Result)
    requires WellFormed(net)
    ensures Grows(net, s.ctx.visited, r.state.ctx.visited)
    decreases Unvisited(net, s.ctx.visited), sources, tries
  {
    if tries == 0 || sources == [] then Result(Failed, s)
    else
      var r := AskPicked(net, name, sources, request, s);
      if Answered(r.outcome) then r else AskBalanced(net, name, sources, tries - 1, request, r.state)
  }

  /** One turn of a balancer: the router hands out the source at its cursor and moves on. */
  function AskPicked(net: Net, name: string, sources: seq<Source>, request: Request, s: State): (r: Result)
    requires WellFormed(net) && sources != []
    ensures Grows(net, s.ctx.visited, r.state.ctx.visited)
    decreases Unvisited(net, s.ctx.visited), sources, 0
  {
    AskSource(net, sources[Cursor(s.world.cursors, name, |sources|)], request, Advance(s, name, |sources|))
  }

  lemma BalancedStep(net: Net, name: string, sources: seq<Source>, tries: nat, request: Request, s: State, r: Result)
    requires WellFormed(net) && tries > 0 && sources != [] && r == AskPicked(net, name, sources, request, s)
    ensures Unvisited(net, r.state.ctx.visited) <= Unvisited(net, s.ctx.visited)
    ensures AskBalanced(net, name, sources, tries, request, s) ==
            if Answered(r.outcome) then r else AskBalanced(net, name, sources, tries - 1, request, r.state)
  {
  }

  /** resolver.answer: the first source with an answer; it also settles who did the work. */
  function AskSources(net: Net, owner: Name, sources: seq<Source>, request: Request, s: State): (r: Result)
    requires WellFormed(net)
    ensures Grows(net, s.ctx.visited, r.state.ctx.visited)
    ensures Answered(r.outcome) || r.outcome.Nothing?
    decreases Unvisited(net, s.ctx.visited), sources, 0
  {
    if sources == [] then Result(Nothing, s)
    else
      var r := AskSource(net, sources[0], request, s);
      if Answered(r.outcome) then Result(r.outcome, Credit(r.state, owner))
      else AskSources(net, owner, sources[1..], request, r.state)
  }

  function Credit(s: State, owner: Name): (r: State) {
    if s.ctx.resolverUsed == "" then s.(ctx := s.ctx.(resolverUsed := owner)) else s
  }

  /** The name has no second label ("db." or "db", but not "db.local."). */
  predicate Searchable(name: string) {
    && name != "" && name != "."
    && ('.' in name ==> var i := IndexOf(name, '.'); i + 1 >= |name| || name[i + 1] == '.')
  }

  function SearchRequest(request: Request, domain: string): (r: Request)
    requires request.questions != []
    ensures r.questions != []
  {
    request.(questions := request.questions[0 := request.questions[0].(name := Fqdn(Fqdn(request.questions[0].name) + domain))])
  }

  /** searchDomains: the question is retried below every search domain, and an answer comes back
      under the name that was asked. */
  function Search(net: Net, owner: Name, sources: seq<Source>, domains: seq<string>, request: Request, s: State): (r: Result)
    requires WellFormed(net) && request.questions != []
    ensures Grows(net, s.ctx.visited, r.state.ctx.visited)
    ensures Answered(r.outcome) || r.outcome.Nothing?
    decreases Unvisited(net, s.ctx.visited), sources, 1, |domains|
  {
    if domains == [] then Result(Nothing, s)
    else if domains[0] == "" then Search(net, owner, sources, domains[1..], request, s)
    else
      var r := AskSources(net, owner, sources, SearchRequest(request, domains[0]), s);
      if Answered(r.outcome) then
        RelabelKeeps(r.outcome.message, request);
        Result(Reply(Relabelled(r.outcome.message, request)), r.state)
      else Search(net, owner, sources, domains[1..], request, r.state)
  }

  lemma SearchStep(net: Net, owner: Name, sources: seq<Source>, domains: seq<string>, i: nat, request: Request, s: State)
    requires WellFormed(net) && request.questions != [] && i < |domains|
    ensures domains[i] == "" ==>
      Search(net, owner, sources, domains[i..], request, s) == Search(net, owner, sources, domains[i + 1..], request, s)
    ensures domains[i] != "" ==>
      var r := AskSources(net, owner, sources, SearchRequest(request, domains[i]), s);
      Search(net, owner, sources, domains[i..], request, s) ==
      if Answered(r.outcome) then Result(Reply(Relabelled(r.outcome.message, request)), r.state)
      else Search(net, owner, sources, domains[i + 1..], request, r.state)
  {
    assert domains[i..][1..] == domains[i + 1..];
  }

  /** Does the resolver take this name at all? */
  predicate Accepts(net: Net, resolver: Resolver, name: string) {
    && (|resolver.domains| > 0 ==> Matches(net.glob, name, resolver.domains))
    && !(|resolver.skip| > 0 && Matches(net.glob, name, resolver.skip))
  }

  function CacheHit(net: Net, owner: Name, request: Request, w: World): (r: Option<Message>) {
    if net.caching && request.questions != [] then
      var m := Served(w.backers, owner, KeyOf(net.names, request.questions), request.id, w.now);
      if m.Some? && !IsEmpty(m.value) then m else None
    else None
  }

  /** The end of resolver.Answer: an answer nobody has stored yet goes into this resolver's partition. */
  function StoreAnswer(net: Net, owner: Name, request: Request, r: Result): (r': Result) {
    if net.caching && !r.state.ctx.stored && r.outcome.Reply? && !r.outcome.message.truncated
       && Storable(r.outcome.message) && request.questions != [] then
      var w := r.state.world;
      var e := Envelope(r.outcome.message, w.now, Lifetime(r.outcome.message));
      var key := KeyOf(net.names, request.questions);
      Result(r.outcome, State(r.state.ctx.(stored := true),
                              w.(backers := Put(w.backers, owner, key, e), log := w.log + [Stored(owner, key, e)])))
    else r
  }

  /** The second half of resolver.Answer, after the cache had nothing: own sources, then search. */
  function Work(net: Net, resolver: Resolver, request: Request, s: State): (r: Result)
    requires WellFormed(net) && request.questions != []
    ensures Grows(net, s.ctx.visited, r.state.ctx.visited)
    ensures Answered(r.outcome) || r.outcome.Nothing?
    decreases Unvisited(net, s.ctx.visited), resolver.sources, 2
  {
    var r := AskSources(net, resolver.name, resolver.sources, request, s);
    if !Answered(r.outcome) && |resolver.search| > 0 && Searchable(request.questions[0].name)
    then Search(net, resolver.name, resolver.sources, resolver.search, request, r.state)
    else r
  }

  function Visit(s: State, name: Name): (r: State) {
    s.(ctx := s.ctx.(visited := s.ctx.visited + [name], current := name))
  }

  /** Back in the resolver that asked. */
  function Return(r: Result, caller: Name): (r': Result) {
    Result(r.outcome, r.state.(ctx := r.state.ctx.(current := caller)))
  }

  lemma VisitGrows(net: Net, visited: seq<Name>, name: Name, after: seq<Name>)
    requires name in net.resolvers && name !in visited
    requires Grows(net, visited + [name], after)
    ensures Grows(net, visited, after)
    ensures Unvisited(net, visited + [name]) < Unvisited(net, visited)
  {
    assert name in Unvisited(net, visited) && name !in Unvisited(net, visited + [name]);
    assert NoDuplicates(visited) ==> NoDuplicates(visited + [name]);
    assert visited <= visited + [name];
  }

  /** resolver.Answer */
  function Enter(net: Net, resolver: Resolver, request: Request, s: State): (r: Result)
    requires WellFormed(net)
    requires resolver.name in net.resolvers && resolver.name !in s.ctx.visited
    ensures Grows(net, s.ctx.visited, r.state.ctx.visited)
    ensures Answered(r.outcome) || r.outcome.Nothing?
    decreases Unvisited(net, s.ctx.visited), Reference(resolver.name), 0
  {
    if request.questions == [] || !Accepts(net, resolver, Lower(request.questions[0].name)) then Result(Nothing, s)
    else
      var s1 := Visit(s, resolver.name);
      VisitGrows(net, s.ctx.visited, resolver.name, s1.ctx.visited);
      var hit := CacheHit(net, resolver.name, request, s1.world);
      if hit.Some? then
        var s2 := Credit(s1, resolver.name);
        Return(Result(Reply(hit.value), s2.(ctx := s2.ctx.(stored := true, cached := true))), s.ctx.current)
      else
        var r := Work(net, resolver, request, s1);
        VisitGrows(net, s.ctx.visited, resolver.name, r.state.ctx.visited);
        Return(StoreAnswer(net, resolver.name, request, r), s.ctx.current)
  }

  /** resolverMap.answerWithContext */
  function AskNamed(net: Net, name: Name, request: Request, s: State): (r: Result)
    requires WellFormed(net)
    ensures Grows(net, s.ctx.visited, r.state.ctx.visited)
    ensures Answered(r.outcome) || r.outcome.Nothing?
    decreases Unvisited(net, s.ctx.visited), Reference(name), 1
  {
    if name !in net.resolvers || name in s.ctx.visited then Result(Nothing, s)
    else Enter(net, net.resolvers[name], request, s)
  }

  /** resolverMap.AnswerMultiResolvers; it never reports an error, because no resolver does. */
  function AskAll(net: Net, names: seq<Name>, request: Request, s: State): (r: Result)
    requires WellFormed(net)
    ensures Grows(net, s.ctx.visited, r.state.ctx.visited)
    ensures Answered(r.outcome) || r.outcome.Nothing?
  {
    if names == [] then Result(Nothing, s)
    else
      var r := AskNamed(net, names[0], request, s);
      if Answered(r.outcome) then r else AskAll(net, names[1..], request, r.state)
  }

  function Resolve(net: Net, names: seq<Name>, request: Request, w: World): (r: Result)
    requires WellFormed(net)
    ensures NoDuplicates(r.state.ctx.visited)
    ensures forall n :: n in r.state.ctx.visited ==> n in net.resolvers
    ensures Answered(r.outcome) || r.outcome.Nothing?
  {
    AskAll(net, names, request, State(FRESH, w))
  }

  // ---- which resolvers are entered ----

  /** The asked name, in lower case and without its final dot. */
  ghost predicate AsksFor(request: Request, name: string) {
    && request.questions != [] && !EndsInDot(name)
    && (Lower(request.questions[0].name) == name || Lower(request.questions[0].name) == name + ".")
  }

  /** A resolver that exists and has not been visited is entered exactly when its domains, if it has any,
      take the asked name and its skipped domains do not; otherwise nothing happens at all. */
  lemma EnteredIff(net: Net, name: Name, request: Request, s: State, asked: string)
    requires WellFormed(net) && name in net.resolvers && name !in s.ctx.visited && AsksFor(request, asked)
    ensures var resolver, r := net.resolvers[name], AskNamed(net, name, request, s);
            if (resolver.domains != [] && !Taken(net.glob, asked, resolver.domains)) || Taken(net.glob, asked, resolver.skip)
            then r == Result(Nothing, s)
            else s.ctx.visited + [name] <= r.state.ctx.visited
  {
    var resolver := net.resolvers[name];
    MatchesIff(net.glob, asked, resolver.domains);
    MatchesIff(net.glob, asked, resolver.skip);
    var s1 := Visit(s, name);
    VisitGrows(net, s.ctx.visited, name, s1.ctx.visited);
  }

  /** A request without a question enters nothing, and neither does one for a missing or visited resolver. */
  lemma NothingToEnter(net: Net, name: Name, request: Request, s: State)
    requires WellFormed(net) && (request.questions == [] || name !in net.resolvers || name in s.ctx.visited)
    ensures AskNamed(net, name, request, s) == Result(Nothing, s)
  {
  }

  // ---- which names are searched ----

  /** A name is searched exactly when it is neither empty nor the root and has no second label. */
  lemma SearchableIff(name: string)
    ensures Searchable(name) <==> name != "" && name != "." && (|Split(name, '.')| < 2 || Split(name, '.')[1] == "")
  {
    if '.' in name {
      var i := IndexOf(name, '.');
      var rest := name[i + 1..];
      assert Split(name, '.')[1] == Split(rest, '.')[0];
      SplitHead(rest);
      assert rest != "" ==> rest[0] == name[i + 1];
    }
  }

  lemma SplitHead(s: string)
    ensures Split(s, '.')[0] == "" <==> s == "" || s[0] == '.'
  {
    if '.' in s {
      assert IndexOf(s, '.') == 0 <==> s[0] == '.';
    }
  }

  /** A name of one label, with or without its final dot, is extended to that label, the search domain and a
      final dot; nothing else of the request changes. */
  lemma ExtendedName(request: Request, first: string, domain: string)
    requires request.questions != [] && (request.questions[0].name == first || request.questions[0].name == first + ".")
    requires first != "" && '.' !in first && domain != "" && !EndsInDot(domain)
    ensures var r := SearchRequest(request, domain);
            && Searchable(request.questions[0].name) && r.id == request.id && |r.questions| == |request.questions|
            && r.questions[0] == Question(first + "." + domain + ".", request.questions[0].qtype, request.questions[0].qclass)
            && r.questions[1..] == request.questions[1..]
  {
    var name := request.questions[0].name;
    if name == first + "." {
      assert name[|first|] == '.';
      assert IndexOf(name, '.') == |first| by {
        assert forall j :: 0 <= j < |first| ==> name[j] == first[j];
      }
    }
    assert Fqdn(name) == first + ".";
    assert EndsInDot(first + "." + domain) <==> EndsInDot(domain);
  }
}
