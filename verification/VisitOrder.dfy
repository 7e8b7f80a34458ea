/** Resolution without the cache is a flat loop: the plan of a request lists, without looking at any
    answer, the leaf questions in depth-first order; resolving returns the first non-empty response
    along that list. */
module VisitOrder {
  import opened Text
  import opened Dns
  import opened Resolution

  /** A leaf question: `owner` is the resolver whose source it belongs to, `relabels` the requests
      under whose names an answer is handed up, innermost first. */
  datatype Ask = Ask(leaf: string, kind: LeafKind, request: Request, owner: Name, relabels: seq<Request>)

  datatype Plan = Plan(asks: seq<Ask>, visited: seq<Name>, cursors: map<string, nat>)

  function Then(p: Plan, q: Plan): (r: Plan) {
    q.(asks := p.asks + q.asks)
  }

  function PlanSource(net: Net, owner: Name, source: Source, request: Request, visited: seq<Name>, cursors: map<string, nat>): (p: Plan)
    requires WellFormed(net)
    ensures Grows(net, visited, p.visited)
    decreases Unvisited(net, visited), source, 2
  {
    match source
    case Leaf(id, kind) => Plan([Ask(id, kind, request, owner, [])], visited, cursors)
    case Multi(_, sources) => PlanSources(net, owner, sources, request, visited, cursors)
    case Balanced(name, sources) => PlanBalanced(net, owner, name, sources, |sources| + 1, request, visited, cursors)
    case File(upstream) =>
      if upstream.Some? then PlanSource(net, owner, upstream.value, request, visited, cursors) else Plan([], visited, cursors)
    case Reference(name) => PlanNamed(net, name, request, visited, cursors)
  }

  function PlanSources(net: Net, owner: Name, sources: seq<Source>, request: Request, visited: seq<Name>, cursors: map<string, nat>): (p: Plan)
    requires WellFormed(net)
    ensures Grows(net, visited, p.visited)
    decreases Unvisited(net, visited), sources, 0
  {
    if sources == [] then Plan([], visited, cursors)
    else
      var p := PlanSource(net, owner, sources[0], request, visited, cursors);
      Then(p, PlanSources(net, owner, sources[1..], request, p.visited, p.cursors))
  }

  function PlanBalanced(net: Net, owner: Name, name: string, sources: seq<Source>, tries: nat, request: Request,
                        visited: seq<Name>, cursors: map<string, nat>): (p: Plan)
    requires WellFormed(net)
    ensures Grows(net, visited, p.visited)
    decreases Unvisited(net, visited), sources, tries
  {
    if tries == 0 || sources == [] then Plan([], visited, cursors)
    else
      var p := PlanPicked(net, owner, name, sources, request, visited, cursors);
      Then(p, PlanBalanced(net, owner, name, sources, tries - 1, request, p.visited, p.cursors))
  }

  function PlanPicked(net: Net, owner: Name, name: string, sources: seq<Source>, request: Request,
                      visited: seq<Name>, cursors: map<string, nat>): (p: Plan)
    requires WellFormed(net) && sources != []
    ensures Grows(net, visited, p.visited)
    decreases Unvisited(net, visited), sources, 0
  {
    var n := |sources|;
    PlanSource(net, owner, sources[Cursor(cursors, name, n)], request, visited, Advanced(cursors, name, n))
  }

  function Handed(asks: seq<Ask>, request: Request): (r: seq<Ask>) {
    if asks == [] then [] else [asks[0].(relabels := asks[0].relabels + [request])] + Handed(asks[1..], request)
  }

  function PlanSearch(net: Net, owner: Name, sources: seq<Source>, domains: seq<string>, request: Request,
                      visited: seq<Name>, cursors: map<string, nat>): (p: Plan)
    requires WellFormed(net) && request.questions != []
    ensures Grows(net, visited, p.visited)
    decreases Unvisited(net, visited), sources, 1, |domains|
  {
    if domains == [] then Plan([], visited, cursors)
    else if domains[0] == "" then PlanSearch(net, owner, sources, domains[1..], request, visited, cursors)
    else
      var p := PlanSources(net, owner, sources, SearchRequest(request, domains[0]), visited, cursors);
      Then(p.(asks := Handed(p.asks, request)), PlanSearch(net, owner, sources, domains[1..], request, p.visited, p.cursors))
  }

  function PlanWork(net: Net, resolver: Resolver, request: Request, visited: seq<Name>, cursors: map<string, nat>): (p: Plan)
    requires WellFormed(net) && request.questions != []
    ensures Grows(net, visited, p.visited)
    decreases Unvisited(net, visited), resolver.sources, 2
  {
    var p := PlanSources(net, resolver.name, resolver.sources, request, visited, cursors);
    if |resolver.search| > 0 && Searchable(request.questions[0].name)
    then Then(p, PlanSearch(net, resolver.name, resolver.sources, resolver.search, request, p.visited, p.cursors))
    else p
  }

  /** A named resolver contributes only if it exists, has not been entered and takes the name. */
  function PlanNamed(net: Net, name: Name, request: Request, visited: seq<Name>, cursors: map<string, nat>): (p: Plan)
    requires WellFormed(net)
    ensures Grows(net, visited, p.visited)
    decreases Unvisited(net, visited), Reference(name), 1
  {
    if name !in net.resolvers || name in visited || request.questions == []
       || !Accepts(net, net.resolvers[name], Lower(request.questions[0].name))
    then Plan([], visited, cursors)
    else
      VisitGrows(net, visited, name, visited + [name]);
      var p := PlanWork(net, net.resolvers[name], request, visited + [name], cursors);
      VisitGrows(net, visited, name, p.visited);
      p
  }

  function PlanAll(net: Net, names: seq<Name>, request: Request, visited: seq<Name>, cursors: map<string, nat>): (p: Plan)
    requires WellFormed(net)
  {
    if names == [] then Plan([], visited, cursors)
    else
      var p := PlanNamed(net, names[0], request, visited, cursors);
      Then(p, PlanAll(net, names[1..], request, p.visited, p.cursors))
  }

  // ---- the flat loop ----

  datatype Flat = Flat(winner: Option<(Ask, Message)>, now: nat, calls: seq<Call>)

  /** Ask along the list and stop at the first non-empty response. */
  function FirstAnswer(net: Net, asks: seq<Ask>, now: nat, calls: seq<Call>): (r: Flat) {
    if asks == [] then Flat(None, now, calls)
    else
      var a := net.upstream(asks[0].leaf, asks[0].request, |calls|);
      var now' := now + a.elapsed;
      var calls' := calls + [Call(asks[0].leaf, asks[0].kind, asks[0].request, now', a.outcome, asks[0].owner)];
      if Answered(a.outcome) then Flat(Some((asks[0], a.outcome.message)), now', calls')
      else FirstAnswer(net, asks[1..], now', calls')
  }

  function RelabelAll(m: Message, requests: seq<Request>): (r: Message) {
    if requests == [] then m
    else
      var last := requests[|requests| - 1];
      var inner := RelabelAll(m, requests[..|requests| - 1]);
      if last.questions == [] then inner else Relabelled(inner, last)
  }

  lemma {:induction false} FirstAnswerConcat(net: Net, a: seq<Ask>, b: seq<Ask>, now: nat, calls: seq<Call>)
    ensures var f := FirstAnswer(net, a, now, calls);
            FirstAnswer(net, a + b, now, calls) ==
            if f.winner.Some? then f else FirstAnswer(net, b, f.now, f.calls)
    decreases |a|
  {
    if a == [] {
      assert a + b == b;
    } else {
      assert (a + b)[0] == a[0] && (a + b)[1..] == a[1..] + b;
      var r := net.upstream(a[0].leaf, a[0].request, |calls|);
      FirstAnswerConcat(net, a[1..], b, now + r.elapsed,
                        calls + [Call(a[0].leaf, a[0].kind, a[0].request, now + r.elapsed, r.outcome, a[0].owner)]);
    }
  }

  lemma {:induction false} FirstAnswerHanded(net: Net, asks: seq<Ask>, request: Request, now: nat, calls: seq<Call>)
    ensures var f, g := FirstAnswer(net, asks, now, calls), FirstAnswer(net, Handed(asks, request), now, calls);
            && g.now == f.now && g.calls == f.calls && g.winner.Some? == f.winner.Some?
            && (f.winner.Some? ==> g.winner.value == (f.winner.value.0.(relabels := f.winner.value.0.relabels + [request]), f.winner.value.1))
    decreases |asks|
  {
    if asks != [] {
      var h := Handed(asks, request);
      assert h[1..] == Handed(asks[1..], request);
      var r := net.upstream(asks[0].leaf, asks[0].request, |calls|);
      FirstAnswerHanded(net, asks[1..], request, now + r.elapsed,
                        calls + [Call(asks[0].leaf, asks[0].kind, asks[0].request, now + r.elapsed, r.outcome, asks[0].owner)]);
    }
  }

  // ---- resolution follows its plan ----

  /** The step from `s` to `r` does what the flat loop does along `p`. */
  predicate Follows(net: Net, owner: Name, p: Plan, s: State, r: Result) {
    var f := FirstAnswer(net, p.asks, s.world.now, s.world.calls);
    var w := r.state.world;
    && w.now == f.now && w.calls == f.calls
    && match f.winner
       case None => !Answered(r.outcome) && r.state.ctx == s.ctx.(visited := p.visited) && w.cursors == p.cursors
       case Some((ask, m)) =>
         && r.outcome == Reply(RelabelAll(m, ask.relabels)) && Answered(r.outcome)
         && (owner != "" ==> ask.owner != "")
         && (r.state.ctx.resolverUsed == ask.owner || (r.state.ctx.resolverUsed == "" && ask.owner == owner))
  }

  lemma FollowOn(net: Net, owner: Name, p: Plan, q: Plan, s: State, r: Result, r': Result)
    requires Follows(net, owner, p, s, r)
    requires if Answered(r.outcome) then r' == r else Follows(net, owner, q, r.state, r')
    ensures Follows(net, owner, Then(p, q), s, r')
  {
    FirstAnswerConcat(net, p.asks, q.asks, s.world.now, s.world.calls);
  }

  lemma {:induction false} SourceFollows(net: Net, owner: Name, source: Source, request: Request, s: State)
    requires WellFormed(net) && !net.caching && s.ctx.resolverUsed == "" && s.ctx.current == owner
    ensures Follows(net, owner, PlanSource(net, owner, source, request, s.ctx.visited, s.world.cursors), s, AskSource(net, source, request, s))
    decreases Unvisited(net, s.ctx.visited), source, 2
  {
    match source
    case Leaf(id, kind) =>
      var asks := [Ask(id, kind, request, owner, [])];
      assert asks[1..] == [];
    case Multi(_, sources) => MultiFollows(net, owner, sources, request, s);
    case Balanced(name, sources) => BalancedFollows(net, owner, name, sources, |sources| + 1, request, s);
    case File(upstream) => if upstream.Some? { SourceFollows(net, owner, upstream.value, request, s); }
    case Reference(name) => NamedFollows(net, owner, name, request, s);
  }

  lemma {:induction false} MultiFollows(net: Net, owner: Name, sources: seq<Source>, request: Request, s: State)
    requires WellFormed(net) && !net.caching && s.ctx.resolverUsed == "" && s.ctx.current == owner
    ensures Follows(net, owner, PlanSources(net, owner, sources, request, s.ctx.visited, s.world.cursors), s, AskMulti(net, sources, request, s))
    decreases Unvisited(net, s.ctx.visited), sources, 0
  {
    if sources != [] {
      SourceFollows(net, owner, sources[0], request, s);
      var p := PlanSource(net, owner, sources[0], request, s.ctx.visited, s.world.cursors);
      var r := AskSource(net, sources[0], request, s);
      if !Answered(r.outcome) {
        MultiFollows(net, owner, sources[1..], request, r.state);
      }
      FollowOn(net, owner, p, PlanSources(net, owner, sources[1..], request, p.visited, p.cursors), s, r, AskMulti(net, sources, request, s));
    }
  }

  ghost predicate TriesFollow(net: Net, owner: Name, name: string, sources: seq<Source>, tries: nat, request: Request, s: State)
    requires WellFormed(net)
  {
    Follows(net, owner, PlanBalanced(net, owner, name, sources, tries, request, s.ctx.visited, s.world.cursors), s,
            AskBalanced(net, name, sources, tries, request, s))
  }

  lemma {:induction false} BalancedFollows(net: Net, owner: Name, name: string, sources: seq<Source>, tries: nat, request: Request, s: State)
    requires WellFormed(net) && !net.caching && s.ctx.resolverUsed == "" && s.ctx.current == owner
    ensures TriesFollow(net, owner, name, sources, tries, request, s)
    decreases Unvisited(net, s.ctx.visited), sources, tries, 2
  {
    if tries > 0 && sources != [] {
      var next := TurnStaysOpen(net, owner, name, sources, tries, request, s);
      if next.Some? { BalancedFollows(net, owner, name, sources, tries - 1, request, next.value); }
      TurnFollows(net, owner, name, sources, tries, request, s, next);
    } else {
      NoTurnFollows(net, owner, name, sources, tries, request, s);
    }
  }

  lemma NoTurnFollows(net: Net, owner: Name, name: string, sources: seq<Source>, tries: nat, request: Request, s: State)
    requires WellFormed(net) && (tries == 0 || sources == [])
    ensures TriesFollow(net, owner, name, sources, tries, request, s)
  {
  }

  /** `next` is the state after a turn, if that did not answer. */
  ghost predicate IsNextTurn(net: Net, name: string, sources: seq<Source>, request: Request, s: State, next: Option<State>)
    requires WellFormed(net) && sources != []
  {
    forall r :: r == AskPicked(net, name, sources, request, s) ==> next == if Answered(r.outcome) then None else Some(r.state)
  }

  lemma {:induction false} TurnStaysOpen(net: Net, owner: Name, name: string, sources: seq<Source>, tries: nat, request: Request, s: State)
    returns (next: Option<State>)
    requires WellFormed(net) && !net.caching && s.ctx.resolverUsed == "" && s.ctx.current == owner && tries > 0 && sources != []
    ensures IsNextTurn(net, name, sources, request, s, next)
    ensures next.Some? ==> next.value.ctx.resolverUsed == "" && next.value.ctx.current == owner && Unvisited(net, next.value.ctx.visited) <= Unvisited(net, s.ctx.visited)
    decreases Unvisited(net, s.ctx.visited), sources, tries, 1
  {
    PickedFollows(net, owner, name, sources, request, s);
    BalancedStep(net, name, sources, tries, request, s, AskPicked(net, name, sources, request, s));
    var r := AskPicked(net, name, sources, request, s);
    next := if Answered(r.outcome) then None else Some(r.state);
  }

  /** One turn, then the remaining tries unless it has answered. */
  lemma {:induction false} TurnFollows(net: Net, owner: Name, name: string, sources: seq<Source>, tries: nat, request: Request, s: State,
                                       next: Option<State>)
    requires WellFormed(net) && !net.caching && s.ctx.resolverUsed == "" && s.ctx.current == owner && tries > 0 && sources != []
    requires IsNextTurn(net, name, sources, request, s, next)
    requires next.Some? ==> TriesFollow(net, owner, name, sources, tries - 1, request, next.value)
    ensures TriesFollow(net, owner, name, sources, tries, request, s)
    decreases Unvisited(net, s.ctx.visited), sources, tries, 0
  {
    PickedFollows(net, owner, name, sources, request, s);
    BalancedTurn(net, owner, name, sources, tries, request, s, AskPicked(net, name, sources, request, s));
  }

  lemma BalancedTurn(net: Net, owner: Name, name: string, sources: seq<Source>, tries: nat, request: Request, s: State, r: Result)
    requires WellFormed(net) && tries > 0 && sources != [] && r == AskPicked(net, name, sources, request, s)
    requires Follows(net, owner, PlanPicked(net, owner, name, sources, request, s.ctx.visited, s.world.cursors), s, r)
    requires !Answered(r.outcome) ==>
      Follows(net, owner, PlanBalanced(net, owner, name, sources, tries - 1, request, r.state.ctx.visited, r.state.world.cursors), r.state,
              AskBalanced(net, name, sources, tries - 1, request, r.state))
    ensures Follows(net, owner, PlanBalanced(net, owner, name, sources, tries, request, s.ctx.visited, s.world.cursors), s,
                    AskBalanced(net, name, sources, tries, request, s))
  {
    var p := PlanPicked(net, owner, name, sources, request, s.ctx.visited, s.world.cursors);
    var q := PlanBalanced(net, owner, name, sources, tries - 1, request, p.visited, p.cursors);
    if !Answered(r.outcome) { CarriedOn(net, owner, p, s, r); }
    BalancedStep(net, name, sources, tries, request, s, r);
    FollowOn(net, owner, p, q, s, r, AskBalanced(net, name, sources, tries, request, s));
  }

  /** What is handed on when nothing answered. */
  lemma CarriedOn(net: Net, owner: Name, p: Plan, s: State, r: Result)
    requires Follows(net, owner, p, s, r) && !Answered(r.outcome)
    ensures r.state.ctx == s.ctx.(visited := p.visited) && r.state.world.cursors == p.cursors
  {
  }

  lemma {:induction false} PickedFollows(net: Net, owner: Name, name: string, sources: seq<Source>, request: Request, s: State)
    requires WellFormed(net) && !net.caching && s.ctx.resolverUsed == "" && s.ctx.current == owner && sources != []
    ensures Follows(net, owner, PlanPicked(net, owner, name, sources, request, s.ctx.visited, s.world.cursors), s,
                    AskPicked(net, name, sources, request, s))
    decreases Unvisited(net, s.ctx.visited), sources, 0
  {
    SourceFollows(net, owner, sources[Cursor(s.world.cursors, name, |sources|)], request, Advance(s, name, |sources|));
  }

  lemma {:induction false} SourcesFollow(net: Net, owner: Name, sources: seq<Source>, request: Request, s: State)
    requires WellFormed(net) && !net.caching && s.ctx.resolverUsed == "" && s.ctx.current == owner && owner != ""
    ensures var r := AskSources(net, owner, sources, request, s);
            && Follows(net, owner, PlanSources(net, owner, sources, request, s.ctx.visited, s.world.cursors), s, r)
            && (Answered(r.outcome) ==> r.state.ctx.resolverUsed != "")
    decreases Unvisited(net, s.ctx.visited), sources, 0
  {
    if sources != [] {
      SourceFollows(net, owner, sources[0], request, s);
      var p := PlanSource(net, owner, sources[0], request, s.ctx.visited, s.world.cursors);
      var r := AskSource(net, sources[0], request, s);
      var q := PlanSources(net, owner, sources[1..], request, p.visited, p.cursors);
      if Answered(r.outcome) {
        var r' := Result(r.outcome, Credit(r.state, owner));
        FollowOn(net, owner, p, q, s, r', r');
      } else {
        SourcesFollow(net, owner, sources[1..], request, r.state);
        FollowOn(net, owner, p, q, s, r, AskSources(net, owner, sources, request, s));
      }
    }
  }

  lemma {:induction false} SearchFollows(net: Net, owner: Name, sources: seq<Source>, domains: seq<string>, request: Request, s: State)
    requires WellFormed(net) && !net.caching && s.ctx.resolverUsed == "" && s.ctx.current == owner && owner != "" && request.questions != []
    ensures var r := Search(net, owner, sources, domains, request, s);
            && Follows(net, owner, PlanSearch(net, owner, sources, domains, request, s.ctx.visited, s.world.cursors), s, r)
            && (Answered(r.outcome) ==> r.state.ctx.resolverUsed != "")
    decreases Unvisited(net, s.ctx.visited), sources, 1, |domains|
  {
    if domains == [] {
    } else if domains[0] == "" {
      SearchFollows(net, owner, sources, domains[1..], request, s);
    } else {
      var asked := SearchRequest(request, domains[0]);
      SourcesFollow(net, owner, sources, asked, s);
      var p := PlanSources(net, owner, sources, asked, s.ctx.visited, s.world.cursors);
      var p' := p.(asks := Handed(p.asks, request));
      var r := AskSources(net, owner, sources, asked, s);
      var q := PlanSearch(net, owner, sources, domains[1..], request, p.visited, p.cursors);
      HandedUp(net, owner, p, s, r, request);
      if Answered(r.outcome) {
        var r' := Result(Reply(Relabelled(r.outcome.message, request)), r.state);
        FollowOn(net, owner, p', q, s, r', r');
      } else {
        SearchFollows(net, owner, sources, domains[1..], request, r.state);
        FollowOn(net, owner, p', q, s, r, Search(net, owner, sources, domains, request, s));
      }
    }
  }

  lemma HandedUp(net: Net, owner: Name, p: Plan, s: State, r: Result, request: Request)
    requires Follows(net, owner, p, s, r) && request.questions != []
    ensures Follows(net, owner, p.(asks := Handed(p.asks, request)), s,
                    if Answered(r.outcome) then Result(Reply(Relabelled(r.outcome.message, request)), r.state) else r)
  {
    FirstAnswerHanded(net, p.asks, request, s.world.now, s.world.calls);
    if Answered(r.outcome) {
      RelabelKeeps(r.outcome.message, request);
      var ask := FirstAnswer(net, p.asks, s.world.now, s.world.calls).winner.value.0;
      assert (ask.relabels + [request])[..|ask.relabels|] == ask.relabels;
    }
  }

  lemma {:induction false} WorkFollows(net: Net, resolver: Resolver, request: Request, s: State)
    requires WellFormed(net) && !net.caching && s.ctx.resolverUsed == "" && s.ctx.current == resolver.name && resolver.name != "" && request.questions != []
    ensures var r := Work(net, resolver, request, s);
            && Follows(net, resolver.name, PlanWork(net, resolver, request, s.ctx.visited, s.world.cursors), s, r)
            && (Answered(r.outcome) ==> r.state.ctx.resolverUsed != "")
    decreases Unvisited(net, s.ctx.visited), resolver.sources, 2
  {
    var me := resolver.name;
    SourcesFollow(net, me, resolver.sources, request, s);
    var p := PlanSources(net, me, resolver.sources, request, s.ctx.visited, s.world.cursors);
    var r := AskSources(net, me, resolver.sources, request, s);
    if |resolver.search| > 0 && Searchable(request.questions[0].name) {
      if !Answered(r.outcome) {
        SearchFollows(net, me, resolver.sources, resolver.search, request, r.state);
      }
      FollowOn(net, me, p, PlanSearch(net, me, resolver.sources, resolver.search, request, p.visited, p.cursors), s, r,
               Work(net, resolver, request, s));
    }
  }

  lemma {:induction false} NamedFollows(net: Net, owner: Name, name: Name, request: Request, s: State)
    requires WellFormed(net) && !net.caching && s.ctx.resolverUsed == ""
    ensures var r := AskNamed(net, name, request, s);
            && Follows(net, owner, PlanNamed(net, name, request, s.ctx.visited, s.world.cursors), s, r)
            && (Answered(r.outcome) ==> r.state.ctx.resolverUsed != "")
    decreases Unvisited(net, s.ctx.visited), Reference(name), 1
  {
    if name in net.resolvers && name !in s.ctx.visited && request.questions != []
       && Accepts(net, net.resolvers[name], Lower(request.questions[0].name)) {
      var s1 := Visit(s, name);
      VisitGrows(net, s.ctx.visited, name, s1.ctx.visited);
      WorkFollows(net, net.resolvers[name], request, s1);
      assert AskNamed(net, name, request, s) == Return(Work(net, net.resolvers[name], request, s1), s.ctx.current);
    }
  }

  lemma {:induction false} AllFollow(net: Net, names: seq<Name>, request: Request, s: State)
    requires WellFormed(net) && !net.caching && s.ctx.resolverUsed == ""
    ensures var r := AskAll(net, names, request, s);
            && Follows(net, "", PlanAll(net, names, request, s.ctx.visited, s.world.cursors), s, r)
            && (Answered(r.outcome) ==> r.state.ctx.resolverUsed != "")
    decreases |names|
  {
    if names != [] {
      NamedFollows(net, "", names[0], request, s);
      var p := PlanNamed(net, names[0], request, s.ctx.visited, s.world.cursors);
      var r := AskNamed(net, names[0], request, s);
      if !Answered(r.outcome) {
        AllFollow(net, names[1..], request, r.state);
      }
      FollowOn(net, "", p, PlanAll(net, names[1..], request, p.visited, p.cursors), s, r, AskAll(net, names, request, s));
    }
  }

  /** With the cache off, a request returns the first non-empty leaf response of its plan, handed up
      under the asked names, credits the resolver that owns that leaf, and asks no leaf beyond it. */
  lemma CacheOffIsFirstAnswer(net: Net, names: seq<Name>, request: Request, w: World)
    requires WellFormed(net) && !net.caching
    ensures var f := FirstAnswer(net, PlanAll(net, names, request, [], w.cursors).asks, w.now, w.calls);
            var r := Resolve(net, names, request, w);
            && r.state.world.calls == f.calls && r.state.world.now == f.now
            && match f.winner
               case None => r.outcome == Nothing
               case Some((ask, m)) =>
                 r.outcome == Reply(RelabelAll(m, ask.relabels)) && r.state.ctx.resolverUsed == ask.owner
  {
    AllFollow(net, names, request, State(FRESH, w));
  }

  // ---- turns of a balancer ----

  /** The source at `k` turns from the cursor, going round once at most. */
  function Turn(c: nat, k: nat, n: nat): (r: nat) {
    if c + k < n then c + k else c + k - n
  }

  lemma CursorMovesOn(cursors: map<string, nat>, name: string, n: nat, k: nat)
    requires n > 0 && k < n
    ensures Turn(Cursor(Advanced(cursors, name, n), name, n), k, n) == Turn(Cursor(cursors, name, n), k + 1, n)
  {
  }

  lemma LeafTurn(net: Net, name: string, sources: seq<Source>, request: Request, s: State)
    requires WellFormed(net) && sources != [] && forall i :: 0 <= i < |sources| ==> sources[i].Leaf?
    requires forall leaf, asked, n :: !Answered(net.upstream(leaf, asked, n).outcome)
    ensures var r, c := AskPicked(net, name, sources, request, s), Cursor(s.world.cursors, name, |sources|);
            && !Answered(r.outcome) && r.state.world.cursors == Advanced(s.world.cursors, name, |sources|)
            && |r.state.world.calls| == |s.world.calls| + 1 && s.world.calls <= r.state.world.calls
            && r.state.world.calls[|s.world.calls|].leaf == sources[c].id
  {
  }

  ghost predicate AskedInTurn(sources: seq<Source>, c: nat, tries: nat, before: seq<Call>, after: seq<Call>) {
    && |after| == |before| + tries && before <= after
    && forall k :: 0 <= k < tries ==> Turn(c, k, |sources|) < |sources| && IsCallTo(after[|before| + k], sources[Turn(c, k, |sources|)])
  }

  predicate IsCallTo(call: Call, source: Source) {
    source.Leaf? && call.leaf == source.id
  }

  lemma OneMoreTurn(sources: seq<Source>, c: nat, c': nat, tries: nat, a: seq<Call>, b: seq<Call>, d: seq<Call>)
    requires c < |sources| && 0 < tries <= |sources| + 1 && |b| == |a| + 1 && a <= b && IsCallTo(b[|a|], sources[c])
    requires AskedInTurn(sources, c', tries - 1, b, d)
    requires forall k :: 0 <= k < tries - 1 ==> Turn(c', k, |sources|) == Turn(c, k + 1, |sources|)
    ensures AskedInTurn(sources, c, tries, a, d)
  {
    forall k | 0 <= k < tries ensures Turn(c, k, |sources|) < |sources| && IsCallTo(d[|a| + k], sources[Turn(c, k, |sources|)]) {
      if k == 0 {
        assert d[|a|] == b[|a|];
      } else {
        assert Turn(c', k - 1, |sources|) == Turn(c, k - 1 + 1, |sources|);
        assert d[|a| + k] == d[|b| + (k - 1)];
      }
    }
  }

  /** When no leaf answers, a balanced source over leaves asks one after another, from its cursor on and
      round again, as often as it has tries. */
  lemma {:induction false} LeavesAreAskedInTurn(net: Net, name: string, sources: seq<Source>, tries: nat, request: Request, s: State)
    requires WellFormed(net) && sources != [] && tries <= |sources| + 1 && forall i :: 0 <= i < |sources| ==> sources[i].Leaf?
    requires forall leaf, asked, n :: !Answered(net.upstream(leaf, asked, n).outcome)
    ensures AskedInTurn(sources, Cursor(s.world.cursors, name, |sources|), tries, s.world.calls,
                        AskBalanced(net, name, sources, tries, request, s).state.world.calls)
    decreases tries
  {
    if tries > 0 {
      LeafTurn(net, name, sources, request, s);
      var r, n, cursors := AskPicked(net, name, sources, request, s), |sources|, s.world.cursors;
      LeavesAreAskedInTurn(net, name, sources, tries - 1, request, r.state);
      forall k | 0 <= k < tries - 1 ensures Turn(Cursor(r.state.world.cursors, name, n), k, n) == Turn(Cursor(cursors, name, n), k + 1, n) {
        CursorMovesOn(cursors, name, n, k);
      }
      OneMoreTurn(sources, Cursor(cursors, name, n), Cursor(r.state.world.cursors, name, n), tries, s.world.calls,
                  r.state.world.calls, AskBalanced(net, name, sources, tries - 1, request, r.state).state.world.calls);
    }
  }

  ghost predicate IsAsked(source: Source, before: seq<Call>, after: seq<Call>) {
    exists k :: |before| <= k < |after| && IsCallTo(after[k], source)
  }

  lemma TurnsCoverAll(sources: seq<Source>, c: nat, i: nat, before: seq<Call>, after: seq<Call>)
    requires c < |sources| && i < |sources| && AskedInTurn(sources, c, |sources| + 1, before, after)
    ensures IsAsked(sources[i], before, after)
  {
    var k := if i >= c then i - c else i + |sources| - c;
    assert Turn(c, k, |sources|) == i;
    var at := |before| + k;
    assert IsCallTo(after[at], sources[i]);
  }

  /** So a balanced source gives up only after it has asked every one of its leaves. */
  lemma EveryLeafIsAsked(net: Net, name: string, sources: seq<Source>, request: Request, s: State, i: nat)
    requires WellFormed(net) && i < |sources| && forall i :: 0 <= i < |sources| ==> sources[i].Leaf?
    requires forall leaf, asked, n :: !Answered(net.upstream(leaf, asked, n).outcome)
    ensures IsAsked(sources[i], s.world.calls, AskSource(net, Balanced(name, sources), request, s).state.world.calls)
  {
    LeavesAreAskedInTurn(net, name, sources, |sources| + 1, request, s);
    assert AskSource(net, Balanced(name, sources), request, s) == AskBalanced(net, name, sources, |sources| + 1, request, s);
    TurnsCoverAll(sources, Cursor(s.world.cursors, name, |sources|), i, s.world.calls,
                  AskBalanced(net, name, sources, |sources| + 1, request, s).state.world.calls);
  }
}
