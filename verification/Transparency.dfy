/** The cache changes nothing until it has something: without a live entry, resolution with the cache does
    what resolution without it does (resolver/resolver.go, cache/cache.go). */
module Transparency {
  import opened Text
  import opened Dns
  import opened Cache
  import opened Resolution
  import VisitOrder

  /** No entry of the cache is still served. */
  ghost predicate Cold(w: World) {
    forall p, k :: Lookup(w.backers, p, k).Some? ==> Expired(Lookup(w.backers, p, k).value, w.now)
  }

  function Off(net: Net): (r: Net) {
    net.(caching := false)
  }

  /** Equal but for what concerns the cache. */
  predicate Twins(s: State, t: State) {
    && s.ctx.visited == t.ctx.visited && s.ctx.resolverUsed == t.ctx.resolverUsed && s.ctx.current == t.ctx.current
    && s.world.now == t.world.now && s.world.cursors == t.world.cursors && s.world.calls == t.world.calls
  }

  /** The same outcome in twin states; unless that is an answer, the cache is still cold. */
  ghost predicate Alike(r: Result, r': Result) {
    r.outcome == r'.outcome && Twins(r.state, r'.state) && (!Answered(r.outcome) ==> Cold(r.state.world))
  }

  lemma StaysCold(w: World, w': World)
    requires Cold(w) && w'.backers == w.backers && w.now <= w'.now
    ensures Cold(w')
  {
  }

  lemma {:induction false} SourceAlike(net: Net, source: Source, request: Request, s: State, t: State)
    requires WellFormed(net) && Cold(s.world) && Twins(s, t)
    ensures Alike(AskSource(net, source, request, s), AskSource(Off(net), source, request, t))
    decreases Unvisited(net, s.ctx.visited), source, 2
  {
    match source
    case Leaf(id, kind) => StaysCold(s.world, AskSource(net, source, request, s).state.world);
    case Multi(_, sources) => MultiAlike(net, sources, request, s, t);
    case Balanced(name, sources) => BalancedAlike(net, name, sources, |sources| + 1, request, s, t);
    case File(upstream) => if upstream.Some? { SourceAlike(net, upstream.value, request, s, t); }
    case Reference(name) => if name !in s.ctx.visited { NamedAlike(net, name, request, s, t); }
  }

  lemma {:induction false} MultiAlike(net: Net, sources: seq<Source>, request: Request, s: State, t: State)
    requires WellFormed(net) && Cold(s.world) && Twins(s, t)
    ensures Alike(AskMulti(net, sources, request, s), AskMulti(Off(net), sources, request, t))
    decreases Unvisited(net, s.ctx.visited), sources, 0
  {
    if sources != [] {
      SourceAlike(net, sources[0], request, s, t);
      var r, r' := AskSource(net, sources[0], request, s), AskSource(Off(net), sources[0], request, t);
      if !Answered(r.outcome) { MultiAlike(net, sources[1..], request, r.state, r'.state); }
    }
  }

  lemma {:induction false} BalancedAlike(net: Net, name: string, sources: seq<Source>, tries: nat, request: Request, s: State, t: State)
    requires WellFormed(net) && Cold(s.world) && Twins(s, t)
    ensures Alike(AskBalanced(net, name, sources, tries, request, s), AskBalanced(Off(net), name, sources, tries, request, t))
    decreases Unvisited(net, s.ctx.visited), sources, tries
  {
    if tries > 0 && sources != [] {
      PickedAlike(net, name, sources, request, s, t);
      var r, r' := AskPicked(net, name, sources, request, s), AskPicked(Off(net), name, sources, request, t);
      if !Answered(r.outcome) { BalancedAlike(net, name, sources, tries - 1, request, r.state, r'.state); }
    }
  }

  lemma {:induction false} PickedAlike(net: Net, name: string, sources: seq<Source>, request: Request, s: State, t: State)
    requires WellFormed(net) && Cold(s.world) && Twins(s, t) && sources != []
    ensures Alike(AskPicked(net, name, sources, request, s), AskPicked(Off(net), name, sources, request, t))
    decreases Unvisited(net, s.ctx.visited), sources, 0
  {
    var n := |sources|;
    SourceAlike(net, sources[Cursor(s.world.cursors, name, n)], request, Advance(s, name, n), Advance(t, name, n));
  }

  lemma {:induction false} SourcesAlike(net: Net, owner: Name, sources: seq<Source>, request: Request, s: State, t: State)
    requires WellFormed(net) && Cold(s.world) && Twins(s, t)
    ensures Alike(AskSources(net, owner, sources, request, s), AskSources(Off(net), owner, sources, request, t))
    decreases Unvisited(net, s.ctx.visited), sources, 0
  {
    if sources != [] {
      SourceAlike(net, sources[0], request, s, t);
      var r, r' := AskSource(net, sources[0], request, s), AskSource(Off(net), sources[0], request, t);
      if !Answered(r.outcome) { SourcesAlike(net, owner, sources[1..], request, r.state, r'.state); }
    }
  }

  lemma {:induction false} SearchAlike(net: Net, owner: Name, sources: seq<Source>, domains: seq<string>, request: Request, s: State, t: State)
    requires WellFormed(net) && Cold(s.world) && Twins(s, t) && request.questions != []
    ensures Alike(Search(net, owner, sources, domains, request, s), Search(Off(net), owner, sources, domains, request, t))
    decreases Unvisited(net, s.ctx.visited), sources, 1, |domains|
  {
    if domains != [] {
      if domains[0] == "" {
        SearchAlike(net, owner, sources, domains[1..], request, s, t);
      } else {
        var asked := SearchRequest(request, domains[0]);
        SourcesAlike(net, owner, sources, asked, s, t);
        var r, r' := AskSources(net, owner, sources, asked, s), AskSources(Off(net), owner, sources, asked, t);
        if Answered(r.outcome) {
          RelabelKeeps(r.outcome.message, request);
        } else {
          SearchAlike(net, owner, sources, domains[1..], request, r.state, r'.state);
        }
      }
    }
  }

  lemma {:induction false} WorkAlike(net: Net, resolver: Resolver, request: Request, s: State, t: State)
    requires WellFormed(net) && Cold(s.world) && Twins(s, t) && request.questions != []
    ensures Alike(Work(net, resolver, request, s), Work(Off(net), resolver, request, t))
    decreases Unvisited(net, s.ctx.visited), resolver.sources, 2
  {
    SourcesAlike(net, resolver.name, resolver.sources, request, s, t);
    var r := AskSources(net, resolver.name, resolver.sources, request, s);
    var r' := AskSources(Off(net), resolver.name, resolver.sources, request, t);
    if !Answered(r.outcome) { SearchAlike(net, resolver.name, resolver.sources, resolver.search, request, r.state, r'.state); }
  }

  lemma ColdMisses(net: Net, name: Name, request: Request, w: World)
    requires Cold(w)
    ensures CacheHit(net, name, request, w) == None && CacheHit(Off(net), name, request, w) == None
  {
  }

  lemma StoringAlike(net: Net, name: Name, request: Request, r: Result, r': Result)
    requires Alike(r, r')
    ensures Alike(StoreAnswer(net, name, request, r), StoreAnswer(Off(net), name, request, r'))
  {
  }

  lemma {:induction false} NamedAlike(net: Net, name: Name, request: Request, s: State, t: State)
    requires WellFormed(net) && Cold(s.world) && Twins(s, t)
    ensures Alike(AskNamed(net, name, request, s), AskNamed(Off(net), name, request, t))
    decreases Unvisited(net, s.ctx.visited), Reference(name), 1
  {
    if name in net.resolvers && name !in s.ctx.visited && request.questions != []
       && Accepts(net, net.resolvers[name], Lower(request.questions[0].name)) {
      var resolver, s1, t1 := net.resolvers[name], Visit(s, name), Visit(t, name);
      VisitGrows(net, s.ctx.visited, name, s1.ctx.visited);
      ColdMisses(net, name, request, s1.world);
      WorkAlike(net, resolver, request, s1, t1);
      StoringAlike(net, name, request, Work(net, resolver, request, s1), Work(Off(net), resolver, request, t1));
    }
  }

  lemma {:induction false} AllAlike(net: Net, names: seq<Name>, request: Request, s: State, t: State)
    requires WellFormed(net) && Cold(s.world) && Twins(s, t)
    ensures Alike(AskAll(net, names, request, s), AskAll(Off(net), names, request, t))
    decreases |names|
  {
    if names != [] {
      NamedAlike(net, names[0], request, s, t);
      var r, r' := AskNamed(net, names[0], request, s), AskNamed(Off(net), names[0], request, t);
      if !Answered(r.outcome) { AllAlike(net, names[1..], request, r.state, r'.state); }
    }
  }

  /** Without a live entry, whatever the cache holds otherwise, a request has the outcome, the leaf calls, the
      visits and the credit it has with the cache off; if it finds nothing, the cache is still without a
      live entry. */
  lemma ColdCacheChangesNothing(net: Net, names: seq<Name>, request: Request, w: World)
    requires WellFormed(net) && Cold(w)
    ensures var r, r' := Resolve(net, names, request, w), Resolve(Off(net), names, request, w);
            && r.outcome == r'.outcome && r.state.world.calls == r'.state.world.calls && r.state.world.now == r'.state.world.now
            && r.state.world.cursors == r'.state.world.cursors && r.state.ctx.visited == r'.state.ctx.visited
            && r.state.ctx.resolverUsed == r'.state.ctx.resolverUsed && (r.outcome == Nothing ==> Cold(r.state.world))
  {
    AllAlike(net, names, request, State(FRESH, w), State(FRESH, w));
  }

  /** So it is the first non-empty leaf response of the plan. */
  lemma ColdCacheIsFirstAnswer(net: Net, names: seq<Name>, request: Request, w: World)
    requires WellFormed(net) && Cold(w)
    ensures var f := VisitOrder.FirstAnswer(Off(net), VisitOrder.PlanAll(Off(net), names, request, [], w.cursors).asks, w.now, w.calls);
            var r := Resolve(net, names, request, w);
            && r.state.world.calls == f.calls
            && match f.winner
               case None => r.outcome == Nothing
               case Some((ask, m)) => r.outcome == Reply(VisitOrder.RelabelAll(m, ask.relabels)) && r.state.ctx.resolverUsed == ask.owner
  {
    ColdCacheChangesNothing(net, names, request, w);
    VisitOrder.CacheOffIsFirstAnswer(Off(net), names, request, w);
  }
}
