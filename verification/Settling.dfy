/** What every resolution step does to context and cache (resolver/resolver.go, resolver_map.go). */
module Settling {
  import opened Text
  import opened Dns
  import opened Cache
  import opened Resolution

  /** Nothing has been found yet for this request. */
  predicate Open(ctx: Context) {
    !ctx.stored && !ctx.cached && ctx.resolverUsed == ""
  }

  predicate Untouched(before: World, after: World) {
    after.backers == before.backers && after.log == before.log
  }

  /** The answer is that of the newest leaf call, which has just returned. */
  predicate FromLastCall(r: Result)
    requires r.outcome.Reply?
  {
    var w := r.state.world;
    && w.calls != []
    && var c := w.calls[|w.calls| - 1];
       c.at == w.now && Answered(c.outcome) && Content(c.outcome.message) == Content(r.outcome.message)
  }

  predicate LastKind(w: World, kind: LeafKind) {
    w.calls != [] && w.calls[|w.calls| - 1].kind == kind
  }

  predicate HitAt(r: Result, key: string)
    requires r.outcome.Reply?
  {
    var m := Served(r.state.world.backers, r.state.ctx.resolverUsed, key, 0, r.state.world.now);
    r.state.ctx.resolverUsed != "" && m.Some? && Content(m.value) == Content(r.outcome.message)
  }

  /** Exactly one entry went into the cache: into the partition of the resolver that is reported as
      having done the work, holding this answer, stamped with this instant. */
  predicate WroteAs(net: Net, before: World, r: Result, key: string, e: Envelope)
    requires r.outcome.Reply?
  {
    var used, w := r.state.ctx.resolverUsed, r.state.world;
    && net.caching && used != ""
    && w.log == before.log + [Stored(used, key, e)]
    && w.backers == Put(before.backers, used, key, e)
    && e.time == w.now && e.ttl == Lifetime(e.message) && Storable(e.message)
    && Content(e.message) == Content(r.outcome.message)
  }

  ghost predicate Hit(r: Result)
    requires r.outcome.Reply?
  {
    exists key :: HitAt(r, key)
  }

  ghost predicate Wrote(net: Net, before: World, r: Result)
    requires r.outcome.Reply?
  {
    exists key, e :: WroteAs(net, before, r, key, e)
  }

  /** What a resolution step does, started on an open context.  `me` is the resolver whose own sources
      are being asked (empty below and above that), which may still have to store the answer. */
  ghost predicate Settled(net: Net, me: Name, s: State, r: Result) {
    var c, w := r.state.ctx, r.state.world;
    && s.world.calls <= w.calls && s.world.now <= w.now
    && if !Answered(r.outcome) then Open(c) && Untouched(s.world, w)
       else if c.cached then c.stored && Untouched(s.world, w) && Hit(r)
       else
         && FromLastCall(r)
         && if !c.stored then
              Untouched(s.world, w) && LastKind(w, Forwarding)
              && (c.resolverUsed == me || !net.caching || !Storable(r.outcome.message))
            else if LastKind(w, Authoritative) then Untouched(s.world, w)
            else Wrote(net, s.world, r)
  }

  lemma WroteSince(net: Net, before: World, before': World, r: Result)
    requires r.outcome.Reply? && Wrote(net, before, r) && Untouched(before, before')
    ensures Wrote(net, before', r)
  {
    var key, e :| WroteAs(net, before, r, key, e);
    assert WroteAs(net, before', r, key, e);
  }

  lemma Chain(net: Net, me: Name, s: State, r: Result, r': Result)
    requires Settled(net, "", s, r) || Settled(net, me, s, r)
    requires !Answered(r.outcome) && Settled(net, me, r.state, r')
    ensures Settled(net, me, s, r')
  {
    if Answered(r'.outcome) && Wrote(net, r.state.world, r') {
      WroteSince(net, r.state.world, s.world, r');
    }
  }

  lemma {:induction false} SettledSource(net: Net, source: Source, request: Request, s: State)
    requires WellFormed(net) && Open(s.ctx)
    ensures Settled(net, "", s, AskSource(net, source, request, s))
    decreases Unvisited(net, s.ctx.visited), source, 2
  {
    match source
    case Leaf(_, _) =>
    case Multi(_, sources) => SettledMulti(net, sources, request, s);
    case Balanced(name, sources) => SettledBalanced(net, name, sources, |sources| + 1, request, s);
    case File(upstream) => if upstream.Some? { SettledSource(net, upstream.value, request, s); }
    case Reference(name) => if name !in s.ctx.visited { SettledNamed(net, name, request, s); }
  }

  lemma {:induction false} SettledMulti(net: Net, sources: seq<Source>, request: Request, s: State)
    requires WellFormed(net) && Open(s.ctx)
    ensures Settled(net, "", s, AskMulti(net, sources, request, s))
    decreases Unvisited(net, s.ctx.visited), sources, 0
  {
    if sources != [] {
      SettledSource(net, sources[0], request, s);
      var r := AskSource(net, sources[0], request, s);
      if !Answered(r.outcome) {
        SettledMulti(net, sources[1..], request, r.state);
        Chain(net, "", s, r, AskMulti(net, sources[1..], request, r.state));
      }
    }
  }

  lemma {:induction false} SettledBalanced(net: Net, name: string, sources: seq<Source>, tries: nat, request: Request, s: State)
    requires WellFormed(net) && Open(s.ctx)
    ensures Settled(net, "", s, AskBalanced(net, name, sources, tries, request, s))
    decreases Unvisited(net, s.ctx.visited), sources, tries
  {
    if tries > 0 && sources != [] {
      SettledPicked(net, name, sources, request, s);
      var r := AskPicked(net, name, sources, request, s);
      if !Answered(r.outcome) {
        SettledBalanced(net, name, sources, tries - 1, request, r.state);
        Chain(net, "", s, r, AskBalanced(net, name, sources, tries - 1, request, r.state));
      }
    }
  }

  lemma {:induction false} SettledPicked(net: Net, name: string, sources: seq<Source>, request: Request, s: State)
    requires WellFormed(net) && Open(s.ctx) && sources != []
    ensures Settled(net, "", s, AskPicked(net, name, sources, request, s))
    decreases Unvisited(net, s.ctx.visited), sources, 0
  {
    var s1 := Advance(s, name, |sources|);
    var source := sources[Cursor(s.world.cursors, name, |sources|)];
    SettledSource(net, source, request, s1);
    Moved(net, s, s1, AskSource(net, source, request, s1));
  }

  /** Moving a cursor is invisible to the contract. */
  lemma Moved(net: Net, s: State, s1: State, r: Result)
    requires Settled(net, "", s1, r)
    requires s1.world.(cursors := s.world.cursors) == s.world
    ensures Settled(net, "", s, r)
  {
    if Answered(r.outcome) && Wrote(net, s1.world, r) {
      WroteSince(net, s1.world, s.world, r);
    }
  }

  lemma {:induction false} SettledSources(net: Net, owner: Name, sources: seq<Source>, request: Request, s: State)
    requires WellFormed(net) && Open(s.ctx) && owner != ""
    ensures var r := AskSources(net, owner, sources, request, s);
            Settled(net, owner, s, r) && (Answered(r.outcome) ==> r.state.ctx.resolverUsed != "")
    decreases Unvisited(net, s.ctx.visited), sources, 0
  {
    if sources != [] {
      SettledSource(net, sources[0], request, s);
      var r := AskSource(net, sources[0], request, s);
      if Answered(r.outcome) {
        Credited(net, owner, s, r);
      } else {
        SettledSources(net, owner, sources[1..], request, r.state);
        Chain(net, owner, s, r, AskSources(net, owner, sources[1..], request, r.state));
      }
    }
  }

  lemma Credited(net: Net, owner: Name, s: State, r: Result)
    requires Answered(r.outcome) && owner != "" && Settled(net, "", s, r)
    ensures Settled(net, owner, s, Result(r.outcome, Credit(r.state, owner)))
  {
    if r.state.ctx.resolverUsed != "" {
      assert Result(r.outcome, Credit(r.state, owner)) == r;
    }
  }

  lemma {:induction false} SettledSearch(net: Net, owner: Name, sources: seq<Source>, domains: seq<string>, request: Request, s: State)
    requires WellFormed(net) && Open(s.ctx) && owner != "" && request.questions != []
    ensures var r := Search(net, owner, sources, domains, request, s);
            Settled(net, owner, s, r) && (Answered(r.outcome) ==> r.state.ctx.resolverUsed != "")
    decreases Unvisited(net, s.ctx.visited), sources, 1, |domains|
  {
    if domains == [] {
    } else if domains[0] == "" {
      SettledSearch(net, owner, sources, domains[1..], request, s);
    } else {
      var asked := SearchRequest(request, domains[0]);
      SettledSources(net, owner, sources, asked, s);
      var r := AskSources(net, owner, sources, asked, s);
      if Answered(r.outcome) {
        Relabelling(net, owner, s, r, request);
      } else {
        SettledSearch(net, owner, sources, domains[1..], request, r.state);
        Chain(net, owner, s, r, Search(net, owner, sources, domains[1..], request, r.state));
      }
    }
  }

  lemma Relabelling(net: Net, owner: Name, s: State, r: Result, request: Request)
    requires Answered(r.outcome) && request.questions != [] && Settled(net, owner, s, r)
    ensures Settled(net, owner, s, Result(Reply(Relabelled(r.outcome.message, request)), r.state))
  {
    var m := Relabelled(r.outcome.message, request);
    RelabelKeeps(r.outcome.message, request);
    ContentFixesLifetime(r.outcome.message, m);
    SameContent(net, owner, s, r, m);
  }

  /** The contract reads an answer only up to its content. */
  lemma SameContent(net: Net, me: Name, s: State, r: Result, m: Message)
    requires Answered(r.outcome) && Settled(net, me, s, r)
    requires !IsEmpty(m) && Content(m) == Content(r.outcome.message) && Storable(m) == Storable(r.outcome.message)
    ensures Settled(net, me, s, Result(Reply(m), r.state))
  {
    var c, w := r.state.ctx, r.state.world;
    if c.cached {
      HitUpToContent(r, m);
    } else if c.stored && !LastKind(w, Authoritative) {
      WroteUpToContent(net, s.world, r, m);
    }
  }

  lemma HitUpToContent(r: Result, m: Message)
    requires r.outcome.Reply? && Hit(r) && Content(m) == Content(r.outcome.message)
    ensures Hit(Result(Reply(m), r.state))
  {
    var key :| HitAt(r, key);
    assert HitAt(Result(Reply(m), r.state), key);
  }

  lemma WroteUpToContent(net: Net, before: World, r: Result, m: Message)
    requires r.outcome.Reply? && Wrote(net, before, r) && Content(m) == Content(r.outcome.message)
    ensures Wrote(net, before, Result(Reply(m), r.state))
  {
    var key, e :| WroteAs(net, before, r, key, e);
    assert WroteAs(net, before, Result(Reply(m), r.state), key, e);
  }

  lemma {:induction false} SettledWork(net: Net, resolver: Resolver, request: Request, s: State)
    requires WellFormed(net) && Open(s.ctx) && resolver.name != "" && request.questions != []
    ensures var r := Work(net, resolver, request, s);
            Settled(net, resolver.name, s, r) && (Answered(r.outcome) ==> r.state.ctx.resolverUsed != "")
    decreases Unvisited(net, s.ctx.visited), resolver.sources, 2
  {
    SettledSources(net, resolver.name, resolver.sources, request, s);
    var r := AskSources(net, resolver.name, resolver.sources, request, s);
    if !Answered(r.outcome) && |resolver.search| > 0 && Searchable(request.questions[0].name) {
      SettledSearch(net, resolver.name, resolver.sources, resolver.search, request, r.state);
      Chain(net, resolver.name, s, r, Work(net, resolver, request, s));
    }
  }

  lemma Storing(net: Net, owner: Name, request: Request, s: State, r: Result)
    requires owner != "" && request.questions != []
    requires Settled(net, owner, s, r) && (Answered(r.outcome) ==> r.state.ctx.resolverUsed != "")
    requires Answered(r.outcome) || r.outcome.Nothing?
    ensures Settled(net, "", s, StoreAnswer(net, owner, request, r))
  {
    var r' := StoreAnswer(net, owner, request, r);
    if r' != r {
      var e := Envelope(r.outcome.message, r.state.world.now, Lifetime(r.outcome.message));
      assert WroteAs(net, s.world, r', KeyOf(net.names, request.questions), e);
    }
  }

  /** Who is asking is invisible to the contract. */
  lemma Returning(net: Net, s: State, r: Result, caller: Name)
    requires Settled(net, "", s, r)
    ensures Settled(net, "", s, Return(r, caller))
  {
    var c, r' := r.state.ctx, Return(r, caller);
    if Answered(r.outcome) {
      if c.cached {
        var key :| HitAt(r, key);
        assert HitAt(r', key);
      } else if c.stored && !LastKind(r.state.world, Authoritative) {
        var key, e :| WroteAs(net, s.world, r, key, e);
        assert WroteAs(net, s.world, r', key, e);
      }
    }
  }

  lemma {:induction false} SettledEnter(net: Net, resolver: Resolver, request: Request, s: State)
    requires WellFormed(net) && Open(s.ctx)
    requires resolver.name in net.resolvers && resolver.name !in s.ctx.visited
    ensures var r := Enter(net, resolver, request, s);
            Settled(net, "", s, r) && (Answered(r.outcome) ==> r.state.ctx.resolverUsed != "")
    decreases Unvisited(net, s.ctx.visited), Reference(resolver.name), 0
  {
    if request.questions == [] || !Accepts(net, resolver, Lower(request.questions[0].name)) {
    } else {
      var s1 := Visit(s, resolver.name);
      VisitGrows(net, s.ctx.visited, resolver.name, s1.ctx.visited);
      if CacheHit(net, resolver.name, request, s1.world).Some? {
        assert HitAt(Enter(net, resolver, request, s), KeyOf(net.names, request.questions));
      } else {
        SettledWork(net, resolver, request, s1);
        var r := Work(net, resolver, request, s1);
        Storing(net, resolver.name, request, s1, r);
        var r' := StoreAnswer(net, resolver.name, request, r);
        assert Enter(net, resolver, request, s) == Return(r', s.ctx.current);
        assert Settled(net, "", s, r') by { assert s1.world == s.world; }
        Returning(net, s, r', s.ctx.current);
      }
    }
  }

  lemma {:induction false} SettledNamed(net: Net, name: Name, request: Request, s: State)
    requires WellFormed(net) && Open(s.ctx)
    ensures var r := AskNamed(net, name, request, s);
            Settled(net, "", s, r) && (Answered(r.outcome) ==> r.state.ctx.resolverUsed != "")
    decreases Unvisited(net, s.ctx.visited), Reference(name), 1
  {
    if name in net.resolvers && name !in s.ctx.visited {
      SettledEnter(net, net.resolvers[name], request, s);
    }
  }

  lemma {:induction false} SettledAll(net: Net, names: seq<Name>, request: Request, s: State)
    requires WellFormed(net) && Open(s.ctx)
    ensures var r := AskAll(net, names, request, s);
            Settled(net, "", s, r) && (Answered(r.outcome) ==> r.state.ctx.resolverUsed != "")
    decreases |names|
  {
    if names != [] {
      SettledNamed(net, names[0], request, s);
      var r := AskNamed(net, names[0], request, s);
      if !Answered(r.outcome) {
        SettledAll(net, names[1..], request, r.state);
        Chain(net, "", s, r, AskAll(net, names[1..], request, r.state));
      }
    }
  }
}
