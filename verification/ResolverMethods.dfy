/** Resolution as it runs: a context and a resolver map that are updated in place, loops over
    sources, search domains and resolver names.  Every method is proved to do what the function of
    the same step in `Resolution` says, so everything proved about those holds of these. */
module ResolverMethods {
  import opened Text
  import opened Domains
  import opened Dns
  import opened Cache
  import opened Resolution

  class ResolutionContext {
    var visited: seq<Name>
    var stored: bool
    var cached: bool
    var resolverUsed: Name
    var current: Name

    constructor ()
      ensures Value() == FRESH
    {
      visited, stored, cached, resolverUsed, current := [], false, false, "", "";
    }

    ghost function Value(): (r: Context)
      reads this
    {
      Context(visited, stored, cached, resolverUsed, current)
    }
  }

  /** resolver.Answer after the visit: the cache, or the work and its storing. */
  ghost function Entered(net: Net, resolver: Resolver, request: Request, s: State): (r: Result)
    requires WellFormed(net) && request.questions != []
  {
    var hit := CacheHit(net, resolver.name, request, s.world);
    if hit.Some? then
      var s' := Credit(s, resolver.name);
      Result(Reply(hit.value), s'.(ctx := s'.ctx.(stored := true, cached := true)))
    else StoreAnswer(net, resolver.name, request, Work(net, resolver, request, s))
  }

  class ResolverMap {
    const net: Net
    const cache: ResponseCache
    var now: nat
    var cursors: map<string, nat>
    var calls: seq<Call>

    constructor (net: Net, now: nat)
      requires WellFormed(net)
      ensures Valid() && this.net == net && fresh(cache)
      ensures this.now == now && cursors == map[] && calls == [] && cache.backers == map[] && cache.log == []
    {
      this.net := net;
      this.now := now;
      cursors := map[];
      calls := [];
      cache := new ResponseCache(net.names);
      new;
      forall p, k ensures FaithfulAt(map[], [], now, p, k) {}
    }

    ghost predicate Valid()
      reads this, cache
    {
      WellFormed(net) && cache.names == net.names && cache.Valid(now)
    }

    ghost function Memory(): (r: World)
      reads this, cache
    {
      World(now, cache.backers, cache.log, cursors, calls)
    }

    ghost function Now(ctx: ResolutionContext): (r: State)
      reads this, cache, ctx
    {
      State(ctx.Value(), Memory())
    }

    method AnswerLeaf(leaf: string, kind: LeafKind, ctx: ResolutionContext, request: Request) returns (outcome: Outcome)
      requires Valid()
      modifies this`now, this`calls, ctx`stored
      ensures Valid()
      ensures Result(outcome, Now(ctx)) == CallLeaf(net, leaf, kind, request, old(Now(ctx)))
    {
      var arrival := net.upstream(leaf, request, |calls|);
      outcome := arrival.outcome;
      TickKeepsFaithful(cache.backers, cache.log, now, now + arrival.elapsed);
      now := now + arrival.elapsed;
      calls := calls + [Call(leaf, kind, request, now, outcome, ctx.current)];
      if kind.Authoritative? && Answered(outcome) {
        ctx.stored := true;
      }
    }

    method AnswerSource(source: Source, ctx: ResolutionContext, request: Request) returns (outcome: Outcome)
      requires Valid()
      modifies this`now, this`cursors, this`calls, cache, ctx
      ensures Valid()
      ensures Result(outcome, Now(ctx)) == AskSource(net, source, request, old(Now(ctx)))
      decreases Unvisited(net, ctx.visited), source, 2
    {
      match source
      case Leaf(id, kind) => outcome := AnswerLeaf(id, kind, ctx, request);
      case Multi(_, sources) => outcome := AnswerMulti(sources, ctx, request);
      case Balanced(name, sources) => outcome := AnswerBalanced(name, sources, ctx, request);
      case File(upstream) =>
        if upstream.Some? {
          outcome := AnswerSource(upstream.value, ctx, request);
        } else {
          outcome := Nothing;
        }
      case Reference(name) =>
        if name in ctx.visited {
          outcome := Nothing;
        } else {
          outcome := AnswerWithContext(name, ctx, request);
        }
    }

    method AnswerMulti(sources: seq<Source>, ctx: ResolutionContext, request: Request) returns (outcome: Outcome)
      requires Valid()
      modifies this`now, this`cursors, this`calls, cache, ctx
      ensures Valid()
      ensures Result(outcome, Now(ctx)) == AskMulti(net, sources, request, old(Now(ctx)))
      decreases Unvisited(net, ctx.visited), sources, 0
    {
      var i := 0;
      assert sources[0..] == sources;
      while i < |sources|
        invariant 0 <= i <= |sources| && Valid()
        invariant Unvisited(net, ctx.visited) <= old(Unvisited(net, ctx.visited))
        invariant AskMulti(net, sources[i..], request, Now(ctx)) == AskMulti(net, sources, request, old(Now(ctx)))
      {
        assert sources[i..][1..] == sources[i + 1..];
        outcome := AnswerSource(sources[i], ctx, request);
        if Answered(outcome) {
          return;
        }
        i := i + 1;
      }
      outcome := Failed;
    }

    method AnswerBalanced(name: string, sources: seq<Source>, ctx: ResolutionContext, request: Request) returns (outcome: Outcome)
      requires Valid()
      modifies this`now, this`cursors, this`calls, cache, ctx
      ensures Valid()
      ensures Result(outcome, Now(ctx)) == AskBalanced(net, name, sources, |sources| + 1, request, old(Now(ctx)))
      decreases Unvisited(net, ctx.visited), sources, |sources| + 1
    {
      var tries := |sources|;
      ghost var goal, unvisited := AskBalanced(net, name, sources, |sources| + 1, request, Now(ctx)), Unvisited(net, ctx.visited);
      while tries >= 0 && sources != []
        invariant -1 <= tries <= |sources| && Valid() && Unvisited(net, ctx.visited) <= unvisited
        invariant AskBalanced(net, name, sources, tries + 1, request, Now(ctx)) == goal
      {
        outcome := TryNext(name, sources, ctx, request, tries, goal, unvisited);
        if Answered(outcome) {
          return;
        }
        tries := tries - 1;
      }
      outcome := Failed;
    }

    /** One turn, with `tries` more to come. */
    method TryNext(name: string, sources: seq<Source>, ctx: ResolutionContext, request: Request, ghost tries: nat, ghost goal: Result,
                   ghost unvisited: set<Name>)
      returns (outcome: Outcome)
      requires Valid() && sources != [] && AskBalanced(net, name, sources, tries + 1, request, Now(ctx)) == goal
      requires Unvisited(net, ctx.visited) <= unvisited
      modifies this`now, this`cursors, this`calls, cache, ctx
      ensures Valid() && Unvisited(net, ctx.visited) <= unvisited
      ensures Answered(outcome) ==> Result(outcome, Now(ctx)) == goal
      ensures !Answered(outcome) ==> AskBalanced(net, name, sources, tries, request, Now(ctx)) == goal
      decreases unvisited, sources, 1
    {
      ghost var s := Now(ctx);
      outcome := AnswerPicked(name, sources, ctx, request);
      BalancedStep(net, name, sources, tries + 1, request, s, Result(outcome, Now(ctx)));
    }

    method AnswerPicked(name: string, sources: seq<Source>, ctx: ResolutionContext, request: Request) returns (outcome: Outcome)
      requires Valid() && sources != []
      modifies this`now, this`cursors, this`calls, cache, ctx
      ensures Valid()
      ensures Result(outcome, Now(ctx)) == AskPicked(net, name, sources, request, old(Now(ctx)))
      decreases Unvisited(net, ctx.visited), sources, 0
    {
      var idx := Cursor(cursors, name, |sources|);
      cursors := cursors[name := RoundRobin(idx, |sources|)];
      outcome := AnswerSource(sources[idx], ctx, request);
    }

    /** resolver.answer */
    method AnswerSources(owner: Name, sources: seq<Source>, ctx: ResolutionContext, request: Request) returns (outcome: Outcome)
      requires Valid()
      modifies this`now, this`cursors, this`calls, cache, ctx
      ensures Valid()
      ensures Result(outcome, Now(ctx)) == AskSources(net, owner, sources, request, old(Now(ctx)))
      decreases Unvisited(net, ctx.visited), sources, 0
    {
      var i := 0;
      assert sources[0..] == sources;
      while i < |sources|
        invariant 0 <= i <= |sources| && Valid()
        invariant Unvisited(net, ctx.visited) <= old(Unvisited(net, ctx.visited))
        invariant AskSources(net, owner, sources[i..], request, Now(ctx)) == AskSources(net, owner, sources, request, old(Now(ctx)))
      {
        assert sources[i..][1..] == sources[i + 1..];
        outcome := AnswerSource(sources[i], ctx, request);
        if Answered(outcome) {
          if "" == ctx.resolverUsed {
            ctx.resolverUsed := owner;
          }
          return;
        }
        i := i + 1;
      }
      outcome := Nothing;
    }

    method SearchDomains(resolver: Resolver, ctx: ResolutionContext, request: Request) returns (outcome: Outcome)
      requires Valid() && request.questions != []
      modifies this`now, this`cursors, this`calls, cache, ctx
      ensures Valid()
      ensures Searchable(request.questions[0].name) ==>
        Result(outcome, Now(ctx)) == Search(net, resolver.name, resolver.sources, resolver.search, request, old(Now(ctx)))
      ensures !Searchable(request.questions[0].name) ==> outcome == Nothing && Now(ctx) == old(Now(ctx))
      decreases Unvisited(net, ctx.visited), resolver.sources, 1
    {
      var original := request.questions[0].name;
      if !Searchable(original) {
        return Nothing;
      }
      var i := 0;
      ghost var goal := Search(net, resolver.name, resolver.sources, resolver.search, request, Now(ctx));
      assert resolver.search[0..] == resolver.search;
      while i < |resolver.search|
        invariant 0 <= i <= |resolver.search| && Valid()
        invariant Unvisited(net, ctx.visited) <= old(Unvisited(net, ctx.visited))
        invariant Search(net, resolver.name, resolver.sources, resolver.search[i..], request, Now(ctx)) == goal
      {
        SearchStep(net, resolver.name, resolver.sources, resolver.search, i, request, Now(ctx));
        if "" != resolver.search[i] {
          outcome := AnswerSources(resolver.name, resolver.sources, ctx, SearchRequest(request, resolver.search[i]));
          if Answered(outcome) {
            outcome := Reply(Relabelled(outcome.message, request));
            return;
          }
        }
        i := i + 1;
      }
      outcome := Nothing;
    }

    /** The middle of resolver.Answer: own sources, then search domains. */
    method AnswerFromSources(resolver: Resolver, ctx: ResolutionContext, request: Request) returns (outcome: Outcome)
      requires Valid() && request.questions != []
      modifies this`now, this`cursors, this`calls, cache, ctx
      ensures Valid()
      ensures Result(outcome, Now(ctx)) == Work(net, resolver, request, old(Now(ctx)))
      decreases Unvisited(net, ctx.visited), resolver.sources, 2
    {
      outcome := AnswerSources(resolver.name, resolver.sources, ctx, request);
      if !Answered(outcome) && |resolver.search| > 0 {
        var found := SearchDomains(resolver, ctx, request);
        if Answered(found) {
          outcome := found;
        }
      }
    }

    method QueryCache(owner: Name, ctx: ResolutionContext, request: Request) returns (hit: Option<Message>)
      requires Valid()
      modifies ctx
      ensures hit == CacheHit(net, owner, request, Memory())
      ensures ctx.Value() ==
        if hit.Some? then Credit(old(Now(ctx)), owner).ctx.(stored := true, cached := true) else old(ctx.Value())
    {
      if net.caching {
        hit := cache.Query(owner, request, now);
        if hit.Some? && !IsEmpty(hit.value) {
          if "" == ctx.resolverUsed {
            ctx.resolverUsed := owner;
          }
          ctx.stored := true;
          ctx.cached := true;
          return;
        }
      }
      hit := None;
    }

    method StoreInCache(owner: Name, ctx: ResolutionContext, request: Request, outcome: Outcome)
      requires Valid()
      modifies cache, ctx`stored
      ensures Valid()
      ensures Result(outcome, Now(ctx)) == StoreAnswer(net, owner, request, Result(outcome, old(Now(ctx))))
    {
      if net.caching && !ctx.stored && outcome.Reply? && !outcome.message.truncated {
        ctx.stored := cache.Store(owner, request, Some(outcome.message), now);
      }
    }

    /** resolver.Answer */
    method AnswerResolver(resolver: Resolver, ctx: ResolutionContext, request: Request) returns (outcome: Outcome)
      requires Valid()
      requires resolver.name in net.resolvers && resolver.name !in ctx.visited
      modifies this`now, this`cursors, this`calls, cache, ctx
      ensures Valid()
      ensures Result(outcome, Now(ctx)) == Enter(net, resolver, request, old(Now(ctx)))
      decreases Unvisited(net, ctx.visited), Reference(resolver.name), 0
    {
      if |request.questions| < 1 {
        return Nothing;
      }
      var qname := Lower(request.questions[0].name);
      var inDomains := DomainMatches(net.glob, qname, resolver.domains);
      var inSkip := DomainMatches(net.glob, qname, resolver.skip);
      if (|resolver.domains| > 0 && !inDomains) || (|resolver.skip| > 0 && inSkip) {
        return Nothing;
      }
      VisitGrows(net, ctx.visited, resolver.name, ctx.visited + [resolver.name]);
      var caller := ctx.current;
      ctx.visited, ctx.current := ctx.visited + [resolver.name], resolver.name;
      outcome := AnswerEntered(resolver, ctx, request);
      ctx.current := caller;
    }

    /** The rest of resolver.Answer, once the resolver is marked as visited. */
    method AnswerEntered(resolver: Resolver, ctx: ResolutionContext, request: Request) returns (outcome: Outcome)
      requires Valid() && request.questions != []
      modifies this`now, this`cursors, this`calls, cache, ctx
      ensures Valid()
      ensures Result(outcome, Now(ctx)) == Entered(net, resolver, request, old(Now(ctx)))
      decreases Unvisited(net, ctx.visited), resolver.sources, 3
    {
      var hit := QueryCache(resolver.name, ctx, request);
      if hit.Some? {
        return Reply(hit.value);
      }
      outcome := AnswerFromSources(resolver, ctx, request);
      StoreInCache(resolver.name, ctx, request, outcome);
    }

    method AnswerWithContext(name: Name, ctx: ResolutionContext, request: Request) returns (outcome: Outcome)
      requires Valid()
      modifies this`now, this`cursors, this`calls, cache, ctx
      ensures Valid()
      ensures Result(outcome, Now(ctx)) == AskNamed(net, name, request, old(Now(ctx)))
      decreases Unvisited(net, ctx.visited), Reference(name), 1
    {
      if name !in net.resolvers {
        return Nothing;
      }
      if name in ctx.visited {
        return Nothing;
      }
      outcome := AnswerResolver(net.resolvers[name], ctx, request);
    }

    method AnswerMultiResolvers(names: seq<Name>, request: Request) returns (outcome: Outcome, ctx: ResolutionContext)
      requires Valid()
      modifies this`now, this`cursors, this`calls, cache
      ensures Valid() && fresh(ctx)
      ensures Result(outcome, Now(ctx)) == Resolve(net, names, request, old(Memory()))
      ensures !outcome.Failed?
    {
      ctx := new ResolutionContext();
      var errors := 0;
      var i := 0;
      assert names[0..] == names;
      while i < |names|
        invariant 0 <= i <= |names| && Valid() && errors == 0
        invariant fresh(ctx)
        invariant AskAll(net, names[i..], request, Now(ctx)) == Resolve(net, names, request, old(Memory()))
      {
        assert names[i..][1..] == names[i + 1..];
        outcome := AnswerWithContext(names[i], ctx, request);
        if outcome.Failed? {
          errors := errors + 1;
        } else if Answered(outcome) {
          return;
        }
        i := i + 1;
      }
      outcome := if errors > 0 then Failed else Nothing;
    }
  }
}
