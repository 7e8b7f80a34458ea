/** Where answers come from: one cache write per request, into the partition of the innermost resolver, and
    freshness of cached answers over every run of requests, clock ticks, clears and janitor passes. */
module Provenance {
  import opened Dns
  import opened Cache
  import opened Resolution
  import opened Settling
  import opened Crediting

  /** The resolver made the call itself, to a leaf among its own sources. */
  predicate CalledBy(net: Net, name: Name, c: Call) {
    c.caller == name && OwnLeaf(net, name, c.leaf)
  }

  // ---- one request ----

  lemma {:induction false} FewerThanResolvers(visited: seq<Name>, resolvers: set<Name>)
    requires NoDuplicates(visited) && forall n :: n in visited ==> n in resolvers
    ensures |visited| <= |resolvers|
    decreases |visited|
  {
    if visited != [] {
      var init, last := visited[..|visited| - 1], visited[|visited| - 1];
      assert last !in init;
      FewerThanResolvers(init, resolvers - {last});
    }
  }

  /** However the resolvers refer to one another, a request enters each of them at most once. */
  lemma EachResolverIsEnteredAtMostOnce(net: Net, names: seq<Name>, request: Request, w: World)
    requires WellFormed(net)
    ensures var visited := Resolve(net, names, request, w).state.ctx.visited;
            NoDuplicates(visited) && multiset(visited) <= multiset(net.resolvers.Keys) && |visited| <= |net.resolvers|
  {
    var visited := Resolve(net, names, request, w).state.ctx.visited;
    FewerThanResolvers(visited, net.resolvers.Keys);
    forall n ensures multiset(visited)[n] <= multiset(net.resolvers.Keys)[n] {
      OccursOnce(visited, n);
    }
  }

  lemma {:induction false} OccursOnce(names: seq<Name>, n: Name)
    requires NoDuplicates(names)
    ensures multiset(names)[n] == if n in names then 1 else 0
    decreases |names|
  {
    if names != [] {
      OccursOnce(names[1..], n);
      assert names == [names[0]] + names[1..];
      assert names[0] !in names[1..];
    }
  }

  /** A request writes to the cache at most once, into the partition of the resolver it reports as
      used, and it does so exactly when a forwarding leaf has just answered with a storable message.
      That resolver is the innermost one: it asked the leaf itself, as one of its own sources.  In particular
      neither a cached hit nor a hosts or zone answer is ever stored by anyone. */
  lemma OneWritePerRequest(net: Net, names: seq<Name>, request: Request, w: World)
    requires WellFormed(net)
    ensures var r := Resolve(net, names, request, w);
            var w', ctx := r.state.world, r.state.ctx;
            && (w'.log != w.log <==>
                 && Answered(r.outcome) && !ctx.cached && LastKind(w', Forwarding)
                 && net.caching && Storable(r.outcome.message))
            && (w'.log == w.log ==> w'.backers == w.backers)
            && (w'.log != w.log ==> Wrote(net, w, r))
            && (Answered(r.outcome) ==> ctx.resolverUsed != "")
            && (Answered(r.outcome) && !ctx.cached ==> w'.calls != [] && CalledBy(net, ctx.resolverUsed, w'.calls[|w'.calls| - 1]))
  {
    SettledAll(net, names, request, State(FRESH, w));
    CreditAll(net, names, request, State(FRESH, w));
    var r := Resolve(net, names, request, w);
    if Answered(r.outcome) && Wrote(net, w, r) {
      var key, e :| WroteAs(net, w, r, key, e);
      ContentFixesLifetime(e.message, r.outcome.message);
    }
  }

  // ---- every run ----

  /** The call that an item of a partition goes back to: one to an own leaf of that resolver. */
  predicate Origin(net: Net, partition: Name, c: Call, e: Envelope) {
    CalledBy(net, partition, c) && c.kind.Forwarding? && Answered(c.outcome) && c.at == e.time && Content(c.outcome.message) == Content(e.message)
  }

  ghost predicate CameFrom(net: Net, w: World, partition: Name, e: Envelope) {
    exists i :: 0 <= i < |w.calls| && Origin(net, partition, w.calls[i], e)
  }

  ghost predicate Provenant(net: Net, w: World) {
    && Faithful(w.backers, w.log, w.now)
    && forall p, k :: Lookup(w.backers, p, k).Some? ==> CameFrom(net, w, p, Lookup(w.backers, p, k).value)
  }

  datatype Step = Ask(names: seq<Name>, request: Request) | Tick(elapsed: nat) | ClearAll | Janitor

  function After(net: Net, w: World, step: Step): (r: World)
    requires WellFormed(net)
  {
    match step
    case Ask(names, request) => Resolve(net, names, request, w).state.world
    case Tick(n) => w.(now := w.now + n)
    case ClearAll => w.(backers := Flushed(w.backers), log := w.log + [Cleared])
    case Janitor => w.(backers := Scraped(w.backers, w.now))
  }

  function AfterAll(net: Net, w: World, steps: seq<Step>): (r: World)
    requires WellFormed(net)
  {
    if steps == [] then w else After(net, AfterAll(net, w, steps[..|steps| - 1]), steps[|steps| - 1])
  }

  function Start(now: nat): (r: World) {
    World(now, map[], [], map[], [])
  }

  lemma StillCameFrom(net: Net, w: World, w': World, partition: Name, e: Envelope)
    requires CameFrom(net, w, partition, e) && w.calls <= w'.calls
    ensures CameFrom(net, w', partition, e)
  {
    var i :| 0 <= i < |w.calls| && Origin(net, partition, w.calls[i], e);
    assert w'.calls[i] == w.calls[i];
  }

  lemma RequestKeepsProvenance(net: Net, names: seq<Name>, request: Request, w: World)
    requires WellFormed(net) && Provenant(net, w)
    ensures Provenant(net, Resolve(net, names, request, w).state.world)
  {
    SettledAll(net, names, request, State(FRESH, w));
    CreditAll(net, names, request, State(FRESH, w));
    var r := Resolve(net, names, request, w);
    var w' := r.state.world;
    TickKeepsFaithful(w.backers, w.log, w.now, w'.now);
    forall p, k | Lookup(w.backers, p, k).Some? ensures CameFrom(net, w', p, Lookup(w.backers, p, k).value) {
      StillCameFrom(net, w, w', p, Lookup(w.backers, p, k).value);
    }
    if !Untouched(w, w') {
      WriteKeepsProvenance(net, w, r);
    }
  }

  lemma WriteKeepsProvenance(net: Net, w: World, r: Result)
    requires Answered(r.outcome) && FromLastCall(r) && LastKind(r.state.world, Forwarding) && Wrote(net, w, r)
    requires Faithful(w.backers, w.log, r.state.world.now) && CalledBy(net, r.state.ctx.resolverUsed, r.state.world.calls[|r.state.world.calls| - 1])
    requires forall p, k :: Lookup(w.backers, p, k).Some? ==> CameFrom(net, r.state.world, p, Lookup(w.backers, p, k).value)
    ensures Provenant(net, r.state.world)
  {
    var w' := r.state.world;
    var key, e :| WroteAs(net, w, r, key, e);
    StoreKeepsFaithful(w.backers, w.log, w'.now, r.state.ctx.resolverUsed, key, e);
    assert Origin(net, r.state.ctx.resolverUsed, w'.calls[|w'.calls| - 1], e);
    assert CameFrom(net, w', r.state.ctx.resolverUsed, e);
  }

  lemma {:induction false} EveryRunIsProvenant(net: Net, steps: seq<Step>, start: nat)
    requires WellFormed(net)
    ensures Provenant(net, AfterAll(net, Start(start), steps))
    decreases |steps|
  {
    if steps == [] {
      forall p, k ensures FaithfulAt(map[], [], start, p, k) {}
    } else {
      EveryRunIsProvenant(net, steps[..|steps| - 1], start);
      var w := AfterAll(net, Start(start), steps[..|steps| - 1]);
      var w' := After(net, w, steps[|steps| - 1]);
      match steps[|steps| - 1]
      case Ask(names, request) => RequestKeepsProvenance(net, names, request, w);
      case Tick(n) =>
        TickKeepsFaithful(w.backers, w.log, w.now, w.now + n);
        assert forall p, k :: Lookup(w.backers, p, k).Some? ==> CameFrom(net, w', p, Lookup(w.backers, p, k).value);
      case ClearAll => ClearKeepsFaithful(w.backers, w.log, w.now);
      case Janitor =>
        ScrapeKeepsFaithful(w.backers, w.log, w.now);
        assert forall p, k :: Lookup(w.backers, p, k).Some? ==> CameFrom(net, w', p, Lookup(w.backers, p, k).value);
    }
  }

  /** `r` serves what the call `c` brought in for the resolver that is credited, no longer ago than that answer's lifetime, with every
      record aged by the whole seconds since then. */
  predicate FreshFrom(net: Net, c: Call, r: Result)
    requires r.outcome.Reply?
  {
    var now := r.state.world.now;
    && CalledBy(net, r.state.ctx.resolverUsed, c) && c.kind.Forwarding? && Answered(c.outcome)
    && c.at <= now && now - c.at <= Lifetime(c.outcome.message) * SECOND
    && Content(r.outcome.message) == Content(Aged(c.outcome.message, (now - c.at) / SECOND))
  }

  /** Freshness over every run: whatever happened before, an answer served from the cache was brought
      in by a forwarding leaf of the credited resolver's own, is not older than its own lifetime, and is not stored again, so that
      nesting of resolvers never extends a lifetime. */
  lemma CachedAnswersAreFresh(net: Net, steps: seq<Step>, start: nat, names: seq<Name>, request: Request)
    requires WellFormed(net)
    ensures var w := AfterAll(net, Start(start), steps);
            var r := Resolve(net, names, request, w);
            r.state.ctx.cached ==>
              && Answered(r.outcome)
              && r.state.world.log == w.log && r.state.world.backers == w.backers
              && exists i :: 0 <= i < |w.calls| && FreshFrom(net, w.calls[i], r)
  {
    var w := AfterAll(net, Start(start), steps);
    var r := Resolve(net, names, request, w);
    EveryRunIsProvenant(net, steps, start);
    SettledAll(net, names, request, State(FRESH, w));
    if r.state.ctx.cached {
      HitIsFresh(net, w, r);
    }
  }

  /** The cache entry behind a hit is unexpired and carries what is served, aged. */
  lemma HitHasEntry(w: World, r: Result, key: string)
    requires Faithful(w.backers, w.log, w.now) && r.outcome.Reply? && HitAt(r, key)
    requires Untouched(w, r.state.world) && w.now <= r.state.world.now
    ensures var e, now := Lookup(w.backers, r.state.ctx.resolverUsed, key), r.state.world.now;
            && e.Some? && Sealed(e.value, now) && !Expired(e.value, now)
            && Content(r.outcome.message) == Content(Aged(e.value.message, (now - e.value.time) / SECOND))
  {
    assert FaithfulAt(w.backers, w.log, w.now, r.state.ctx.resolverUsed, key);
  }

  lemma HitIsFresh(net: Net, w: World, r: Result)
    requires Provenant(net, w) && r.outcome.Reply? && Hit(r) && Untouched(w, r.state.world) && w.now <= r.state.world.now
    ensures exists i :: 0 <= i < |w.calls| && FreshFrom(net, w.calls[i], r)
  {
    var key :| HitAt(r, key);
    HitHasEntry(w, r, key);
    EntryIsFresh(net, w, Lookup(w.backers, r.state.ctx.resolverUsed, key).value, r);
  }

  lemma EntryIsFresh(net: Net, w: World, e: Envelope, r: Result)
    requires CameFrom(net, w, r.state.ctx.resolverUsed, e) && r.outcome.Reply? && Sealed(e, r.state.world.now) && !Expired(e, r.state.world.now)
    requires Content(r.outcome.message) == Content(Aged(e.message, (r.state.world.now - e.time) / SECOND))
    ensures exists i :: 0 <= i < |w.calls| && FreshFrom(net, w.calls[i], r)
  {
    var i :| 0 <= i < |w.calls| && Origin(net, r.state.ctx.resolverUsed, w.calls[i], e);
    OriginIsFresh(net, w.calls[i], e, r);
  }

  lemma OriginIsFresh(net: Net, c: Call, e: Envelope, r: Result)
    requires r.outcome.Reply? && Origin(net, r.state.ctx.resolverUsed, c, e) && Sealed(e, r.state.world.now) && !Expired(e, r.state.world.now)
    requires Content(r.outcome.message) == Content(Aged(e.message, (r.state.world.now - e.time) / SECOND))
    ensures FreshFrom(net, c, r)
  {
    ContentFixesLifetime(e.message, c.outcome.message);
    ContentFixesAgeing(e.message, c.outcome.message, (r.state.world.now - e.time) / SECOND);
  }
}
