/** The cache at work in resolution: live answers are served without asking anybody, and answers that were
    asked for are remembered (resolver/resolver.go, cache/cache.go). */
module Serving {
  import opened Text
  import opened Dns
  import opened Domains
  import opened Cache
  import opened Resolution
  import opened Provenance

  /** The resolver exists and takes the asked name. */
  ghost predicate Takes(net: Net, name: Name, request: Request, asked: string) {
    && name in net.resolvers && AsksFor(request, asked)
    && (net.resolvers[name].domains != [] ==> Taken(net.glob, asked, net.resolvers[name].domains))
    && !Taken(net.glob, asked, net.resolvers[name].skip)
  }

  /** The latest answer stored for a request under a resolver is no older than its lifetime. */
  ghost predicate HasLive(net: Net, w: World, name: Name, request: Request) {
    var latest := Latest(w.log, name, KeyOf(net.names, request.questions));
    latest.Some? && w.now <= latest.value.time + latest.value.ttl * 1_000_000_000
  }

  lemma TakesIsEntered(net: Net, name: Name, request: Request, s: State, asked: string)
    requires WellFormed(net) && Takes(net, name, request, asked) && name !in s.ctx.visited
    ensures Accepts(net, net.resolvers[name], Lower(request.questions[0].name))
  {
    MatchesIff(net.glob, asked, net.resolvers[name].domains);
    MatchesIff(net.glob, asked, net.resolvers[name].skip);
  }

  lemma {:induction false} AgedSubstance(records: seq<Record>, elapsed: nat)
    ensures Substantive(AgedRecords(records, elapsed)) == Substantive(records)
    decreases |records|
  {
    if records != [] {
      AgedSubstance(records[1..], elapsed);
      assert AgedRecords(records, elapsed)[1..] == AgedRecords(records[1..], elapsed);
    }
  }

  lemma AgeingKeepsContent(m: Message, elapsed: nat, id: nat)
    requires Storable(m)
    ensures !IsEmpty(Aged(m, elapsed).(id := id))
  {
    AgedSubstance(Deciding(m), elapsed);
  }

  /** What is served while it lives is never empty, so that the resolver takes it. */
  lemma ServedIsNotEmpty(b: Backers, log: seq<Event>, now: nat, partition: string, key: string, id: nat)
    requires FaithfulAt(b, log, now, partition, key) && Served(b, partition, key, id, now).Some?
    ensures !IsEmpty(Served(b, partition, key, id, now).value)
  {
    var e := Lookup(b, partition, key).value;
    AgeingKeepsContent(e.message, (now - e.time) / SECOND, id);
  }

  lemma ServedIsTaken(net: Net, name: Name, request: Request, w: World)
    requires net.caching && request.questions != [] && Faithful(w.backers, w.log, w.now)
    ensures CacheHit(net, name, request, w) == Served(w.backers, name, KeyOf(net.names, request.questions), request.id, w.now)
  {
    var key := KeyOf(net.names, request.questions);
    assert FaithfulAt(w.backers, w.log, w.now, name, key);
    if Served(w.backers, name, key, request.id, w.now).Some? {
      ServedIsNotEmpty(w.backers, w.log, w.now, name, key, request.id);
    }
  }

  /** The lookup of an entered resolver finds an answer exactly when a live one is there. */
  lemma HitIffLive(net: Net, name: Name, request: Request, w: World)
    requires net.caching && request.questions != [] && Faithful(w.backers, w.log, w.now)
    ensures CacheHit(net, name, request, w).Some? <==> HasLive(net, w, name, request)
  {
    var key := KeyOf(net.names, request.questions);
    ServedIsTaken(net, name, request, w);
    assert FaithfulAt(w.backers, w.log, w.now, name, key);
    LookupHits(w.backers, w.log, w.now, name, key, request.id);
  }

  lemma HitIsCountedDown(net: Net, name: Name, request: Request, w: World)
    requires net.caching && request.questions != [] && Faithful(w.backers, w.log, w.now) && CacheHit(net, name, request, w).Some?
    ensures var e := Latest(w.log, name, KeyOf(net.names, request.questions));
            && e.Some? && e.value.time <= w.now
            && ServedFrom(e.value.message, CacheHit(net, name, request, w).value, request.id, (w.now - e.value.time) / 1_000_000_000)
  {
    var key := KeyOf(net.names, request.questions);
    ServedIsTaken(net, name, request, w);
    assert FaithfulAt(w.backers, w.log, w.now, name, key);
    LookupServes(w.backers, w.log, w.now, name, key, request.id);
  }

  /** The result is the stored answer, counted down, and nothing has been done for it. */
  ghost predicate ServedFromCache(net: Net, name: Name, request: Request, w: World, r: Result) {
    var e := Latest(w.log, name, KeyOf(net.names, request.questions));
    && e.Some? && e.value.time <= w.now && r.outcome.Reply? && r.state.world == w
    && r.state.ctx == Context([name], true, true, name, "")
    && ServedFrom(e.value.message, r.outcome.message, request.id, (w.now - e.value.time) / 1_000_000_000)
  }

  lemma LiveAnswerIsTaken(net: Net, name: Name, request: Request, w: World, asked: string)
    requires WellFormed(net) && net.caching && Takes(net, name, request, asked) && Faithful(w.backers, w.log, w.now)
    requires HasLive(net, w, name, request)
    ensures ServedFromCache(net, name, request, w, AskNamed(net, name, request, State(FRESH, w)))
    ensures Answered(AskNamed(net, name, request, State(FRESH, w)).outcome)
  {
    var s := State(FRESH, w);
    TakesIsEntered(net, name, request, s, asked);
    var s1 := Visit(s, name);
    VisitGrows(net, s.ctx.visited, name, s1.ctx.visited);
    HitIffLive(net, name, request, w);
    HitIsCountedDown(net, name, request, w);
    assert s1.ctx.visited == [name];
  }

  /** Over every run: a request that its first resolver takes and has a live answer for is answered from the
      cache, as that answer counted down and under the request's id, and no leaf is asked. */
  lemma LiveAnswersAreServed(net: Net, steps: seq<Step>, start: nat, names: seq<Name>, request: Request, asked: string)
    requires WellFormed(net) && net.caching && names != [] && Takes(net, names[0], request, asked)
    requires HasLive(net, AfterAll(net, Start(start), steps), names[0], request)
    ensures var w := AfterAll(net, Start(start), steps);
            ServedFromCache(net, names[0], request, w, Resolve(net, names, request, w))
  {
    EveryRunIsProvenant(net, steps, start);
    LiveAnswerIsTaken(net, names[0], request, AfterAll(net, Start(start), steps), asked);
  }

  // ---- answers are remembered ----

  /** A resolver whose first source is a forwarding leaf, without a live answer: the leaf is asked, and what it
      brings is handed out and stored under the resolver's name. */
  lemma LeafAnswerIsStored(net: Net, name: Name, request: Request, w: World, asked: string, leaf: string)
    requires WellFormed(net) && net.caching && Takes(net, name, request, asked) && Faithful(w.backers, w.log, w.now)
    requires net.resolvers[name].sources != [] && net.resolvers[name].sources[0] == Leaf(leaf, Forwarding)
    requires !HasLive(net, w, name, request)
    requires var o := net.upstream(leaf, request, |w.calls|).outcome; o.Reply? && Storable(o.message)
    ensures var r, a := AskNamed(net, name, request, State(FRESH, w)), net.upstream(leaf, request, |w.calls|);
            var e := Envelope(a.outcome.message, w.now + a.elapsed, Lifetime(a.outcome.message));
            && r.outcome == a.outcome && r.state.world.now == w.now + a.elapsed && |r.state.world.calls| == |w.calls| + 1
            && r.state.world.log == w.log + [Stored(name, KeyOf(net.names, request.questions), e)]
  {
    var s := State(FRESH, w);
    var s1 := Visit(s, name);
    TakesIsEntered(net, name, request, s, asked);
    VisitGrows(net, s.ctx.visited, name, s1.ctx.visited);
    HitIffLive(net, name, request, w);
    LeafIsAsked(net, net.resolvers[name], request, s1, leaf);
  }

  lemma LeafIsAsked(net: Net, resolver: Resolver, request: Request, s: State, leaf: string)
    requires WellFormed(net) && request.questions != [] && resolver.sources != [] && resolver.sources[0] == Leaf(leaf, Forwarding)
    requires Answered(net.upstream(leaf, request, |s.world.calls|).outcome)
    ensures var r, a := Work(net, resolver, request, s), net.upstream(leaf, request, |s.world.calls|);
            && r.outcome == a.outcome && r.state.ctx.stored == s.ctx.stored && r.state.world.now == s.world.now + a.elapsed
            && |r.state.world.calls| == |s.world.calls| + 1 && r.state.world.log == s.world.log
  {
    var r := CallLeaf(net, leaf, Forwarding, request, s);
    assert AskSource(net, resolver.sources[0], request, s) == r;
  }

  lemma LatestAfterStore(log: seq<Event>, name: Name, key: string, e: Envelope)
    ensures Latest(log + [Stored(name, key, e)], name, key) == Some(e)
  {
  }

  lemma AskOne(net: Net, name: Name, request: Request, s: State)
    requires WellFormed(net)
    ensures AskAll(net, [name], request, s).state == AskNamed(net, name, request, s).state
  {
    var names := [name];
    assert names[1..] == [];
  }

  lemma AskThenWait(net: Net, w: World, steps: seq<Step>, name: Name, request: Request, wait: nat)
    requires WellFormed(net)
    ensures var r := AskNamed(net, name, request, State(FRESH, AfterAll(net, w, steps)));
            AfterAll(net, w, steps + [Ask([name], request)] + [Tick(wait)]) == r.state.world.(now := r.state.world.now + wait)
  {
    var first := steps + [Ask([name], request)];
    assert first[..|steps|] == steps && (first + [Tick(wait)])[..|first|] == first;
    AskOne(net, name, request, State(FRESH, AfterAll(net, w, steps)));
  }

  /** The answer that a leaf gives to the next call. */
  function NextAnswer(net: Net, w: World, leaf: string, request: Request): (r: Outcome) {
    net.upstream(leaf, request, |w.calls|).outcome
  }

  lemma RememberedIsLive(net: Net, steps: seq<Step>, start: nat, name: Name, leaf: string, wait: nat, request: Request, asked: string)
    requires WellFormed(net) && net.caching && Takes(net, name, request, asked)
    requires net.resolvers[name].sources != [] && net.resolvers[name].sources[0] == Leaf(leaf, Forwarding)
    requires !HasLive(net, AfterAll(net, Start(start), steps), name, request)
    requires var o := NextAnswer(net, AfterAll(net, Start(start), steps), leaf, request);
             o.Reply? && Storable(o.message) && wait <= Lifetime(o.message) * 1_000_000_000
    ensures var m := NextAnswer(net, AfterAll(net, Start(start), steps), leaf, request).message;
            var w := AfterAll(net, Start(start), steps + [Ask([name], request)] + [Tick(wait)]);
            var e := Latest(w.log, name, KeyOf(net.names, request.questions));
            e.Some? && e.value.message == m && e.value.time + wait == w.now && HasLive(net, w, name, request)
  {
    var before := AfterAll(net, Start(start), steps);
    EveryRunIsProvenant(net, steps, start);
    LeafAnswerIsStored(net, name, request, before, asked, leaf);
    AskThenWait(net, Start(start), steps, name, request, wait);
    var a := net.upstream(leaf, request, |before.calls|);
    LatestAfterStore(before.log, name, KeyOf(net.names, request.questions),
                     Envelope(a.outcome.message, before.now + a.elapsed, Lifetime(a.outcome.message)));
  }

  /** Over every run: a resolver without a live answer asks its first source, a forwarding leaf; a storable answer
      is remembered, and any request with the same cache key is served it, counted down, until its lifetime
      ends, whatever leaves would say in the meantime. */
  lemma AnswersAreRemembered(net: Net, steps: seq<Step>, start: nat, name: Name, leaf: string, wait: nat,
                             request: Request, asked: string, again: Request, askedAgain: string)
    requires WellFormed(net) && net.caching && Takes(net, name, request, asked) && Takes(net, name, again, askedAgain)
    requires net.resolvers[name].sources != [] && net.resolvers[name].sources[0] == Leaf(leaf, Forwarding)
    requires KeyOf(net.names, again.questions) == KeyOf(net.names, request.questions)
    requires !HasLive(net, AfterAll(net, Start(start), steps), name, request)
    requires var o := NextAnswer(net, AfterAll(net, Start(start), steps), leaf, request);
             o.Reply? && Storable(o.message) && wait <= Lifetime(o.message) * 1_000_000_000
    ensures var m := NextAnswer(net, AfterAll(net, Start(start), steps), leaf, request).message;
            var w := AfterAll(net, Start(start), steps + [Ask([name], request)] + [Tick(wait)]);
            var r := Resolve(net, [name], again, w);
            && r.outcome.Reply? && r.state.world == w && r.state.ctx.cached && r.state.ctx.resolverUsed == name
            && ServedFrom(m, r.outcome.message, again.id, wait / 1_000_000_000)
  {
    var all := steps + [Ask([name], request)] + [Tick(wait)];
    RememberedIsLive(net, steps, start, name, leaf, wait, request, asked);
    assert HasLive(net, AfterAll(net, Start(start), all), name, again);
    LiveAnswersAreServed(net, all, start, [name], again, askedAgain);
  }
}
