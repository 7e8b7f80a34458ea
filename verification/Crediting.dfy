/** Who is credited with an answer: the innermost resolver, the one that asked the answering leaf as one
    of its own sources (resolver/resolver.go). */
module Crediting {
  import opened Text
  import opened Dns
  import opened Resolution
  import opened Settling

  /** The leaf is reached from the source without passing through another resolver. */
  predicate Owns(source: Source, leaf: string)
    decreases source, 1
  {
    match source
    case Leaf(id, _) => id == leaf
    case Multi(_, sources) => OwnsAny(sources, leaf)
    case Balanced(_, sources) => OwnsAny(sources, leaf)
    case File(upstream) => upstream.Some? && Owns(upstream.value, leaf)
    case Reference(_) => false
  }

  predicate OwnsAny(sources: seq<Source>, leaf: string)
    decreases sources, 0
  {
    sources != [] && (Owns(sources[0], leaf) || OwnsAny(sources[1..], leaf))
  }

  /** A leaf among the resolver's own sources. */
  predicate OwnLeaf(net: Net, name: Name, leaf: string) {
    name in net.resolvers && OwnsAny(net.resolvers[name].sources, leaf)
  }

  /** Who made the last call, and to which leaf. */
  predicate LastCall(w: World, caller: Name, leaf: string) {
    w.calls != [] && w.calls[|w.calls| - 1].caller == caller && w.calls[|w.calls| - 1].leaf == leaf
  }

  /** Resolution comes back to the asking resolver.  An answer that is not from the cache comes from a leaf
      of the given sources asked by that resolver, as long as nobody is credited with it, and otherwise from
      an own leaf of the credited resolver that this very resolver has asked. */
  ghost predicate Credits(net: Net, sources: seq<Source>, caller: Name, r: Result) {
    && r.state.ctx.current == caller
    && (Answered(r.outcome) && !r.state.ctx.cached ==> exists leaf :: CreditedFor(net, sources, caller, r.state, leaf))
  }

  predicate CreditedFor(net: Net, sources: seq<Source>, caller: Name, s: State, leaf: string) {
    var used := s.ctx.resolverUsed;
    if used == "" then LastCall(s.world, caller, leaf) && OwnsAny(sources, leaf)
    else LastCall(s.world, used, leaf) && OwnLeaf(net, used, leaf)
  }

  ghost predicate PartOf(some: seq<Source>, all: seq<Source>) {
    forall leaf :: OwnsAny(some, leaf) ==> OwnsAny(all, leaf)
  }

  lemma CreditsMore(net: Net, some: seq<Source>, all: seq<Source>, caller: Name, r: Result)
    requires Credits(net, some, caller, r) && PartOf(some, all)
    ensures Credits(net, all, caller, r)
  {
    if Answered(r.outcome) && !r.state.ctx.cached {
      var leaf :| CreditedFor(net, some, caller, r.state, leaf);
      assert CreditedFor(net, all, caller, r.state, leaf);
    }
  }

  lemma {:induction false} ElementIsPart(sources: seq<Source>, i: nat)
    requires i < |sources|
    ensures PartOf([sources[i]], sources)
    decreases |sources|
  {
    assert [sources[i]][1..] == [];
    if i > 0 {
      assert sources[1..][i - 1] == sources[i];
      ElementIsPart(sources[1..], i - 1);
    }
  }

  /** An answer is credited for, whoever asked on behalf of no sources at all. */
  ghost predicate Attributed(net: Net, r: Result) {
    Answered(r.outcome) && !r.state.ctx.cached ==>
      r.state.ctx.resolverUsed != "" && exists leaf :: CreditedFor(net, [], "", r.state, leaf)
  }

  lemma CreditedIsCredits(net: Net, sources: seq<Source>, caller: Name, r: Result)
    requires Attributed(net, r) && r.state.ctx.current == caller
    ensures Credits(net, sources, caller, r)
  {
    if Answered(r.outcome) && !r.state.ctx.cached {
      var leaf :| CreditedFor(net, [], "", r.state, leaf);
      assert CreditedFor(net, sources, caller, r.state, leaf);
    }
  }

  /** Crediting the owner of the sources. */
  lemma CreditOwner(net: Net, owner: Name, sources: seq<Source>, r: Result)
    requires WellFormed(net) && owner in net.resolvers && PartOf(sources, net.resolvers[owner].sources)
    requires Credits(net, sources, owner, r)
    ensures Attributed(net, Result(r.outcome, Credit(r.state, owner)))
  {
    if Answered(r.outcome) && !r.state.ctx.cached {
      var leaf :| CreditedFor(net, sources, owner, r.state, leaf);
      assert CreditedFor(net, [], "", Credit(r.state, owner), leaf);
    }
  }

  lemma {:induction false} CreditSource(net: Net, source: Source, request: Request, s: State)
    requires WellFormed(net) && Open(s.ctx)
    ensures Credits(net, [source], s.ctx.current, AskSource(net, source, request, s))
    decreases Unvisited(net, s.ctx.visited), source, 2
  {
    assert [source][1..] == [];
    var r, me := AskSource(net, source, request, s), s.ctx.current;
    match source
    case Leaf(id, _) => assert CreditedFor(net, [source], me, r.state, id);
    case Multi(_, sources) =>
      CreditMulti(net, sources, request, s);
      CreditsMore(net, sources, [source], me, r);
    case Balanced(name, sources) =>
      CreditBalanced(net, name, sources, |sources| + 1, request, s);
      CreditsMore(net, sources, [source], me, r);
    case File(upstream) =>
      if upstream.Some? {
        CreditSource(net, upstream.value, request, s);
        assert [upstream.value][1..] == [];
        CreditsMore(net, [upstream.value], [source], me, r);
      }
    case Reference(name) =>
      if name !in s.ctx.visited {
        CreditNamed(net, name, request, s);
        CreditedIsCredits(net, [source], me, r);
      }
  }

  lemma {:induction false} CreditMulti(net: Net, sources: seq<Source>, request: Request, s: State)
    requires WellFormed(net) && Open(s.ctx)
    ensures Credits(net, sources, s.ctx.current, AskMulti(net, sources, request, s))
    decreases Unvisited(net, s.ctx.visited), sources, 0
  {
    if sources != [] {
      CreditSource(net, sources[0], request, s);
      SettledSource(net, sources[0], request, s);
      var r, me := AskSource(net, sources[0], request, s), s.ctx.current;
      if Answered(r.outcome) {
        ElementIsPart(sources, 0);
        CreditsMore(net, [sources[0]], sources, me, r);
      } else {
        CreditMulti(net, sources[1..], request, r.state);
        CreditsMore(net, sources[1..], sources, me, AskMulti(net, sources[1..], request, r.state));
      }
    }
  }

  lemma {:induction false} CreditBalanced(net: Net, name: string, sources: seq<Source>, tries: nat, request: Request, s: State)
    requires WellFormed(net) && Open(s.ctx)
    ensures Credits(net, sources, s.ctx.current, AskBalanced(net, name, sources, tries, request, s))
    decreases Unvisited(net, s.ctx.visited), sources, tries
  {
    if tries > 0 && sources != [] {
      CreditPicked(net, name, sources, request, s);
      SettledPicked(net, name, sources, request, s);
      var r := AskPicked(net, name, sources, request, s);
      if !Answered(r.outcome) { CreditBalanced(net, name, sources, tries - 1, request, r.state); }
    }
  }

  lemma {:induction false} CreditPicked(net: Net, name: string, sources: seq<Source>, request: Request, s: State)
    requires WellFormed(net) && Open(s.ctx) && sources != []
    ensures Credits(net, sources, s.ctx.current, AskPicked(net, name, sources, request, s))
    decreases Unvisited(net, s.ctx.visited), sources, 0
  {
    var i := Cursor(s.world.cursors, name, |sources|);
    CreditSource(net, sources[i], request, Advance(s, name, |sources|));
    ElementIsPart(sources, i);
    CreditsMore(net, [sources[i]], sources, s.ctx.current, AskPicked(net, name, sources, request, s));
  }

  /** The owner's sources are asked while the owner is the current resolver. */
  ghost predicate Asking(net: Net, owner: Name, sources: seq<Source>, s: State) {
    owner in net.resolvers && s.ctx.current == owner && PartOf(sources, net.resolvers[owner].sources)
  }

  lemma {:induction false} CreditSources(net: Net, owner: Name, sources: seq<Source>, request: Request, s: State)
    requires WellFormed(net) && Open(s.ctx) && Asking(net, owner, sources, s)
    ensures var r := AskSources(net, owner, sources, request, s); Attributed(net, r) && r.state.ctx.current == owner
    decreases Unvisited(net, s.ctx.visited), sources, 0
  {
    if sources != [] {
      CreditSource(net, sources[0], request, s);
      SettledSource(net, sources[0], request, s);
      var r := AskSource(net, sources[0], request, s);
      if Answered(r.outcome) {
        ElementIsPart(sources, 0);
        CreditsMore(net, [sources[0]], sources, owner, r);
        CreditOwner(net, owner, sources, r);
      } else {
        assert PartOf(sources[1..], sources);
        CreditSources(net, owner, sources[1..], request, r.state);
      }
    }
  }

  lemma {:induction false} CreditSearch(net: Net, owner: Name, sources: seq<Source>, domains: seq<string>, request: Request, s: State)
    requires WellFormed(net) && Open(s.ctx) && Asking(net, owner, sources, s) && request.questions != []
    ensures var r := Search(net, owner, sources, domains, request, s); Attributed(net, r) && r.state.ctx.current == owner
    decreases Unvisited(net, s.ctx.visited), sources, 1, |domains|
  {
    if domains == [] {
    } else if domains[0] == "" {
      CreditSearch(net, owner, sources, domains[1..], request, s);
    } else {
      var asked := SearchRequest(request, domains[0]);
      CreditSources(net, owner, sources, asked, s);
      SettledSources(net, owner, sources, asked, s);
      var r := AskSources(net, owner, sources, asked, s);
      if Answered(r.outcome) {
        RelabelKeeps(r.outcome.message, request);
      } else {
        CreditSearch(net, owner, sources, domains[1..], request, r.state);
      }
    }
  }

  lemma {:induction false} CreditWork(net: Net, resolver: Resolver, request: Request, s: State)
    requires WellFormed(net) && Open(s.ctx) && request.questions != [] && s.ctx.current == resolver.name
    requires resolver.name in net.resolvers && net.resolvers[resolver.name] == resolver
    ensures Attributed(net, Work(net, resolver, request, s))
    decreases Unvisited(net, s.ctx.visited), resolver.sources, 2
  {
    CreditSources(net, resolver.name, resolver.sources, request, s);
    SettledSources(net, resolver.name, resolver.sources, request, s);
    var r := AskSources(net, resolver.name, resolver.sources, request, s);
    if !Answered(r.outcome) && |resolver.search| > 0 && Searchable(request.questions[0].name) {
      CreditSearch(net, resolver.name, resolver.sources, resolver.search, request, r.state);
    }
  }

  lemma StoringCredits(net: Net, owner: Name, request: Request, r: Result, caller: Name)
    requires Attributed(net, r)
    ensures Attributed(net, Return(StoreAnswer(net, owner, request, r), caller))
  {
    var r' := Return(StoreAnswer(net, owner, request, r), caller);
    assert r'.state.world.calls == r.state.world.calls;
    if Answered(r.outcome) && !r.state.ctx.cached {
      var leaf :| CreditedFor(net, [], "", r.state, leaf);
      assert CreditedFor(net, [], "", r'.state, leaf);
    }
  }

  lemma {:induction false} CreditEnter(net: Net, resolver: Resolver, request: Request, s: State)
    requires WellFormed(net) && Open(s.ctx)
    requires resolver.name in net.resolvers && net.resolvers[resolver.name] == resolver && resolver.name !in s.ctx.visited
    ensures var r := Enter(net, resolver, request, s); Attributed(net, r) && r.state.ctx.current == s.ctx.current
    decreases Unvisited(net, s.ctx.visited), Reference(resolver.name), 0
  {
    if request.questions == [] || !Accepts(net, resolver, Lower(request.questions[0].name)) {
    } else {
      var s1 := Visit(s, resolver.name);
      VisitGrows(net, s.ctx.visited, resolver.name, s1.ctx.visited);
      if CacheHit(net, resolver.name, request, s1.world).None? {
        CreditWork(net, resolver, request, s1);
        StoringCredits(net, resolver.name, request, Work(net, resolver, request, s1), s.ctx.current);
      }
    }
  }

  lemma {:induction false} CreditNamed(net: Net, name: Name, request: Request, s: State)
    requires WellFormed(net) && Open(s.ctx)
    ensures var r := AskNamed(net, name, request, s); Attributed(net, r) && r.state.ctx.current == s.ctx.current
    decreases Unvisited(net, s.ctx.visited), Reference(name), 1
  {
    if name in net.resolvers && name !in s.ctx.visited {
      CreditEnter(net, net.resolvers[name], request, s);
    }
  }

  /** Whatever a request returns that is not from the cache was brought in by an own leaf of the resolver
      it reports as used, asked by that very resolver. */
  lemma {:induction false} CreditAll(net: Net, names: seq<Name>, request: Request, s: State)
    requires WellFormed(net) && Open(s.ctx)
    ensures Attributed(net, AskAll(net, names, request, s))
    decreases |names|
  {
    if names != [] {
      CreditNamed(net, names[0], request, s);
      SettledNamed(net, names[0], request, s);
      var r := AskNamed(net, names[0], request, s);
      if !Answered(r.outcome) { CreditAll(net, names[1..], request, r.state); }
    }
  }
}
