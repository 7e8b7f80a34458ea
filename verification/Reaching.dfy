/** Which names reach a leaf: those that were asked, and their extensions by search domains, which no rule
    has looked at (resolver/resolver.go, engine/engine.go). */
module Reaching {
  import opened Text
  import opened Dns
  import opened Cache
  import opened Resolution
  import VisitOrder
  import Handling
  import Rules

  /** A search domain of some resolver. */
  ghost predicate IsSearchDomain(net: Net, domain: string) {
    domain != "" && exists n :: n in net.resolvers && domain in net.resolvers[n].search
  }

  /** The domains can be appended one after another, each to a name that is still searchable. */
  ghost predicate Extensible(net: Net, request: Request, domains: seq<string>)
    decreases |domains|
  {
    domains != [] ==>
      && request.questions != [] && Searchable(request.questions[0].name) && IsSearchDomain(net, domains[0])
      && Extensible(net, SearchRequest(request, domains[0]), domains[1..])
  }

  function Extended(request: Request, domains: seq<string>): (r: Request)
    decreases |domains|
  {
    if domains == [] || request.questions == [] then request else Extended(SearchRequest(request, domains[0]), domains[1..])
  }

  ghost predicate Reaches(net: Net, request: Request, asked: Request) {
    exists domains :: Extensible(net, request, domains) && asked == Extended(request, domains)
  }

  lemma ReachesItself(net: Net, request: Request)
    ensures Reaches(net, request, request)
  {
    assert Extensible(net, request, []) && Extended(request, []) == request;
  }

  lemma ReachesFurther(net: Net, request: Request, domain: string, asked: Request)
    requires request.questions != [] && Searchable(request.questions[0].name) && IsSearchDomain(net, domain)
    requires Reaches(net, SearchRequest(request, domain), asked)
    ensures Reaches(net, request, asked)
  {
    var domains :| Extensible(net, SearchRequest(request, domain), domains) && asked == Extended(SearchRequest(request, domain), domains);
    var longer := [domain] + domains;
    assert longer[0] == domain && longer[1..] == domains;
    assert Extensible(net, request, longer) && asked == Extended(request, longer);
  }

  /** The new calls are for the request or its extensions. */
  ghost predicate OnlyReaches(net: Net, request: Request, before: seq<Call>, after: seq<Call>) {
    before <= after && forall i :: |before| <= i < |after| ==> Reaches(net, request, after[i].request)
  }

  lemma OnlyReachesFurther(net: Net, request: Request, domain: string, before: seq<Call>, after: seq<Call>)
    requires request.questions != [] && Searchable(request.questions[0].name) && IsSearchDomain(net, domain)
    requires OnlyReaches(net, SearchRequest(request, domain), before, after)
    ensures OnlyReaches(net, request, before, after)
  {
    forall i | |before| <= i < |after| ensures Reaches(net, request, after[i].request) {
      ReachesFurther(net, request, domain, after[i].request);
    }
  }

  lemma Onwards(net: Net, request: Request, a: seq<Call>, b: seq<Call>, c: seq<Call>)
    requires OnlyReaches(net, request, a, b) && OnlyReaches(net, request, b, c)
    ensures OnlyReaches(net, request, a, c)
  {
    forall i | |a| <= i < |c| ensures Reaches(net, request, c[i].request) {
      if i < |b| { assert b[i] == c[i]; }
    }
  }

  lemma {:induction false} SourceReaches(net: Net, source: Source, request: Request, s: State)
    requires WellFormed(net)
    ensures OnlyReaches(net, request, s.world.calls, AskSource(net, source, request, s).state.world.calls)
    decreases Unvisited(net, s.ctx.visited), source, 2
  {
    match source
    case Leaf(_, _) => ReachesItself(net, request);
    case Multi(_, sources) => MultiReaches(net, sources, request, s);
    case Balanced(name, sources) => BalancedReaches(net, name, sources, |sources| + 1, request, s);
    case File(upstream) => if upstream.Some? { SourceReaches(net, upstream.value, request, s); }
    case Reference(name) => if name !in s.ctx.visited { NamedReaches(net, name, request, s); }
  }

  lemma {:induction false} MultiReaches(net: Net, sources: seq<Source>, request: Request, s: State)
    requires WellFormed(net)
    ensures OnlyReaches(net, request, s.world.calls, AskMulti(net, sources, request, s).state.world.calls)
    decreases Unvisited(net, s.ctx.visited), sources, 0
  {
    if sources != [] {
      SourceReaches(net, sources[0], request, s);
      var r := AskSource(net, sources[0], request, s);
      if !Answered(r.outcome) {
        MultiReaches(net, sources[1..], request, r.state);
        Onwards(net, request, s.world.calls, r.state.world.calls, AskMulti(net, sources[1..], request, r.state).state.world.calls);
      }
    }
  }

  lemma {:induction false} BalancedReaches(net: Net, name: string, sources: seq<Source>, tries: nat, request: Request, s: State)
    requires WellFormed(net)
    ensures OnlyReaches(net, request, s.world.calls, AskBalanced(net, name, sources, tries, request, s).state.world.calls)
    decreases Unvisited(net, s.ctx.visited), sources, tries
  {
    if tries > 0 && sources != [] {
      PickedReaches(net, name, sources, request, s);
      var r := AskPicked(net, name, sources, request, s);
      if !Answered(r.outcome) {
        BalancedReaches(net, name, sources, tries - 1, request, r.state);
        Onwards(net, request, s.world.calls, r.state.world.calls, AskBalanced(net, name, sources, tries - 1, request, r.state).state.world.calls);
      }
    }
  }

  lemma {:induction false} PickedReaches(net: Net, name: string, sources: seq<Source>, request: Request, s: State)
    requires WellFormed(net) && sources != []
    ensures OnlyReaches(net, request, s.world.calls, AskPicked(net, name, sources, request, s).state.world.calls)
    decreases Unvisited(net, s.ctx.visited), sources, 0
  {
    SourceReaches(net, sources[Cursor(s.world.cursors, name, |sources|)], request, Advance(s, name, |sources|));
  }

  lemma {:induction false} SourcesReach(net: Net, owner: Name, sources: seq<Source>, request: Request, s: State)
    requires WellFormed(net)
    ensures OnlyReaches(net, request, s.world.calls, AskSources(net, owner, sources, request, s).state.world.calls)
    decreases Unvisited(net, s.ctx.visited), sources, 0
  {
    if sources != [] {
      SourceReaches(net, sources[0], request, s);
      var r := AskSource(net, sources[0], request, s);
      if !Answered(r.outcome) {
        SourcesReach(net, owner, sources[1..], request, r.state);
        Onwards(net, request, s.world.calls, r.state.world.calls, AskSources(net, owner, sources[1..], request, r.state).state.world.calls);
      }
    }
  }

  ghost predicate SearchDomains(net: Net, domains: seq<string>) {
    forall i :: 0 <= i < |domains| && domains[i] != "" ==> IsSearchDomain(net, domains[i])
  }

  lemma {:induction false} SearchReaches(net: Net, owner: Name, sources: seq<Source>, domains: seq<string>, request: Request, s: State)
    requires WellFormed(net) && request.questions != [] && Searchable(request.questions[0].name) && SearchDomains(net, domains)
    ensures OnlyReaches(net, request, s.world.calls, Search(net, owner, sources, domains, request, s).state.world.calls)
    decreases Unvisited(net, s.ctx.visited), sources, 1, |domains|
  {
    if domains != [] {
      assert SearchDomains(net, domains[1..]);
      if domains[0] == "" {
        SearchReaches(net, owner, sources, domains[1..], request, s);
      } else {
        var asked := SearchRequest(request, domains[0]);
        SourcesReach(net, owner, sources, asked, s);
        var r := AskSources(net, owner, sources, asked, s);
        OnlyReachesFurther(net, request, domains[0], s.world.calls, r.state.world.calls);
        if !Answered(r.outcome) {
          SearchReaches(net, owner, sources, domains[1..], request, r.state);
          Onwards(net, request, s.world.calls, r.state.world.calls, Search(net, owner, sources, domains[1..], request, r.state).state.world.calls);
        }
      }
    }
  }

  lemma {:induction false} WorkReaches(net: Net, resolver: Resolver, request: Request, s: State)
    requires WellFormed(net) && request.questions != []
    requires resolver.name in net.resolvers && net.resolvers[resolver.name] == resolver
    ensures OnlyReaches(net, request, s.world.calls, Work(net, resolver, request, s).state.world.calls)
    decreases Unvisited(net, s.ctx.visited), resolver.sources, 2
  {
    SourcesReach(net, resolver.name, resolver.sources, request, s);
    var r := AskSources(net, resolver.name, resolver.sources, request, s);
    if !Answered(r.outcome) && |resolver.search| > 0 && Searchable(request.questions[0].name) {
      SearchReaches(net, resolver.name, resolver.sources, resolver.search, request, r.state);
      Onwards(net, request, s.world.calls, r.state.world.calls, Work(net, resolver, request, s).state.world.calls);
    }
  }

  lemma {:induction false} NamedReaches(net: Net, name: Name, request: Request, s: State)
    requires WellFormed(net)
    ensures OnlyReaches(net, request, s.world.calls, AskNamed(net, name, request, s).state.world.calls)
    decreases Unvisited(net, s.ctx.visited), Reference(name), 1
  {
    if name in net.resolvers && name !in s.ctx.visited && request.questions != []
       && Accepts(net, net.resolvers[name], Lower(request.questions[0].name)) {
      var s1 := Visit(s, name);
      VisitGrows(net, s.ctx.visited, name, s1.ctx.visited);
      if CacheHit(net, name, request, s1.world).None? { WorkReaches(net, net.resolvers[name], request, s1); }
    }
  }

  lemma {:induction false} AllReach(net: Net, names: seq<Name>, request: Request, s: State)
    requires WellFormed(net)
    ensures OnlyReaches(net, request, s.world.calls, AskAll(net, names, request, s).state.world.calls)
    decreases |names|
  {
    if names != [] {
      NamedReaches(net, names[0], request, s);
      var r := AskNamed(net, names[0], request, s);
      if !Answered(r.outcome) {
        AllReach(net, names[1..], request, r.state);
        Onwards(net, request, s.world.calls, r.state.world.calls, AskAll(net, names[1..], request, r.state).state.world.calls);
      }
    }
  }

  /** Every leaf that a request makes resolution ask is asked for the requested name itself or for that name
      extended by search domains. */
  lemma LeavesAreAskedForExtensions(net: Net, names: seq<Name>, request: Request, w: World)
    requires WellFormed(net)
    ensures OnlyReaches(net, request, w.calls, Resolve(net, names, request, w).state.world.calls)
  {
    AllReach(net, names, request, State(FRESH, w));
  }

  /** A name with a second label is asked for as it is, by every leaf, whatever search domains there are. */
  lemma LongNamesAreNotExtended(net: Net, names: seq<Name>, request: Request, w: World, i: nat)
    requires WellFormed(net) && request.questions != []
    requires var labels := Split(request.questions[0].name, '.'); |labels| >= 2 && labels[1] != ""
    requires |w.calls| <= i < |Resolve(net, names, request, w).state.world.calls|
    ensures Resolve(net, names, request, w).state.world.calls[i].request == request
  {
    LeavesAreAskedForExtensions(net, names, request, w);
    SearchableIff(request.questions[0].name);
    var asked := Resolve(net, names, request, w).state.world.calls[i].request;
    var domains :| Extensible(net, request, domains) && asked == Extended(request, domains);
  }

  // ---- rules and extensions ----

  /** All planned questions are ones the rules let pass. */
  ghost predicate PlanMayBeAsked(e: Handling.Engine, path: Handling.Path, asks: seq<VisitOrder.Ask>) {
    forall i :: 0 <= i < |asks| ==> Handling.MayBeAsked(e, path, asks[i].request)
  }

  ghost predicate CallsMayBeAsked(e: Handling.Engine, path: Handling.Path, before: seq<Call>, after: seq<Call>) {
    forall i :: |before| <= i < |after| ==> Handling.MayBeAsked(e, path, after[i].request)
  }

  /** Nothing upstream has an answer. */
  ghost predicate Silent(net: Net) {
    forall leaf, request, n :: !Answered(net.upstream(leaf, request, n).outcome)
  }

  /** The flat loop asks a prefix of the list, and all of it when nothing answers. */
  lemma {:induction false} AsksAlong(net: Net, asks: seq<VisitOrder.Ask>, now: nat, calls: seq<Call>)
    ensures var f := VisitOrder.FirstAnswer(net, asks, now, calls);
            && calls <= f.calls && |f.calls| - |calls| <= |asks|
            && (forall i :: 0 <= i < |f.calls| - |calls| ==> f.calls[|calls| + i].request == asks[i].request)
            && (Silent(net) ==> |f.calls| - |calls| == |asks|)
    decreases |asks|
  {
    if asks != [] {
      var a := net.upstream(asks[0].leaf, asks[0].request, |calls|);
      var call := Call(asks[0].leaf, asks[0].kind, asks[0].request, now + a.elapsed, a.outcome, asks[0].owner);
      var f := VisitOrder.FirstAnswer(net, asks, now, calls);
      if !Answered(a.outcome) {
        AsksAlong(net, asks[1..], now + a.elapsed, calls + [call]);
        forall i | 0 <= i < |f.calls| - |calls| ensures f.calls[|calls| + i].request == asks[i].request {
          if i == 0 {
            assert f.calls[|calls|] == (calls + [call])[|calls|];
          } else {
            assert f.calls[|calls + [call]| + (i - 1)].request == asks[1..][i - 1].request;
          }
        }
      }
    }
  }

  /** With the cache off: leaves are asked only for names the rules let pass if every question of the plan,
      which follows from the configuration alone, is one of those; and, when nothing answers, only if. */
  lemma LeavesMayBeAskedIff(net: Net, e: Handling.Engine, path: Handling.Path, names: seq<Name>, request: Request, w: World)
    requires WellFormed(net) && !net.caching
    ensures var asks, calls := VisitOrder.PlanAll(net, names, request, [], w.cursors).asks, Resolve(net, names, request, w).state.world.calls;
            && (PlanMayBeAsked(e, path, asks) ==> CallsMayBeAsked(e, path, w.calls, calls))
            && (Silent(net) && CallsMayBeAsked(e, path, w.calls, calls) ==> PlanMayBeAsked(e, path, asks))
  {
    var asks, calls := VisitOrder.PlanAll(net, names, request, [], w.cursors).asks, Resolve(net, names, request, w).state.world.calls;
    VisitOrder.CacheOffIsFirstAnswer(net, names, request, w);
    AsksAlong(net, asks, w.now, w.calls);
    if PlanMayBeAsked(e, path, asks) {
      forall i | |w.calls| <= i < |calls| ensures Handling.MayBeAsked(e, path, calls[i].request) {
        assert calls[|w.calls| + (i - |w.calls|)].request == asks[i - |w.calls|].request;
      }
    }
    if Silent(net) && CallsMayBeAsked(e, path, w.calls, calls) {
      forall i | 0 <= i < |asks| ensures Handling.MayBeAsked(e, path, asks[i].request) {
        assert calls[|w.calls| + i].request == asks[i].request;
      }
    }
  }

  // ---- a blocked extension is asked for ----

  const LEAF: seq<Source> := [Leaf("x", Forwarding)]

  /** One resolver with one search domain, and a leaf that never answers. */
  function OneResolver(names: Mnemonics, glob: (string, string) -> bool): (net: Net) {
    Net(map["r" := Resolver("r", [], [], ["b.c"], LEAF)], false, names, glob, (l, q, n) => Arrival(Nothing, 0))
  }

  const SHORT := Request(0, [Question("a.", 1, 1)])

  lemma OneLeafIsAsked(net: Net, request: Request, s: State)
    requires WellFormed(net) && Silent(net)
    ensures var r := AskSources(net, "r", LEAF, request, s);
            && r.outcome == Nothing && r.state.ctx.visited == s.ctx.visited
            && |r.state.world.calls| == |s.world.calls| + 1 && r.state.world.calls[|s.world.calls|].request == request
  {
    assert LEAF[0] == Leaf("x", Forwarding) && LEAF[1..] == [];
    var r := CallLeaf(net, "x", Forwarding, request, s);
    assert AskSource(net, LEAF[0], request, s) == r && AskSources(net, "r", LEAF[1..], request, r.state) == Result(Nothing, r.state);
  }

  lemma ShortIsExtended()
    ensures Searchable("a.") && SearchRequest(SHORT, "b.c").questions == [Question("a.b.c.", 1, 1)]
  {
    assert IndexOf("a.", '.') == 1;
    assert Fqdn("a.") == "a." && "a." + "b.c" == "a.b.c" && Fqdn("a.b.c") == "a.b.c.";
  }

  const SEARCHER := Resolver("r", [], [], ["b.c"], LEAF)

  lemma ExtensionIsAsked(net: Net, s: State)
    requires WellFormed(net) && Silent(net)
    ensures var r := Work(net, SEARCHER, SHORT, s);
            && r.outcome == Nothing && |r.state.world.calls| == |s.world.calls| + 2
            && r.state.world.calls[|s.world.calls| + 1].request == SearchRequest(SHORT, "b.c")
  {
    var search: seq<string> := ["b.c"];
    ShortIsExtended();
    OneLeafIsAsked(net, SHORT, s);
    var r := AskSources(net, "r", LEAF, SHORT, s);
    var extended := SearchRequest(SHORT, "b.c");
    OneLeafIsAsked(net, extended, r.state);
    SearchStep(net, "r", LEAF, search, 0, SHORT, r.state);
    var r' := AskSources(net, "r", LEAF, extended, r.state);
    assert search[0..] == search && search[1..] == [];
    assert Search(net, "r", LEAF, search, SHORT, r.state) == Result(Nothing, r'.state);
  }

  /** Without a cache, and with a resolver that takes every name, entering it is doing its work. */
  lemma EnteringIsWorking(net: Net, s: State)
    requires WellFormed(net) && !net.caching && "r" in net.resolvers && net.resolvers["r"] == SEARCHER && "r" !in s.ctx.visited
    ensures AskNamed(net, "r", SHORT, s) == Return(Work(net, SEARCHER, SHORT, Visit(s, "r")), s.ctx.current)
  {
    var s1 := Visit(s, "r");
    VisitGrows(net, s.ctx.visited, "r", s1.ctx.visited);
    assert Accepts(net, SEARCHER, Lower("a."));
    assert CacheHit(net, "r", SHORT, s1.world) == None;
    var r := Work(net, SEARCHER, SHORT, s1);
    assert StoreAnswer(net, "r", SHORT, r) == r;
    assert Enter(net, SEARCHER, SHORT, s) == Return(r, s.ctx.current);
  }

  lemma AskOne(net: Net, s: State)
    requires WellFormed(net) && AskNamed(net, "r", SHORT, s).outcome == Nothing
    ensures AskAll(net, ["r"], SHORT, s).state == AskNamed(net, "r", SHORT, s).state
  {
    var names: seq<Name> := ["r"];
    assert names[1..] == [];
  }

  /** A short name that the rules let pass, extended to a name that they block: the leaf is asked for it. */
  lemma SearchDomainsEvadeRules(e: Handling.Engine, groups: seq<string>, names: Mnemonics, glob: (string, string) -> bool, w: World)
    requires e.verdict(groups, "a.") != Rules.MatchBlock && e.verdict(groups, "a.b.c.") == Rules.MatchBlock
    ensures var calls := Resolve(OneResolver(names, glob), ["r"], SHORT, w).state.world.calls;
            && Handling.MayBeAsked(e, Handling.ByGroups(groups), SHORT)
            && !CallsMayBeAsked(e, Handling.ByGroups(groups), w.calls, calls)
  {
    var net, path, s := OneResolver(names, glob), Handling.ByGroups(groups), State(FRESH, w);
    ShortIsExtended();
    ExtensionIsAsked(net, Visit(s, "r"));
    EnteringIsWorking(net, s);
    AskOne(net, s);
    var calls := Resolve(net, ["r"], SHORT, w).state.world.calls;
    assert !Handling.MayBeAsked(e, path, calls[|w.calls| + 1].request);
  }
}
