/** Handling of a request by the engine: validity, rule verdict, resolution and the recursive chase of
    aliases (engine/engine.go).  The code has no bound on the chase, so it is modelled with a depth that
    the recursion may use; depth 0 means "not finished yet". */
module Handling {
  import opened Text
  import opened Dns
  import Resolution
  import opened Rules
  import opened Stores
  import opened Decision

  const RCODE_NOT_IMPLEMENTED := 4
  const RCODE_REFUSED := 5
  const RCODE_BAD_NAME := 20
  const NOT_IMPLEMENTED := {0, 10, 251, 252}

  /** `verdict` is the rule verdict on the lists of groups; `resolve` is AnswerMultiResolvers at a given
      hop of the chase, since upstream data may change in between. */
  datatype Engine = Engine(verdict: (seq<string>, string) -> Match, groups: map<string, Group>,
                           resolve: (nat, seq<string>, Request) -> Option<Message>)

  /** The engine over a rule store. */
  function EngineOn(lib: Lib, store: Option<Store>, groups: map<string, Group>,
                    resolve: (nat, seq<string>, Request) -> Option<Message>): (r: Engine)
    ensures r.groups == groups && r.resolve == resolve
    ensures forall names, domain :: r.verdict(names, domain) == VerdictForGroups(lib, store, groups, names, domain).match_
  {
    Engine((names, domain) => VerdictForGroups(lib, store, groups, names, domain).match_, groups, resolve)
  }

  /** Resolution returns nothing or a non-empty response (the contract of `Resolution.Resolve`). */
  ghost predicate Answering(e: Engine) {
    forall hop, names, request :: e.resolve(hop, names, request).Some? ==> !IsEmpty(e.resolve(hop, names, request).value)
  }

  /** The request comes in for groups (rules apply at every hop) or directly for resolvers. */
  datatype Path = ByGroups(groups: seq<string>) | ByResolvers(resolvers: seq<string>)

  function NamedResolvers(groups: map<string, Group>, names: seq<string>): (r: seq<string>) {
    if names == [] then []
    else (if names[0] in groups then groups[names[0]].resolvers else []) + NamedResolvers(groups, names[1..])
  }

  function ResolversFor(e: Engine, path: Path): (r: seq<string>) {
    match path
    case ByGroups(groups) => NamedResolvers(e.groups, groups)
    case ByResolvers(resolvers) => resolvers
  }

  /** invalidRequestHandler: the response code of a request that is not looked at, if any. */
  function Invalid(request: Request): (r: Option<nat>) {
    if request.questions == [] then Some(RCODE_REFUSED)
    else if request.questions[0].qtype in NOT_IMPLEMENTED then Some(RCODE_NOT_IMPLEMENTED)
    else if |request.questions[0].name| < 1 || |request.questions[0].name| > 255 then Some(RCODE_BAD_NAME)
    else None
  }

  predicate Blocked(e: Engine, path: Path, request: Request)
    requires request.questions != []
  {
    path.ByGroups? && e.verdict(path.groups, request.questions[0].name) == MatchBlock
  }

  const BLANK := Message(0, 0, false, [], [], [], [])

  function Refusal(request: Request, rcode: nat): (r: Message)
    ensures IsEmpty(r)
  {
    SetReply(BLANK, request).(rcode := rcode)
  }

  datatype Handled = Handled(response: Message, asked: seq<Request>)

  /** The name a response refers on to, when it starts with an alias that was not asked for. */
  function AliasOf(m: Message, request: Request): (r: Option<string>)
    requires request.questions != []
  {
    if |m.answer| > 0 && m.answer[0].rrtype == TYPE_CNAME && request.questions[0].qtype != TYPE_CNAME
    then Some(m.answer[0].value) else None
  }

  function Retarget(request: Request, name: string): (r: Request)
    requires request.questions != []
    ensures r.questions != []
  {
    request.(questions := request.questions[0 := request.questions[0].(name := name)])
  }

  /** HandleWithGroups and HandleWithResolvers with handleCnameResolution between them. */
  function Handle(e: Engine, path: Path, hop: nat, request: Request, depth: nat): (r: Option<Handled>)
    decreases depth
  {
    if depth == 0 then None
    else if Invalid(request).Some? then Some(Handled(Refusal(request, Invalid(request).value), []))
    else if Blocked(e, path, request) || ResolversFor(e, path) == [] then Some(Handled(Refusal(request, RCODE_NAME_ERROR), []))
    else
      match e.resolve(hop, ResolversFor(e, path), request)
      case None => Some(Handled(Refusal(request, RCODE_NAME_ERROR), [request]))
      case Some(m) =>
        var alias := AliasOf(m, request);
        if alias.None? then Some(Handled(m, [request]))
        else
          match Handle(e, path, hop + 1, Retarget(request, alias.value), depth - 1)
          case None => None
          case Some(h) =>
            Some(Handled(if IsEmpty(h.response) then m else Relabelled(h.response, request), [request] + h.asked))
  }

  /** HandleWithConsumer */
  function HandleConsumer(e: Engine, consumer: Consumer, request: Request, depth: nat): (r: Option<Handled>) {
    if consumer.block then Some(Handled(SetReply(BLANK, request), []))
    else Handle(e, ByGroups(GroupsOf(consumer)), 0, request, depth)
  }

  // ---- the chain of aliases ----

  /** What resolution says about a request, when resolution is started for it at all. */
  function Response(e: Engine, path: Path, hop: nat, request: Request): (r: Option<Message>) {
    if Invalid(request).Some? || Blocked(e, path, request) || ResolversFor(e, path) == [] then None
    else e.resolve(hop, ResolversFor(e, path), request)
  }

  function Next(e: Engine, path: Path, hop: nat, request: Request): (r: Option<Request>) {
    match Response(e, path, hop, request)
    case None => None
    case Some(m) =>
      var alias := AliasOf(m, request);
      if alias.None? then None else Some(Retarget(request, alias.value))
  }

  /** The chain comes to an end after at most `n` aliases. */
  predicate Ends(e: Engine, path: Path, hop: nat, request: Request, n: nat)
    decreases n
  {
    match Next(e, path, hop, request)
    case None => true
    case Some(next) => n > 0 && Ends(e, path, hop + 1, next, n - 1)
  }

  lemma {:induction false} HandledIffEnds(e: Engine, path: Path, hop: nat, request: Request, depth: nat)
    ensures Handle(e, path, hop, request, depth).Some? <==> depth > 0 && Ends(e, path, hop, request, depth - 1)
    decreases depth
  {
    if depth > 0 && Next(e, path, hop, request).Some? {
      HandledIffEnds(e, path, hop + 1, Next(e, path, hop, request).value, depth - 1);
    }
  }

  /** Once finished, more depth changes nothing: there is one result. */
  lemma {:induction false} DepthIrrelevant(e: Engine, path: Path, hop: nat, request: Request, depth: nat, depth': nat)
    requires Handle(e, path, hop, request, depth).Some? && depth <= depth'
    ensures Handle(e, path, hop, request, depth') == Handle(e, path, hop, request, depth)
    decreases depth
  {
    if Next(e, path, hop, request).Some? {
      DepthIrrelevant(e, path, hop + 1, Next(e, path, hop, request).value, depth - 1, depth' - 1);
    }
  }

  /** Acyclic aliases (every alias leads to a name of lower rank) always come to an end. */
  lemma {:induction false} AcyclicChainsEnd(e: Engine, path: Path, rank: string -> nat, hop: nat, request: Request)
    requires request.questions != []
    requires forall h, r :: Next(e, path, h, r).Some? && r.questions != [] ==>
               rank(Next(e, path, h, r).value.questions[0].name) < rank(r.questions[0].name)
    ensures Ends(e, path, hop, request, rank(request.questions[0].name))
    decreases rank(request.questions[0].name)
  {
    var next := Next(e, path, hop, request);
    if next.Some? {
      AcyclicChainsEnd(e, path, rank, hop + 1, next.value);
      EndsLater(e, path, hop + 1, next.value, rank(next.value.questions[0].name), rank(request.questions[0].name) - 1);
    }
  }

  lemma {:induction false} EndsLater(e: Engine, path: Path, hop: nat, request: Request, n: nat, n': nat)
    requires Ends(e, path, hop, request, n) && n <= n'
    ensures Ends(e, path, hop, request, n')
    decreases n
  {
    if Next(e, path, hop, request).Some? {
      EndsLater(e, path, hop + 1, Next(e, path, hop, request).value, n - 1, n' - 1);
    }
  }

  /** A cycle of aliases of any length is chased forever, wherever it is entered. */
  lemma {:induction false} CyclesNeverReturn(e: Engine, path: Path, cycle: seq<Request>, at: nat, hop: nat, depth: nat)
    requires at < |cycle|
    requires forall i, h :: 0 <= i < |cycle| ==> Next(e, path, h, cycle[i]) == Some(cycle[Resolution.RoundRobin(i, |cycle|)])
    ensures Handle(e, path, hop, cycle[at], depth) == None
    decreases depth
  {
    if depth > 0 {
      assert Next(e, path, hop, cycle[at]) == Some(cycle[Resolution.RoundRobin(at, |cycle|)]);
      CyclesNeverReturn(e, path, cycle, Resolution.RoundRobin(at, |cycle|), hop + 1, depth - 1);
    }
  }

  // ---- when exactly the chase ends ----

  /** The request made after `n` aliases, if the chain gets that far. */
  function Chain(e: Engine, path: Path, hop: nat, request: Request, n: nat): (r: Option<Request>)
    decreases n
  {
    if n == 0 then Some(request)
    else
      match Next(e, path, hop, request)
      case None => None
      case Some(next) => Chain(e, path, hop + 1, next, n - 1)
  }

  lemma {:induction false} EndsIffChainStops(e: Engine, path: Path, hop: nat, request: Request, n: nat)
    ensures Ends(e, path, hop, request, n) <==> Chain(e, path, hop, request, n + 1).None?
    decreases n
  {
    var next := Next(e, path, hop, request);
    if next.Some? && n > 0 { EndsIffChainStops(e, path, hop + 1, next.value, n - 1); }
  }

  lemma {:induction false} ChainStep(e: Engine, path: Path, hop: nat, request: Request, n: nat)
    ensures var r := Chain(e, path, hop, request, n);
            Chain(e, path, hop, request, n + 1) == if r.None? then None else Next(e, path, hop + n, r.value)
    decreases n
  {
    var next := Next(e, path, hop, request);
    if n > 0 && next.Some? { ChainStep(e, path, hop + 1, next.value, n - 1); }
  }

  /** Resolution says the same at every hop. */
  ghost predicate Steady(e: Engine) {
    forall h, h', names, r :: e.resolve(h, names, r) == e.resolve(h', names, r)
  }

  lemma NextIsSteady(e: Engine, path: Path, hop: nat, hop': nat, request: Request)
    requires Steady(e)
    ensures Next(e, path, hop, request) == Next(e, path, hop', request)
  {
    assert e.resolve(hop, ResolversFor(e, path), request) == e.resolve(hop', ResolversFor(e, path), request);
  }

  /** No request comes up twice in the chain. */
  ghost predicate NeverRecurs(e: Engine, path: Path, hop: nat, request: Request) {
    forall i: nat, j: nat :: i < j && Chain(e, path, hop, request, i).Some? ==> Chain(e, path, hop, request, i) != Chain(e, path, hop, request, j)
  }

  lemma {:induction false} RecurringChainsRepeat(e: Engine, path: Path, hop: nat, request: Request, i: nat, j: nat, k: nat)
    requires Steady(e) && Chain(e, path, hop, request, i) == Chain(e, path, hop, request, j)
    ensures Chain(e, path, hop, request, i + k) == Chain(e, path, hop, request, j + k)
    decreases k
  {
    if k > 0 {
      RecurringChainsRepeat(e, path, hop, request, i, j, k - 1);
      ChainStep(e, path, hop, request, i + k - 1);
      ChainStep(e, path, hop, request, j + k - 1);
      var r := Chain(e, path, hop, request, i + k - 1);
      if r.Some? { NextIsSteady(e, path, hop + i + k - 1, hop + j + k - 1, r.value); }
    }
  }

  lemma {:induction false} StoppedStaysStopped(e: Engine, path: Path, hop: nat, request: Request, n: nat, n': nat)
    requires Chain(e, path, hop, request, n).None? && n <= n'
    ensures Chain(e, path, hop, request, n').None?
    decreases n' - n
  {
    if n < n' {
      StoppedStaysStopped(e, path, hop, request, n, n' - 1);
      ChainStep(e, path, hop, request, n' - 1);
    }
  }

  lemma {:induction false} RecurringChainsNeverStop(e: Engine, path: Path, hop: nat, request: Request, i: nat, j: nat, n: nat)
    requires Steady(e) && i < j && Chain(e, path, hop, request, i).Some?
    requires Chain(e, path, hop, request, i) == Chain(e, path, hop, request, j)
    ensures Chain(e, path, hop, request, n).Some?
    decreases n
  {
    if n <= j {
      if Chain(e, path, hop, request, n).None? { StoppedStaysStopped(e, path, hop, request, n, j); }
    } else {
      RecurringChainsNeverStop(e, path, hop, request, i, j, n - (j - i));
      RecurringChainsRepeat(e, path, hop, request, i, j, n - j);
    }
  }

  ghost predicate Asks(request: Request, names: set<string>) {
    request.questions != [] && request.questions[0].name in names
  }

  /** Aliases of names in the set lead to names in the set. */
  ghost predicate StaysIn(e: Engine, path: Path, names: set<string>) {
    forall h, r :: Asks(r, names) && Next(e, path, h, r).Some? ==> Asks(Next(e, path, h, r).value, names)
  }

  /** Along the chain only the name of the first question changes. */
  lemma {:induction false} ChainRetargets(e: Engine, path: Path, hop: nat, request: Request, names: set<string>, n: nat)
    requires Asks(request, names) && StaysIn(e, path, names)
    ensures var r := Chain(e, path, hop, request, n);
            r.Some? ==> Asks(r.value, names) && r.value == Retarget(request, r.value.questions[0].name)
    decreases n
  {
    if n > 0 {
      ChainRetargets(e, path, hop, request, names, n - 1);
      ChainStep(e, path, hop, request, n - 1);
    }
  }

  /** The names asked for in the first `n` requests of the chain. */
  ghost function NamesAsked(e: Engine, path: Path, hop: nat, request: Request, n: nat): (r: set<string>) {
    if n == 0 then {}
    else
      var r := Chain(e, path, hop, request, n - 1);
      NamesAsked(e, path, hop, request, n - 1) + if r.Some? && r.value.questions != [] then {r.value.questions[0].name} else {}
  }

  lemma {:induction false} AskedEarlier(e: Engine, path: Path, hop: nat, request: Request, n: nat, name: string) returns (i: nat)
    requires name in NamesAsked(e, path, hop, request, n)
    ensures i < n
    ensures var r := Chain(e, path, hop, request, i); r.Some? && r.value.questions != [] && r.value.questions[0].name == name
    decreases n
  {
    if name in NamesAsked(e, path, hop, request, n - 1) {
      i := AskedEarlier(e, path, hop, request, n - 1, name);
    } else {
      i := n - 1;
    }
  }

  lemma SameNameSameRequest(e: Engine, path: Path, hop: nat, request: Request, names: set<string>, i: nat, j: nat)
    requires Asks(request, names) && StaysIn(e, path, names)
    requires var a, b := Chain(e, path, hop, request, i), Chain(e, path, hop, request, j);
             && a.Some? && a.value.questions != [] && b.Some? && b.value.questions != []
             && a.value.questions[0].name == b.value.questions[0].name
    ensures Chain(e, path, hop, request, i) == Chain(e, path, hop, request, j)
  {
    ChainRetargets(e, path, hop, request, names, i);
    ChainRetargets(e, path, hop, request, names, j);
  }

  lemma NewNameAsked(e: Engine, path: Path, hop: nat, request: Request, names: set<string>, n: nat)
    requires Asks(request, names) && StaysIn(e, path, names) && NeverRecurs(e, path, hop, request)
    requires Chain(e, path, hop, request, n).Some?
    ensures var r := Chain(e, path, hop, request, n).value;
            Asks(r, names) && r.questions[0].name !in NamesAsked(e, path, hop, request, n)
  {
    ChainRetargets(e, path, hop, request, names, n);
    var name := Chain(e, path, hop, request, n).value.questions[0].name;
    if name in NamesAsked(e, path, hop, request, n) {
      var i := AskedEarlier(e, path, hop, request, n, name);
      SameNameSameRequest(e, path, hop, request, names, i, n);
    }
  }

  /** The request after `n` aliases is made, for a name of the set that was not asked for before. */
  ghost predicate AsksAnew(e: Engine, path: Path, hop: nat, request: Request, names: set<string>, n: nat) {
    var r := Chain(e, path, hop, request, n);
    r.Some? && Asks(r.value, names) && r.value.questions[0].name !in NamesAsked(e, path, hop, request, n)
  }

  lemma {:induction false} NewNamesAddUp(e: Engine, path: Path, hop: nat, request: Request, names: set<string>, n: nat)
    requires forall k: nat :: k < n ==> AsksAnew(e, path, hop, request, names, k)
    ensures |NamesAsked(e, path, hop, request, n)| == n && NamesAsked(e, path, hop, request, n) <= names
    decreases n
  {
    if n > 0 {
      assert AsksAnew(e, path, hop, request, names, n - 1);
      NewNamesAddUp(e, path, hop, request, names, n - 1);
    }
  }

  lemma SubsetIsSmaller(a: set<string>, b: set<string>)
    requires a <= b
    ensures |a| <= |b|
  {
    assert b == a + (b - a);
  }

  /** For resolvers that say the same at every hop, and aliases that stay within finitely many names, the
      chase ends if and only if no request recurs in its chain; and then it makes at most one request per
      name. */
  lemma ChaseEndsIffNothingRecurs(e: Engine, path: Path, hop: nat, request: Request, names: set<string>)
    requires Steady(e) && Asks(request, names) && StaysIn(e, path, names)
    ensures (exists depth: nat :: Handle(e, path, hop, request, depth).Some?) <==> NeverRecurs(e, path, hop, request)
    ensures NeverRecurs(e, path, hop, request) ==> Handle(e, path, hop, request, |names|).Some?
  {
    if NeverRecurs(e, path, hop, request) {
      assert |names| > 0 by { SubsetIsSmaller({request.questions[0].name}, names); }
      if Chain(e, path, hop, request, |names|).Some? {
        forall k: nat | k < |names| + 1 ensures AsksAnew(e, path, hop, request, names, k) {
          if Chain(e, path, hop, request, k).None? { StoppedStaysStopped(e, path, hop, request, k, |names|); }
          NewNameAsked(e, path, hop, request, names, k);
        }
        NewNamesAddUp(e, path, hop, request, names, |names| + 1);
        SubsetIsSmaller(NamesAsked(e, path, hop, request, |names| + 1), names);
        assert false;
      }
      EndsIffChainStops(e, path, hop, request, |names| - 1);
      HandledIffEnds(e, path, hop, request, |names|);
    } else {
      var i: nat, j: nat :| i < j && Chain(e, path, hop, request, i).Some? && Chain(e, path, hop, request, i) == Chain(e, path, hop, request, j);
      forall depth: nat ensures Handle(e, path, hop, request, depth).None? {
        HandledIffEnds(e, path, hop, request, depth);
        if depth > 0 {
          EndsIffChainStops(e, path, hop, request, depth - 1);
          RecurringChainsNeverStop(e, path, hop, request, i, j, depth);
        }
      }
    }
  }

  // ---- what a finished chase returns ----

  /** Resolution is started only for valid names that the rules do not block, at every hop. */
  lemma {:induction false} OnlyUnblockedNamesAreAsked(e: Engine, path: Path, hop: nat, request: Request, depth: nat)
    ensures var h := Handle(e, path, hop, request, depth);
            h.Some? ==> forall i :: 0 <= i < |h.value.asked| ==> MayBeAsked(e, path, h.value.asked[i])
    decreases depth
  {
    var h := Handle(e, path, hop, request, depth);
    if h.Some? && Next(e, path, hop, request).Some? {
      var next := Next(e, path, hop, request).value;
      OnlyUnblockedNamesAreAsked(e, path, hop + 1, next, depth - 1);
      var deeper := Handle(e, path, hop + 1, next, depth - 1).value.asked;
      assert h.value.asked == [request] + deeper && MayBeAsked(e, path, request);
      forall i | 0 <= i < |h.value.asked| ensures MayBeAsked(e, path, h.value.asked[i]) {
        if i > 0 { assert h.value.asked[i] == deeper[i - 1]; }
      }
    }
  }

  predicate MayBeAsked(e: Engine, path: Path, request: Request) {
    Invalid(request).None? && !Blocked(e, path, request)
  }

  lemma ConsumersAreUnblocked(e: Engine, consumer: Consumer, request: Request, depth: nat, i: nat)
    requires var h := HandleConsumer(e, consumer, request, depth); h.Some? && i < |h.value.asked|
    ensures !consumer.block && MayBeAsked(e, ByGroups(GroupsOf(consumer)), HandleConsumer(e, consumer, request, depth).value.asked[i])
  {
    if !consumer.block { OnlyUnblockedNamesAreAsked(e, ByGroups(GroupsOf(consumer)), 0, request, depth); }
  }

  /** For a consumer, on the engine's own store: nobody is asked for a blocked consumer, and otherwise, at
      every hop, only for valid names that the store does not block on the lists of the consumer's groups. */
  lemma ConsumersAskForUnblockedNames(lib: Lib, store: Option<Store>, groups: map<string, Group>,
                                      resolve: (nat, seq<string>, Request) -> Option<Message>, consumer: Consumer,
                                      request: Request, depth: nat, i: nat)
    requires var h := HandleConsumer(EngineOn(lib, store, groups, resolve), consumer, request, depth); h.Some? && i < |h.value.asked|
    ensures var asked := HandleConsumer(EngineOn(lib, store, groups, resolve), consumer, request, depth).value.asked[i];
            && !consumer.block && Invalid(asked).None?
            && VerdictForGroups(lib, store, groups, GroupsOf(consumer), asked.questions[0].name).match_ != MatchBlock
  {
    ConsumersAreUnblocked(EngineOn(lib, store, groups, resolve), consumer, request, depth, i);
  }

  /** The chase as a plain loop: follow the aliases and remember the last response. */
  function LastResponse(e: Engine, path: Path, hop: nat, request: Request, best: Option<Message>, n: nat): (r: Option<Message>)
    decreases n
  {
    match Response(e, path, hop, request)
    case None => best
    case Some(m) =>
      match Next(e, path, hop, request)
      case None => Some(m)
      case Some(next) => if n == 0 then Some(m) else LastResponse(e, path, hop + 1, next, Some(m), n - 1)
  }

  /** The recursion, with its re-labelling on the way back, returns the records of the last response. */
  lemma {:induction false} ChaseKeepsLastResponse(e: Engine, path: Path, hop: nat, request: Request, best: Option<Message>, depth: nat)
    requires Answering(e) && Handle(e, path, hop, request, depth).Some?
    ensures var h := Handle(e, path, hop, request, depth).value;
            var last := LastResponse(e, path, hop, request, best, depth);
            && (IsEmpty(h.response) <==> Response(e, path, hop, request).None?)
            && (IsEmpty(h.response) ==> last == best)
            && (!IsEmpty(h.response) ==> last.Some? && Content(h.response) == Content(last.value))
    decreases depth
  {
    if Response(e, path, hop, request).Some? {
      var m := Response(e, path, hop, request).value;
      var next := Next(e, path, hop, request);
      if next.Some? {
        ChaseKeepsLastResponse(e, path, hop + 1, next.value, Some(m), depth - 1);
        var h := Handle(e, path, hop + 1, next.value, depth - 1).value;
        if !IsEmpty(h.response) { RelabelKeeps(h.response, request); }
      }
    }
  }

  /** A chase that got anywhere answers the original question, with every answer owned by the original
      name; one that got nowhere hands out the alias response unchanged. */
  lemma ChaseAnswersOriginalQuestion(e: Engine, path: Path, hop: nat, request: Request, depth: nat)
    requires Answering(e) && Handle(e, path, hop, request, depth).Some? && Next(e, path, hop, request).Some?
    ensures var h := Handle(e, path, hop, request, depth).value;
            var further := Response(e, path, hop + 1, Next(e, path, hop, request).value);
            if further.None? then h.response == Response(e, path, hop, request).value
            else
              && h.response.questions == [request.questions[0]] && h.response.id == request.id
              && forall i :: 0 <= i < |h.response.answer| ==> h.response.answer[i].name == request.questions[0].name
  {
    ChaseKeepsLastResponse(e, path, hop + 1, Next(e, path, hop, request).value, None, depth - 1);
  }

  // ---- which resolvers are asked ----

  /** The resolvers of groups come in the order of the groups. */
  lemma {:induction false} NamedResolversInOrder(groups: map<string, Group>, a: seq<string>, b: seq<string>)
    ensures NamedResolvers(groups, a + b) == NamedResolvers(groups, a) + NamedResolvers(groups, b)
    decreases |a|
  {
    if a == [] {
      assert a + b == b;
    } else {
      assert (a + b)[0] == a[0] && (a + b)[1..] == a[1..] + b;
      NamedResolversInOrder(groups, a[1..], b);
    }
  }

  lemma NamedResolversOfOne(groups: map<string, Group>, name: string)
    ensures NamedResolvers(groups, [name]) == if name in groups then groups[name].resolvers else []
  {
    assert [name][1..] == [];
  }

  lemma {:induction false} NamedResolversOfLinked(all: map<string, Group>, linked: seq<Group>)
    requires forall i :: 0 <= i < |linked| ==> linked[i].name in all && all[linked[i].name] == linked[i]
    ensures NamedResolvers(all, NamesOf(linked)) == ResolversOf(linked)
    decreases |linked|
  {
    if linked != [] {
      NamedResolversOfLinked(all, linked[1..]);
      assert NamesOf(linked)[1..] == NamesOf(linked[1..]);
    }
  }

  /** A linked consumer's requests go to the resolvers it was linked with, in that order. */
  lemma ConsumersResolversAreAsked(e: Engine, groups: seq<Group>, wanted: seq<string>, consumer: Consumer)
    requires e.groups == GroupMap(groups) && UniqueNames(groups) && Linked(groups, wanted) != []
    requires var linked := Linked(groups, wanted);
             consumer == Consumer(consumer.block, NamesOf(linked), ResolversOf(linked), Merge([], ListsOf(linked)))
    ensures ResolversFor(e, ByGroups(GroupsOf(consumer))) == consumer.resolverNames
  {
    var linked := Linked(groups, wanted);
    forall i | 0 <= i < |linked| ensures linked[i].name in GroupMap(groups) && GroupMap(groups)[linked[i].name] == linked[i] {
      LinkedComeFrom(groups, wanted, linked[i]);
      var k :| 0 <= k < |groups| && groups[k] == linked[i];
      GroupMapHolds(groups, k);
    }
    NamedResolversOfLinked(GroupMap(groups), linked);
  }

  /** Two engines whose resolution says the same about the given resolvers. */
  ghost predicate AgreeOn(e: Engine, e': Engine, resolvers: seq<string>) {
    && e.verdict == e'.verdict && e.groups == e'.groups
    && forall hop, request :: e.resolve(hop, resolvers, request) == e'.resolve(hop, resolvers, request)
  }

  /** At every hop only the resolvers of the path matter. */
  lemma {:induction false} OnlyThoseResolversMatter(e: Engine, e': Engine, path: Path, hop: nat, request: Request, depth: nat)
    requires AgreeOn(e, e', ResolversFor(e, path))
    ensures Handle(e, path, hop, request, depth) == Handle(e', path, hop, request, depth)
    decreases depth
  {
    if depth > 0 && Next(e, path, hop, request).Some? {
      OnlyThoseResolversMatter(e, e', path, hop + 1, Next(e, path, hop, request).value, depth - 1);
    }
  }

  // ---- one hop ----

  /** Requests that are not looked at: without a question they are refused, some types are not implemented,
      and names must have 1 to 255 characters.  Nobody is asked. */
  lemma InvalidRequestsAreAnswered(e: Engine, path: Path, hop: nat, request: Request, depth: nat)
    requires depth > 0
    requires || request.questions == [] || request.questions[0].qtype in {0, 10, 251, 252}
             || |request.questions[0].name| == 0 || |request.questions[0].name| > 255
    ensures var h := Handle(e, path, hop, request, depth);
            && h.Some? && h.value.asked == [] && h.value.response.answer == [] && h.value.response.ns == [] && h.value.response.extra == []
            && h.value.response.id == request.id
            && h.value.response.rcode == if request.questions == [] then 5 else if request.questions[0].qtype in {0, 10, 251, 252} then 4 else 20
  {
  }

  /** A valid request that is blocked, has no resolvers or finds nothing is answered with a name error; one
      that finds a response gets it, unless it starts with an alias that was not asked for. */
  lemma ValidRequestsAreAnswered(e: Engine, path: Path, hop: nat, request: Request, depth: nat)
    requires depth > 0 && request.questions != [] && request.questions[0].qtype !in {0, 10, 251, 252}
    requires 1 <= |request.questions[0].name| <= 255
    ensures var q, h, resolvers := request.questions[0], Handle(e, path, hop, request, depth), ResolversFor(e, path);
            if (path.ByGroups? && e.verdict(path.groups, q.name) == MatchBlock) || resolvers == [] then
              h == Some(Handled(Message(request.id, 3, false, [q], [], [], []), []))
            else
              match e.resolve(hop, resolvers, request)
              case None => h == Some(Handled(Message(request.id, 3, false, [q], [], [], []), [request]))
              case Some(m) =>
                if m.answer != [] && m.answer[0].rrtype == 5 && q.qtype != 5 then
                  var next := request.(questions := request.questions[0 := Question(m.answer[0].value, q.qtype, q.qclass)]);
                  Next(e, path, hop, request) == Some(next) && (h.Some? <==> Handle(e, path, hop + 1, next, depth - 1).Some?)
                else h == Some(Handled(m, [request]))
  {
  }

  /** The code marks the response to a blocked consumer as refused before it makes it a reply, which sets the
      mark back: every request of such a consumer is answered with success and no records, and nobody is
      asked.  Other consumers go the way of their groups. */
  lemma BlockedConsumersAreNotRefused(e: Engine, consumer: Consumer, request: Request, depth: nat)
    ensures var h := HandleConsumer(e, consumer, request, depth);
            if consumer.block then h == Some(Handled(Message(request.id, 0, false, request.questions[..if request.questions == [] then 0 else 1], [], [], []), []))
            else h == Handle(e, ByGroups(if consumer.groupNames == [] then ["default"] else consumer.groupNames), 0, request, depth)
  {
    if request.questions == [] {
      assert request.questions[..0] == [];
    } else {
      assert request.questions[..1] == [request.questions[0]];
    }
  }
}
