/** The connection pool and its only client, `dnsSource.query`, as an interleaving of steps
    (pool/dns_pool.go, resolver/dns_source.go).  The pool's methods work on copies of the struct, so the
    mutex excludes nobody: testing the channel for room and sending into it are separate steps.  Runs
    are those before Shutdown. */
module Pool {
  import opened Text

  /** What a channel slot or a caller carries: nil or a live connection. */
  datatype Slot = Empty | Conn(id: nat)

  datatype Phase =
    | Resting
    | Dialing
    | Using(id: nat)
    | DialFailed                // in Get, about to test for room
    | ReturningNil              // in Get, about to send nil
    | Releasing(slot: Slot)     // in Release, about to test for room
    | Sending(slot: Slot)       // in Release, about to send
    | Discarding(slot: Slot)    // in Discard, about to test for room
    | Replacing(slot: Slot)     // in Discard, about to send nil
    | Closing(slot: Slot)       // in Discard, about to close

  /** `failed` counts failed dials and `skipped` the sends left out because the channel was full. */
  datatype State = State(max: nat, udp: bool, idle: seq<Slot>, threads: seq<Phase>, next: nat, failed: nat, skipped: nat,
                         closed: set<nat>, dropped: set<nat>)

  datatype Action = Spawn | Take(t: nat) | DialOk(t: nat) | DialFail(t: nat) | HandleOk(t: nat) | HandleError(t: nat) | Continue(t: nat)

  function Repeat(n: nat): (r: seq<Slot>)
    ensures |r| == n && forall i :: 0 <= i < n ==> r[i] == Empty
  {
    if n == 0 then [] else [Empty] + Repeat(n - 1)
  }

  /** NewDnsPool: the channel is filled with nil connections. */
  function Start(max: nat, udp: bool): (r: State) {
    State(max, udp, Repeat(max), [], 0, 0, 0, {}, {})
  }

  function Moved(s: State, t: nat, p: Phase): (r: State)
    requires t < |s.threads|
  {
    s.(threads := s.threads[t := p])
  }

  function Ids(slot: Slot): (r: set<nat>) {
    if slot.Conn? then {slot.id} else {}
  }

  /** The rest of Get, Release and Discard after the caller's own choice; None while a send must wait. */
  function Proceed(s: State, t: nat): (r: Option<State>)
    requires t < |s.threads|
  {
    var room := |s.idle| < s.max;
    match s.threads[t]
    case DialFailed => Some(if room then Moved(s, t, ReturningNil) else Moved(s, t, Discarding(Empty)).(skipped := s.skipped + 1))
    case ReturningNil => if room then Some(Moved(s, t, Discarding(Empty)).(idle := s.idle + [Empty])) else None
    case Releasing(slot) =>
      if room then Some(Moved(s, t, Sending(slot)))
      else Some(Moved(s, t, Resting).(skipped := s.skipped + 1, dropped := s.dropped + Ids(slot)))
    case Sending(slot) => if room then Some(Moved(s, t, Resting).(idle := s.idle + [slot])) else None
    case Discarding(slot) => Some(if room then Moved(s, t, Replacing(slot)) else Moved(s, t, Closing(slot)).(skipped := s.skipped + 1))
    case Replacing(slot) => if room then Some(Moved(s, t, Closing(slot)).(idle := s.idle + [Empty])) else None
    case Closing(slot) => Some(Moved(s, t, Resting).(closed := s.closed + Ids(slot)))
    case _ => None
  }

  function Step(s: State, a: Action): (r: Option<State>) {
    match a
    case Spawn => Some(s.(threads := s.threads + [Resting]))
    case Take(t) =>
      if t < |s.threads| && s.threads[t].Resting? && s.idle != [] then
        Some(Moved(s, t, if s.idle[0].Conn? then Using(s.idle[0].id) else Dialing).(idle := s.idle[1..]))
      else None
    case DialOk(t) =>
      if t < |s.threads| && s.threads[t].Dialing? then Some(Moved(s, t, Using(s.next)).(next := s.next + 1)) else None
    case DialFail(t) =>
      if t < |s.threads| && s.threads[t].Dialing? then Some(Moved(s, t, DialFailed).(failed := s.failed + 1)) else None
    case HandleOk(t) =>
      if t < |s.threads| && s.threads[t].Using? then
        var id := s.threads[t].id;
        // connections over UDP are closed and not reused
        Some(if s.udp then Moved(s, t, Releasing(Empty)).(closed := s.closed + {id}) else Moved(s, t, Releasing(Conn(id))))
      else None
    case HandleError(t) =>
      if t < |s.threads| && s.threads[t].Using? then Some(Moved(s, t, Discarding(Conn(s.threads[t].id)))) else None
    case Continue(t) => if t < |s.threads| then Proceed(s, t) else None
  }

  /** A run takes only enabled steps. */
  function Run(s: State, actions: seq<Action>): (r: Option<State>) {
    if actions == [] then Some(s)
    else
      var before := Run(s, actions[..|actions| - 1]);
      if before.None? then None else Step(before.value, actions[|actions| - 1])
  }

  // ---- tokens ----

  /** Callers that have taken a slot and not yet given one back. */
  function Token(p: Phase): (r: nat) {
    if p.Resting? || p.Closing? then 0 else 1
  }

  /** Callers whose failed dial will still give one slot too many back. */
  function Surplus(p: Phase): (r: nat) {
    if p.DialFailed? || p.ReturningNil? then 1 else 0
  }

  function Sum(weight: Phase -> nat, threads: seq<Phase>): (r: nat) {
    if threads == [] then 0 else Sum(weight, threads[..|threads| - 1]) + weight(threads[|threads| - 1])
  }

  lemma {:induction false} SumUpdate(weight: Phase -> nat, threads: seq<Phase>, t: nat, p: Phase)
    requires t < |threads|
    ensures Sum(weight, threads[t := p]) + weight(threads[t]) == Sum(weight, threads) + weight(p)
    decreases |threads|
  {
    var n := |threads| - 1;
    if t == n {
      assert threads[t := p][..n] == threads[..n];
    } else {
      SumUpdate(weight, threads[..n], t, p);
      assert threads[t := p][..n] == threads[..n][t := p];
    }
  }

  lemma SumSpawn(weight: Phase -> nat, threads: seq<Phase>, p: Phase)
    ensures Sum(weight, threads + [p]) == Sum(weight, threads) + weight(p)
  {
    assert (threads + [p])[..|threads|] == threads;
  }

  lemma {:induction false} SumPositive(weight: Phase -> nat, threads: seq<Phase>)
    requires Sum(weight, threads) > 0
    ensures exists t :: 0 <= t < |threads| && weight(threads[t]) > 0
    decreases |threads|
  {
    var n := |threads| - 1;
    if weight(threads[n]) == 0 {
      SumPositive(weight, threads[..n]);
      var t :| 0 <= t < n && weight(threads[..n][t]) > 0;
      assert threads[t] == threads[..n][t];
    }
  }

  lemma {:induction false} SumAtLeast(weight: Phase -> nat, threads: seq<Phase>, t: nat)
    requires t < |threads|
    ensures Sum(weight, threads) >= weight(threads[t])
    decreases |threads|
  {
    if t < |threads| - 1 { SumAtLeast(weight, threads[..|threads| - 1], t); }
  }

  function Tokens(s: State): (r: nat) {
    |s.idle| + Sum(Token, s.threads)
  }

  predicate Balanced(s: State) {
    && |s.idle| <= s.max
    && s.max <= Tokens(s)
    && Tokens(s) + Sum(Surplus, s.threads) + s.skipped == s.max + s.failed
  }

  /** A step of thread `t` keeps the balance if it gives up no token except at a full channel, and accounts
      for every token it creates or skips. */
  lemma Rebalance(s: State, s': State, t: nat)
    requires Balanced(s) && t < |s.threads| == |s'.threads| && s'.threads == s.threads[t := s'.threads[t]]
    requires s'.max == s.max && |s'.idle| <= s.max
    requires |s'.idle| == s.max || |s'.idle| + Token(s'.threads[t]) >= |s.idle| + Token(s.threads[t])
    requires |s'.idle| + Token(s'.threads[t]) + Surplus(s'.threads[t]) + s'.skipped + s.failed ==
             |s.idle| + Token(s.threads[t]) + Surplus(s.threads[t]) + s.skipped + s'.failed
    ensures Balanced(s')
  {
    SumUpdate(Token, s.threads, t, s'.threads[t]);
    SumUpdate(Surplus, s.threads, t, s'.threads[t]);
  }

  lemma ProceedKeepsBalance(s: State, t: nat)
    requires Balanced(s) && t < |s.threads| && Proceed(s, t).Some?
    ensures Balanced(Proceed(s, t).value) && Proceed(s, t).value.max == s.max
  {
    Rebalance(s, Proceed(s, t).value, t);
  }

  lemma StepKeepsBalance(s: State, a: Action)
    requires Balanced(s) && Step(s, a).Some?
    ensures Balanced(Step(s, a).value) && Step(s, a).value.max == s.max
  {
    var s' := Step(s, a).value;
    if a.Spawn? {
      SumSpawn(Token, s.threads, Resting);
      SumSpawn(Surplus, s.threads, Resting);
    } else if a.Continue? {
      ProceedKeepsBalance(s, a.t);
    } else {
      Rebalance(s, s', a.t);
    }
  }

  lemma {:induction false} RunKeepsBalance(max: nat, udp: bool, actions: seq<Action>)
    requires Run(Start(max, udp), actions).Some?
    ensures var s := Run(Start(max, udp), actions).value; Balanced(s) && s.max == max
    decreases |actions|
  {
    if actions != [] {
      RunKeepsBalance(max, udp, actions[..|actions| - 1]);
      StepKeepsBalance(Run(Start(max, udp), actions[..|actions| - 1]).value, actions[|actions| - 1]);
    }
  }

  /** In every interleaving, idle slots plus held tokens, plus the slots that failed dials have yet to put
      back and the sends skipped at a full channel, are exactly the configured maximum plus the failed
      dials.  The tokens alone lie between the maximum and that, and are the maximum without failures. */
  lemma TokensAreConserved(max: nat, udp: bool, actions: seq<Action>)
    requires Run(Start(max, udp), actions).Some?
    ensures var s := Run(Start(max, udp), actions).value;
            && Tokens(s) + Sum(Surplus, s.threads) + s.skipped == max + s.failed
            && max <= Tokens(s) <= max + s.failed && |s.idle| <= max && (s.failed == 0 ==> Tokens(s) == max && s.skipped == 0)
  {
    RunKeepsBalance(max, udp, actions);
  }

  /** Some action of the thread is enabled. */
  ghost predicate CanMove(s: State, t: nat) {
    exists a :: ActsFor(a, t) && Step(s, a).Some?
  }

  predicate ActsFor(a: Action, t: nat) {
    !a.Spawn? && a.t == t
  }

  /** No deadlock: when Get has to wait, some caller holds a token and can take a step. */
  lemma WaitingImpliesProgress(max: nat, udp: bool, actions: seq<Action>)
    requires max > 0 && Run(Start(max, udp), actions).Some?
    requires Run(Start(max, udp), actions).value.idle == []
    ensures var s := Run(Start(max, udp), actions).value;
            exists t :: 0 <= t < |s.threads| && Token(s.threads[t]) == 1 && CanMove(s, t)
  {
    var s := Run(Start(max, udp), actions).value;
    RunKeepsBalance(max, udp, actions);
    SumPositive(Token, s.threads);
    var t :| 0 <= t < |s.threads| && Token(s.threads[t]) > 0;
    HoldersCanMove(s, t);
  }

  lemma HoldersCanMove(s: State, t: nat)
    requires t < |s.threads| && Token(s.threads[t]) > 0 && |s.idle| < s.max
    ensures CanMove(s, t)
  {
    var a := match s.threads[t]
      case Dialing => DialOk(t)
      case Using(_) => HandleOk(t)
      case _ => Continue(t);
    assert ActsFor(a, t) && Step(s, a).Some?;
  }

  /** Without failed dials a holder always finds room: no send waits and no connection is dropped. */
  lemma WithoutFailuresThereIsRoom(max: nat, udp: bool, actions: seq<Action>, t: nat)
    requires Run(Start(max, udp), actions).Some?
    requires var s := Run(Start(max, udp), actions).value; s.failed == 0 && t < |s.threads| && Token(s.threads[t]) == 1
    ensures |Run(Start(max, udp), actions).value.idle| < max
  {
    var s := Run(Start(max, udp), actions).value;
    RunKeepsBalance(max, udp, actions);
    SumAtLeast(Token, s.threads, t);
  }

  // ---- connections ----

  /** The connections a caller has in hand. */
  function InHand(p: Phase): (r: set<nat>) {
    match p
    case Using(id) => {id}
    case Releasing(slot) => Ids(slot)
    case Sending(slot) => Ids(slot)
    case Discarding(slot) => Ids(slot)
    case Replacing(slot) => Ids(slot)
    case Closing(slot) => Ids(slot)
    case _ => {}
  }

  predicate NeverHeldTwice(s: State) {
    forall i, j :: 0 <= i < j < |s.threads| ==> InHand(s.threads[i]) !! InHand(s.threads[j])
  }

  predicate NeverIdleTwice(s: State) {
    forall i, j :: 0 <= i < j < |s.idle| ==> Ids(s.idle[i]) !! Ids(s.idle[j])
  }

  predicate NeverIdleAndHeld(s: State) {
    forall i, j :: 0 <= i < |s.idle| && 0 <= j < |s.threads| ==> Ids(s.idle[i]) !! InHand(s.threads[j])
  }

  /** Connections in the pool or in hand were dialed, are open and were not dropped. */
  predicate Live(s: State, ids: set<nat>) {
    forall id :: id in ids ==> id < s.next && id !in s.closed && id !in s.dropped
  }

  predicate AllLive(s: State) {
    && (forall i :: 0 <= i < |s.idle| ==> Live(s, Ids(s.idle[i])))
    && (forall t :: 0 <= t < |s.threads| ==> Live(s, InHand(s.threads[t])))
    && (forall id :: id in s.closed + s.dropped ==> id < s.next)
  }

  predicate Exclusive(s: State) {
    NeverHeldTwice(s) && NeverIdleTwice(s) && NeverIdleAndHeld(s) && AllLive(s)
  }

  lemma HeldTwice(s: State, s': State, t: nat)
    requires NeverHeldTwice(s) && t < |s.threads| == |s'.threads| && s'.threads == s.threads[t := s'.threads[t]]
    requires forall j :: 0 <= j < |s.threads| && j != t ==> InHand(s.threads[j]) !! InHand(s'.threads[t])
    ensures NeverHeldTwice(s')
  {
    forall i, j | 0 <= i < j < |s'.threads| ensures InHand(s'.threads[i]) !! InHand(s'.threads[j]) {
      if i != t && j != t { assert s'.threads[i] == s.threads[i] && s'.threads[j] == s.threads[j]; }
    }
  }

  /** Thread `t` keeps, closes or drops what it has in hand; the channel stays as it is. */
  lemma KeepsHands(s: State, s': State, t: nat)
    requires Exclusive(s) && t < |s.threads| == |s'.threads| && s'.threads == s.threads[t := s'.threads[t]]
    requires s'.idle == s.idle && s'.next == s.next
    requires InHand(s'.threads[t]) <= InHand(s.threads[t])
    requires s'.closed + s'.dropped <= s.closed + s.dropped + (InHand(s.threads[t]) - InHand(s'.threads[t]))
    ensures Exclusive(s')
  {
    forall j | 0 <= j < |s.threads| && j != t ensures InHand(s.threads[j]) !! InHand(s.threads[t]) {}
    HeldTwice(s, s', t);
    forall i | 0 <= i < |s'.idle| ensures Live(s', Ids(s'.idle[i])) {
      assert Ids(s.idle[i]) !! InHand(s.threads[t]);
    }
    forall j | 0 <= j < |s'.threads| ensures Live(s', InHand(s'.threads[j])) {
      if j != t { assert InHand(s.threads[j]) !! InHand(s.threads[t]); }
    }
  }

  /** Thread `t` puts a slot into the channel and keeps the rest. */
  lemma PutsBack(s: State, s': State, t: nat, slot: Slot)
    requires Exclusive(s) && t < |s.threads| == |s'.threads| && s'.threads == s.threads[t := s'.threads[t]]
    requires s'.idle == s.idle + [slot] && s'.next == s.next && s'.closed == s.closed && s'.dropped == s.dropped
    requires Ids(slot) + InHand(s'.threads[t]) <= InHand(s.threads[t]) && Ids(slot) !! InHand(s'.threads[t])
    ensures Exclusive(s')
  {
    forall j | 0 <= j < |s.threads| && j != t ensures InHand(s.threads[j]) !! InHand(s.threads[t]) {}
    HeldTwice(s, s', t);
    forall i | 0 <= i < |s.idle| ensures Ids(s.idle[i]) !! InHand(s.threads[t]) {}
  }

  lemma TakesOut(s: State, t: nat)
    requires Exclusive(s) && Step(s, Take(t)).Some?
    ensures Exclusive(Step(s, Take(t)).value)
  {
    var s' := Step(s, Take(t)).value;
    var slot := s.idle[0];
    assert InHand(s'.threads[t]) == Ids(slot);
    forall j | 0 <= j < |s.threads| ensures Ids(slot) !! InHand(s.threads[j]) {}
    HeldTwice(s, s', t);
    forall i | 0 <= i < |s'.idle| ensures s'.idle[i] == s.idle[i + 1] && Ids(s'.idle[i]) !! Ids(slot) {}
  }

  lemma DialsFresh(s: State, t: nat)
    requires Exclusive(s) && Step(s, DialOk(t)).Some?
    ensures Exclusive(Step(s, DialOk(t)).value)
  {
    var s' := Step(s, DialOk(t)).value;
    forall j | 0 <= j < |s.threads| ensures InHand(s.threads[j]) !! {s.next} { assert Live(s, InHand(s.threads[j])); }
    forall i | 0 <= i < |s.idle| ensures Ids(s.idle[i]) !! {s.next} { assert Live(s, Ids(s.idle[i])); }
    HeldTwice(s, s', t);
    assert s.next !in s.closed + s.dropped && Live(s', {s.next});
  }

  lemma ContinueKeepsExclusive(s: State, t: nat)
    requires Exclusive(s) && t < |s.threads| && Proceed(s, t).Some?
    ensures Exclusive(Proceed(s, t).value)
  {
    var s' := Proceed(s, t).value;
    match s.threads[t]
    case ReturningNil => PutsBack(s, s', t, Empty);
    case Sending(slot) => PutsBack(s, s', t, slot);
    case Replacing(_) => PutsBack(s, s', t, Empty);
    case _ => KeepsHands(s, s', t);
  }

  lemma SpawnKeepsExclusive(s: State)
    requires Exclusive(s)
    ensures Exclusive(s.(threads := s.threads + [Resting]))
  {
    var s' := s.(threads := s.threads + [Resting]);
    assert forall t :: 0 <= t < |s.threads| ==> s'.threads[t] == s.threads[t];
    assert InHand(s'.threads[|s.threads|]) == {};
  }

  lemma HandleOkKeepsExclusive(s: State, t: nat)
    requires Exclusive(s) && Step(s, HandleOk(t)).Some?
    ensures Exclusive(Step(s, HandleOk(t)).value)
  {
    KeepsHands(s, Step(s, HandleOk(t)).value, t);
  }

  lemma StepKeepsExclusive(s: State, a: Action)
    requires Exclusive(s) && Step(s, a).Some?
    ensures Exclusive(Step(s, a).value)
  {
    var s' := Step(s, a).value;
    match a
    case Spawn => SpawnKeepsExclusive(s);
    case Take(t) => TakesOut(s, t);
    case DialOk(t) => DialsFresh(s, t);
    case DialFail(t) => KeepsHands(s, s', t);
    case HandleOk(t) => HandleOkKeepsExclusive(s, t);
    case HandleError(t) => KeepsHands(s, s', t);
    case Continue(t) => ContinueKeepsExclusive(s, t);
  }

  /** In every interleaving no live connection is idle and held, held twice, or idle twice; and none that
      is idle or held has been closed. */
  lemma {:induction false} ConnectionsAreExclusive(max: nat, udp: bool, actions: seq<Action>)
    requires Run(Start(max, udp), actions).Some?
    ensures Exclusive(Run(Start(max, udp), actions).value)
    decreases |actions|
  {
    if actions != [] {
      ConnectionsAreExclusive(max, udp, actions[..|actions| - 1]);
      StepKeepsExclusive(Run(Start(max, udp), actions[..|actions| - 1]).value, actions[|actions| - 1]);
    }
  }

  // ---- every connection is accounted for ----

  ghost predicate IsIdle(s: State, id: nat) {
    exists i :: 0 <= i < |s.idle| && s.idle[i] == Conn(id)
  }

  ghost predicate IsHeld(s: State, id: nat) {
    exists t :: 0 <= t < |s.threads| && id in InHand(s.threads[t])
  }

  ghost predicate Somewhere(s: State, id: nat) {
    IsIdle(s, id) || IsHeld(s, id) || id in s.closed || id in s.dropped
  }

  lemma StaysHeld(s: State, s': State, t: nat, id: nat)
    requires t < |s.threads| == |s'.threads| && s'.threads == s.threads[t := s'.threads[t]]
    requires IsHeld(s, id) && (id in InHand(s.threads[t]) ==> id in InHand(s'.threads[t]))
    ensures IsHeld(s', id)
  {
    var u :| 0 <= u < |s.threads| && id in InHand(s.threads[u]);
    assert id in InHand(s'.threads[u]);
  }

  /** A step of thread `t` loses no connection if everything it lets go of is sent, closed or dropped. */
  lemma StaysSomewhere(s: State, s': State, t: nat, id: nat)
    requires t < |s.threads| == |s'.threads| && s'.threads == s.threads[t := s'.threads[t]]
    requires Somewhere(s, id) && s.closed <= s'.closed && s.dropped <= s'.dropped
    requires IsIdle(s, id) ==> IsIdle(s', id) || IsHeld(s', id)
    requires id in InHand(s.threads[t]) ==> id in InHand(s'.threads[t]) || id in s'.closed || id in s'.dropped || IsIdle(s', id)
    ensures Somewhere(s', id)
  {
    if IsHeld(s, id) && !(id in s'.closed || id in s'.dropped || IsIdle(s', id)) { StaysHeld(s, s', t, id); }
  }

  lemma StaysIdle(s: State, s': State, slot: Slot, id: nat)
    requires s'.idle == s.idle + [slot]
    ensures IsIdle(s, id) || slot == Conn(id) ==> IsIdle(s', id)
  {
    if IsIdle(s, id) {
      var i :| 0 <= i < |s.idle| && s.idle[i] == Conn(id);
      assert s'.idle[i] == Conn(id);
    }
    if slot == Conn(id) { assert s'.idle[|s.idle|] == Conn(id); }
  }

  lemma ContinueLosesNothing(s: State, t: nat, id: nat)
    requires t < |s.threads| && Proceed(s, t).Some? && Somewhere(s, id)
    ensures Somewhere(Proceed(s, t).value, id)
  {
    var s' := Proceed(s, t).value;
    match s.threads[t]
    case ReturningNil => StaysIdle(s, s', Empty, id); StaysSomewhere(s, s', t, id);
    case Sending(slot) => StaysIdle(s, s', slot, id); StaysSomewhere(s, s', t, id);
    case Replacing(_) => StaysIdle(s, s', Empty, id); StaysSomewhere(s, s', t, id);
    case _ => StaysSomewhere(s, s', t, id);
  }

  lemma TakeLosesNothing(s: State, t: nat, id: nat)
    requires Step(s, Take(t)).Some? && Somewhere(s, id)
    ensures Somewhere(Step(s, Take(t)).value, id)
  {
    var s' := Step(s, Take(t)).value;
    if IsIdle(s, id) {
      var i :| 0 <= i < |s.idle| && s.idle[i] == Conn(id);
      if i == 0 { assert id in InHand(s'.threads[t]); } else { assert s'.idle[i - 1] == Conn(id); }
    }
    StaysSomewhere(s, s', t, id);
  }

  lemma DialAddsOne(s: State, t: nat, id: nat)
    requires Step(s, DialOk(t)).Some? && (Somewhere(s, id) || id == s.next)
    ensures Somewhere(Step(s, DialOk(t)).value, id)
  {
    var s' := Step(s, DialOk(t)).value;
    if id == s.next { assert id in InHand(s'.threads[t]); } else { StaysSomewhere(s, s', t, id); }
  }

  lemma SpawnLosesNothing(s: State, id: nat)
    requires Somewhere(s, id)
    ensures Somewhere(s.(threads := s.threads + [Resting]), id)
  {
    var s' := s.(threads := s.threads + [Resting]);
    if IsHeld(s, id) {
      var u :| 0 <= u < |s.threads| && id in InHand(s.threads[u]);
      assert id in InHand(s'.threads[u]);
    }
  }

  lemma StepLosesNothing(s: State, a: Action, id: nat)
    requires Step(s, a).Some? && id < Step(s, a).value.next && (id < s.next ==> Somewhere(s, id))
    ensures Somewhere(Step(s, a).value, id)
  {
    var s' := Step(s, a).value;
    match a
    case Spawn => SpawnLosesNothing(s, id);
    case Take(t) => TakeLosesNothing(s, t, id);
    case DialOk(t) => DialAddsOne(s, t, id);
    case Continue(t) => ContinueLosesNothing(s, t, id);
    case _ => StaysSomewhere(s, s', a.t, id);
  }

  lemma StepKeepsApart(s: State, a: Action)
    requires Exclusive(s) && s.closed !! s.dropped && Step(s, a).Some?
    ensures var s' := Step(s, a).value; s'.closed !! s'.dropped
  {
    if !a.Spawn? && a.t < |s.threads| { assert Live(s, InHand(s.threads[a.t])); }
  }

  /** In every interleaving each connection ever dialed is idle, in one caller's hand, closed, or dropped at
      a full channel; none is both closed and dropped, and with exclusiveness it is exactly one of these. */
  lemma {:induction false} EveryConnectionIsAccountedFor(max: nat, udp: bool, actions: seq<Action>, id: nat)
    requires Run(Start(max, udp), actions).Some?
    ensures var s := Run(Start(max, udp), actions).value; (id < s.next ==> Somewhere(s, id)) && s.closed !! s.dropped
    decreases |actions|
  {
    if actions != [] {
      var init, a := actions[..|actions| - 1], actions[|actions| - 1];
      var s := Run(Start(max, udp), init).value;
      EveryConnectionIsAccountedFor(max, udp, init, id);
      ConnectionsAreExclusive(max, udp, init);
      StepKeepsApart(s, a);
      if id < Step(s, a).value.next { StepLosesNothing(s, a, id); }
    }
  }

  // ---- which connections are closed ----

  /** Connections whose caller is done with them for good: after an error, and over UDP after any query. */
  function Finished(s: State, a: Action): (r: set<nat>) {
    match a
    case HandleError(t) => if t < |s.threads| then InHand(s.threads[t]) else {}
    case HandleOk(t) => if s.udp && t < |s.threads| then InHand(s.threads[t]) else {}
    case _ => {}
  }

  function AllFinished(s: State, actions: seq<Action>): (r: set<nat>) {
    if actions == [] then {}
    else
      var before := Run(s, actions[..|actions| - 1]);
      AllFinished(s, actions[..|actions| - 1]) + if before.Some? then Finished(before.value, actions[|actions| - 1]) else {}
  }

  /** Connections on their way to being closed. */
  function Doomed(p: Phase): (r: set<nat>) {
    if p.Discarding? || p.Replacing? || p.Closing? then InHand(p) else {}
  }

  ghost predicate IsDoomed(s: State, id: nat) {
    exists t :: 0 <= t < |s.threads| && id in Doomed(s.threads[t])
  }

  lemma DoomedUpdate(s: State, s': State, t: nat, id: nat)
    requires t < |s.threads| == |s'.threads| && s'.threads == s.threads[t := s'.threads[t]]
    ensures IsDoomed(s', id) ==> IsDoomed(s, id) || id in Doomed(s'.threads[t])
    ensures id in Doomed(s'.threads[t]) ==> IsDoomed(s', id)
    ensures IsDoomed(s, id) ==> IsDoomed(s', id) || id in Doomed(s.threads[t])
  {
    if IsDoomed(s, id) {
      var u :| 0 <= u < |s.threads| && id in Doomed(s.threads[u]);
      if u != t { assert s'.threads[u] == s.threads[u]; }
    }
    if IsDoomed(s', id) {
      var u :| 0 <= u < |s'.threads| && id in Doomed(s'.threads[u]);
      if u != t { assert s'.threads[u] == s.threads[u]; }
    }
  }

  lemma DoomedSpawn(s: State, id: nat)
    ensures IsDoomed(s.(threads := s.threads + [Resting]), id) <==> IsDoomed(s, id)
  {
    var s' := s.(threads := s.threads + [Resting]);
    if IsDoomed(s, id) {
      var u :| 0 <= u < |s.threads| && id in Doomed(s.threads[u]);
      assert id in Doomed(s'.threads[u]);
    }
    if IsDoomed(s', id) {
      var u :| 0 <= u < |s'.threads| && id in Doomed(s'.threads[u]);
      assert s'.threads[u] == s.threads[u];
    }
  }

  lemma StepClosesFinished(s: State, a: Action, id: nat)
    requires Step(s, a).Some?
    ensures var s' := Step(s, a).value;
            id in s'.closed || IsDoomed(s', id) <==> id in s.closed || IsDoomed(s, id) || id in Finished(s, a)
  {
    var s' := Step(s, a).value;
    if a.Spawn? {
      DoomedSpawn(s, id);
    } else {
      DoomedUpdate(s, s', a.t, id);
      if id in Doomed(s.threads[a.t]) { assert IsDoomed(s, id); }
    }
  }

  /** In every interleaving exactly the connections a caller is done with for good are closed or on their
      way to it: over TCP those with an error, over UDP every one whose query is over. */
  lemma {:induction false} ClosedIffFinished(max: nat, udp: bool, actions: seq<Action>, id: nat)
    requires Run(Start(max, udp), actions).Some?
    ensures var s := Run(Start(max, udp), actions).value;
            id in s.closed || IsDoomed(s, id) <==> id in AllFinished(Start(max, udp), actions)
    decreases |actions|
  {
    if actions != [] {
      var init, a := actions[..|actions| - 1], actions[|actions| - 1];
      ClosedIffFinished(max, udp, init, id);
      StepClosesFinished(Run(Start(max, udp), init).value, a, id);
    }
  }

  // ---- the order of the channel ----

  /** The slot that a step sends into the channel or takes from it. */
  function Sent(s: State, a: Action): (r: seq<Slot>) {
    if !a.Continue? || a.t >= |s.threads| then []
    else
      match s.threads[a.t]
      case ReturningNil => [Empty]
      case Sending(slot) => [slot]
      case Replacing(_) => [Empty]
      case _ => []
  }

  /** What a Get finds: a connection to use, or nil and the need to dial. */
  function Received(s: State, s': State, a: Action): (r: seq<Slot>) {
    if !a.Take? || a.t >= |s'.threads| then [] else [if s'.threads[a.t].Using? then Conn(s'.threads[a.t].id) else Empty]
  }

  function AllSent(s: State, actions: seq<Action>): (r: seq<Slot>) {
    if actions == [] then []
    else
      var before := Run(s, actions[..|actions| - 1]);
      AllSent(s, actions[..|actions| - 1]) + if before.Some? then Sent(before.value, actions[|actions| - 1]) else []
  }

  function AllReceived(s: State, actions: seq<Action>): (r: seq<Slot>) {
    if actions == [] then []
    else
      var before, after := Run(s, actions[..|actions| - 1]), Run(s, actions);
      AllReceived(s, actions[..|actions| - 1]) +
      if before.Some? && after.Some? then Received(before.value, after.value, actions[|actions| - 1]) else []
  }

  lemma StepIsFifo(s: State, a: Action, sent: seq<Slot>, received: seq<Slot>)
    requires Step(s, a).Some? && sent == received + s.idle
    ensures var s' := Step(s, a).value; sent + Sent(s, a) == received + Received(s, s', a) + s'.idle
  {
    var s' := Step(s, a).value;
    if a.Take? {
      assert Received(s, s', a) == [s.idle[0]];
      assert s.idle == [s.idle[0]] + s.idle[1..];
    } else {
      assert s'.idle == s.idle + Sent(s, a);
    }
  }

  /** The channel is first in, first out: the initial nils and all that was sent are, in order, all that was
      received and what is idle. */
  lemma {:induction false} ChannelIsFifo(max: nat, udp: bool, actions: seq<Action>)
    requires Run(Start(max, udp), actions).Some?
    ensures var s0, s := Start(max, udp), Run(Start(max, udp), actions).value;
            Repeat(max) + AllSent(s0, actions) == AllReceived(s0, actions) + s.idle
    decreases |actions|
  {
    if actions != [] {
      var init, a, s0 := actions[..|actions| - 1], actions[|actions| - 1], Start(max, udp);
      ChannelIsFifo(max, udp, init);
      StepIsFifo(Run(s0, init).value, a, Repeat(max) + AllSent(s0, init), AllReceived(s0, init));
    }
  }

  /** As long as no dial has failed, no connection is ever dropped at a full pool. */
  lemma {:induction false} NothingDroppedWithoutFailures(max: nat, udp: bool, actions: seq<Action>)
    requires Run(Start(max, udp), actions).Some? && Run(Start(max, udp), actions).value.failed == 0
    ensures Run(Start(max, udp), actions).value.dropped == {}
    decreases |actions|
  {
    if actions != [] {
      var init, last := actions[..|actions| - 1], actions[|actions| - 1];
      var s := Run(Start(max, udp), init).value;
      NothingDroppedWithoutFailures(max, udp, init);
      RunKeepsBalance(max, udp, init);
      if last.Continue? && s.threads[last.t].Releasing? {
        WithoutFailuresThereIsRoom(max, udp, init, last.t);
      }
    }
  }

  lemma Then(s: State, actions: seq<Action>, mid: State, a: Action, s': State)
    requires Run(s, actions) == Some(mid) && Step(mid, a) == Some(s')
    ensures Run(s, actions + [a]) == Some(s')
  {
    assert (actions + [a])[..|actions|] == actions;
  }

  const ONE := State(1, false, [Empty], [Resting, Resting, Resting], 0, 0, 0, {}, {})

  lemma ThreeCallers() returns (actions: seq<Action>)
    ensures Run(Start(1, false), actions) == Some(ONE)
  {
    var s0 := Start(1, false);
    assert Repeat(1) == [Empty];
    assert [] + [Resting] == [Resting] && [Resting] + [Resting] == [Resting, Resting] && [Resting, Resting] + [Resting] == ONE.threads;
    Then(s0, [], s0, Spawn, s0.(threads := [Resting]));
    Then(s0, [] + [Spawn], s0.(threads := [Resting]), Spawn, s0.(threads := [Resting, Resting]));
    Then(s0, [] + [Spawn] + [Spawn], s0.(threads := [Resting, Resting]), Spawn, ONE);
    actions := [] + [Spawn] + [Spawn] + [Spawn];
  }

  /** The first dial fails; its nil is about to go back. */
  lemma FirstDialFails() returns (actions: seq<Action>, s: State)
    ensures Run(Start(1, false), actions) == Some(s)
    ensures s == ONE.(idle := [], threads := [DialFailed, Resting, Resting], failed := 1)
  {
    var s0 := Start(1, false);
    actions := ThreeCallers();
    var s1 := ONE.(idle := [], threads := [Dialing, Resting, Resting]);
    assert ONE.threads[0 := Dialing] == s1.threads && ONE.idle[1..] == [];
    Then(s0, actions, ONE, Take(0), s1);
    actions := actions + [Take(0)];
    s := s1.(threads := [DialFailed, Resting, Resting], failed := 1);
    assert s1.threads[0 := DialFailed] == s.threads;
    Then(s0, actions, s1, DialFail(0), s);
    actions := actions + [DialFail(0)];
  }

  /** That nil is in the channel again, while its caller has yet to discard. */
  lemma FirstNilArrives() returns (actions: seq<Action>, s: State)
    ensures Run(Start(1, false), actions) == Some(s)
    ensures s == ONE.(threads := [Discarding(Empty), Resting, Resting], failed := 1)
  {
    var s0 := Start(1, false);
    var s1: State;
    actions, s1 := FirstDialFails();
    var s2 := s1.(threads := [ReturningNil, Resting, Resting]);
    assert s1.threads[0 := ReturningNil] == s2.threads;
    Then(s0, actions, s1, Continue(0), s2);
    actions := actions + [Continue(0)];
    s := s2.(threads := [Discarding(Empty), Resting, Resting], idle := [Empty]);
    assert s2.threads[0 := Discarding(Empty)] == s.threads && s2.idle + [Empty] == [Empty];
    Then(s0, actions, s2, Continue(0), s);
    actions := actions + [Continue(0)];
  }

  lemma SecondCallerDials() returns (actions: seq<Action>, s: State)
    ensures Run(Start(1, false), actions) == Some(s)
    ensures s == ONE.(idle := [], threads := [Discarding(Empty), Using(0), Resting], next := 1, failed := 1)
  {
    var s0 := Start(1, false);
    var s1: State;
    actions, s1 := FirstNilArrives();
    var s2 := s1.(idle := [], threads := [Discarding(Empty), Dialing, Resting]);
    assert s1.threads[1 := Dialing] == s2.threads && s1.idle[1..] == [];
    Then(s0, actions, s1, Take(1), s2);
    actions := actions + [Take(1)];
    s := s2.(threads := [Discarding(Empty), Using(0), Resting], next := 1);
    assert s2.threads[1 := Using(0)] == s.threads;
    Then(s0, actions, s2, DialOk(1), s);
    actions := actions + [DialOk(1)];
  }

  /** The first caller's discard puts a second nil into the channel. */
  lemma SecondNilArrives() returns (actions: seq<Action>, s: State)
    ensures Run(Start(1, false), actions) == Some(s)
    ensures s == ONE.(threads := [Closing(Empty), Using(0), Resting], next := 1, failed := 1)
  {
    var s0 := Start(1, false);
    var s1: State;
    actions, s1 := SecondCallerDials();
    var s2 := s1.(threads := [Replacing(Empty), Using(0), Resting]);
    assert s1.threads[0 := Replacing(Empty)] == s2.threads;
    Then(s0, actions, s1, Continue(0), s2);
    actions := actions + [Continue(0)];
    s := s2.(threads := [Closing(Empty), Using(0), Resting], idle := [Empty]);
    assert s2.threads[0 := Closing(Empty)] == s.threads && s2.idle + [Empty] == [Empty];
    Then(s0, actions, s2, Continue(0), s);
    actions := actions + [Continue(0)];
  }

  /** After one failed dial a pool of one can have two connections in use. */
  lemma FailedDialsOverfillThePool() returns (actions: seq<Action>, s: State)
    ensures Run(Start(1, false), actions) == Some(s) && s.max == 1 && s.failed == 1
    ensures s.threads == [Closing(Empty), Using(0), Using(1)]
  {
    var s12: State;
    actions, s12 := SecondNilArrives();
    var s13 := s12.(idle := [], threads := [Closing(Empty), Using(0), Dialing]);
    assert s12.threads[2 := Dialing] == s13.threads && s12.idle[1..] == [];
    Then(Start(1, false), actions, s12, Take(2), s13);
    actions := actions + [Take(2)];
    s := s13.(threads := [Closing(Empty), Using(0), Using(1)], next := 2);
    assert s13.threads[2 := Using(1)] == s.threads;
    Then(Start(1, false), actions, s13, DialOk(2), s);
    actions := actions + [DialOk(2)];
  }

  /** And a connection released to the then full channel is lost without being closed. */
  lemma FailedDialsLoseConnections() returns (actions: seq<Action>, s: State)
    ensures Run(Start(1, false), actions) == Some(s) && s.dropped == {0} && s.closed == {} && s.failed == 1
  {
    var s12: State;
    actions, s12 := SecondNilArrives();
    var s13 := s12.(threads := [Closing(Empty), Releasing(Conn(0)), Resting]);
    assert s12.threads[1 := Releasing(Conn(0))] == s13.threads;
    Then(Start(1, false), actions, s12, HandleOk(1), s13);
    actions := actions + [HandleOk(1)];
    s := s13.(threads := [Closing(Empty), Resting, Resting], skipped := 1, dropped := {0});
    assert s13.threads[1 := Resting] == s.threads && {} + Ids(Conn(0)) == {0};
    Then(Start(1, false), actions, s13, Continue(1), s);
    actions := actions + [Continue(1)];
  }

  /** The caller is about to send into the channel. */
  predicate AtSend(p: Phase) {
    p.ReturningNil? || p.Sending? || p.Replacing?
  }

  /** A send waits exactly at a full channel, and then more dials have failed than sends were skipped. */
  lemma SendsWaitIff(max: nat, udp: bool, actions: seq<Action>, t: nat)
    requires Run(Start(max, udp), actions).Some?
    requires t < |Run(Start(max, udp), actions).value.threads| && AtSend(Run(Start(max, udp), actions).value.threads[t])
    ensures var s := Run(Start(max, udp), actions).value;
            && (Step(s, Continue(t)).None? <==> |s.idle| == max)
            && (|s.idle| == max ==> s.failed > s.skipped)
  {
    var s := Run(Start(max, udp), actions).value;
    RunKeepsBalance(max, udp, actions);
    SumAtLeast(Token, s.threads, t);
  }

  /** After one failed dial a release can wait at a full channel, its caller's answer with it. */
  lemma ReleaseCanWait() returns (actions: seq<Action>, s: State)
    ensures Run(Start(1, false), actions) == Some(s)
    ensures s.threads == [Closing(Empty), Sending(Conn(0)), Resting] && s.failed == 1 && Step(s, Continue(1)).None?
  {
    var s0 := Start(1, false);
    var s1: State;
    actions, s1 := SecondCallerDials();
    var s2 := s1.(threads := [Discarding(Empty), Releasing(Conn(0)), Resting]);
    assert s1.threads[1 := Releasing(Conn(0))] == s2.threads;
    Then(s0, actions, s1, HandleOk(1), s2);
    actions := actions + [HandleOk(1)];
    var s3 := s2.(threads := [Discarding(Empty), Sending(Conn(0)), Resting]);
    assert s2.threads[1 := Sending(Conn(0))] == s3.threads;
    Then(s0, actions, s2, Continue(1), s3);
    actions := actions + [Continue(1)];
    var s4 := s3.(threads := [Replacing(Empty), Sending(Conn(0)), Resting]);
    assert s3.threads[0 := Replacing(Empty)] == s4.threads;
    Then(s0, actions, s3, Continue(0), s4);
    actions := actions + [Continue(0)];
    s := s4.(threads := [Closing(Empty), Sending(Conn(0)), Resting], idle := [Empty]);
    assert s4.threads[0 := Closing(Empty)] == s.threads && s4.idle + [Empty] == [Empty];
    Then(s0, actions, s4, Continue(0), s);
    actions := actions + [Continue(0)];
  }
}
