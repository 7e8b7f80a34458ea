/** The router of a load-balanced source (resolver/loadbalancing_source.go): a single goroutine hands
    out sources in turn, whoever asks. */
module Balancer {
  import opened Resolution

  /** The picks so far are those of a router over `n` sources that started at the first one. */
  ghost predicate InTurn(picks: seq<nat>, n: nat) {
    && n > 0
    && (forall i :: 0 <= i < |picks| ==> picks[i] < n)
    && (|picks| > 0 ==> picks[0] == 0)
    && (forall i :: 0 <= i < |picks| - 1 ==> picks[i + 1] == RoundRobin(picks[i], n))
  }

  function Count(picks: seq<nat>, source: nat): (r: nat) {
    if picks == [] then 0
    else Count(picks[..|picks| - 1], source) + if picks[|picks| - 1] == source then 1 else 0
  }

  function NextPick(picks: seq<nat>, n: nat): (r: nat)
    requires n > 0 && (|picks| > 0 ==> picks[|picks| - 1] < n)
  {
    if picks == [] then 0 else RoundRobin(picks[|picks| - 1], n)
  }

  /** Sources before the next pick are one ahead of the others, and those are level. */
  lemma {:induction false} CountsAreLevel(picks: seq<nat>, n: nat) returns (rounds: nat)
    requires InTurn(picks, n)
    ensures forall s :: 0 <= s < n ==> Count(picks, s) == rounds + if s < NextPick(picks, n) then 1 else 0
    decreases |picks|
  {
    if picks == [] {
      rounds := 0;
    } else {
      var init := picks[..|picks| - 1];
      rounds := CountsAreLevel(init, n);
      assert picks[|picks| - 1] == NextPick(init, n);
      if NextPick(picks, n) == 0 {
        rounds := rounds + 1;
      }
    }
  }

  /** After any number of picks, by any number of callers, no source is more than one pick ahead. */
  lemma PicksAreFair(picks: seq<nat>, n: nat, a: nat, b: nat)
    requires InTurn(picks, n) && a < n && b < n
    ensures -1 <= Count(picks, a) - Count(picks, b) <= 1
  {
    var rounds := CountsAreLevel(picks, n);
  }

  /** `d` picks later the router is `d` places further, wrapping once. */
  lemma {:induction false} PicksAdvance(picks: seq<nat>, n: nat, from: nat, d: nat)
    requires InTurn(picks, n) && from + d < |picks| && d <= n
    ensures picks[from + d] == if picks[from] + d < n then picks[from] + d else picks[from] + d - n
    decreases d
  {
    if d > 0 {
      PicksAdvance(picks, n, from, d - 1);
      assert picks[from + d] == RoundRobin(picks[from + d - 1], n);
    }
  }

  /** Every window of `n` consecutive picks contains every source. */
  lemma WindowsCoverAllSources(picks: seq<nat>, n: nat, from: nat, source: nat)
    requires InTurn(picks, n) && from + n <= |picks| && source < n
    ensures source in picks[from..from + n]
  {
    var d := if picks[from] <= source then source - picks[from] else source + n - picks[from];
    PicksAdvance(picks, n, from, d);
    assert picks[from..from + n][d] == source;
  }

  lemma PickContinues(picks: seq<nat>, n: nat)
    requires InTurn(picks, n)
    ensures var more := picks + [NextPick(picks, n)];
            InTurn(more, n) && NextPick(more, n) == RoundRobin(NextPick(picks, n), n)
  {
    var more := picks + [NextPick(picks, n)];
    forall i | 0 <= i < |more| - 1 ensures more[i + 1] == RoundRobin(more[i], n) {
      if i < |picks| - 1 { assert picks[i + 1] == RoundRobin(picks[i], n); }
    }
  }

  /** i % n, for an index that has just been advanced. */
  function Wrapped(i: nat, n: nat): (r: nat)
    requires 0 < i <= n
    ensures r == RoundRobin(i - 1, n)
  {
    if i < n then (assert i % n == i; i % n) else i % n
  }

  class Router {
    const n: nat
    var idx: nat
    ghost var picks: seq<nat>

    ghost predicate Valid()
      reads this
    {
      n > 0 && InTurn(picks, n) && idx == NextPick(picks, n)
    }

    constructor (n: nat)
      requires n > 0
      ensures Valid() && this.n == n && picks == []
    {
      this.n := n;
      idx := 0;
      picks := [];
    }

    /** One exchange over askChan and chosenChan. */
    method Pick() returns (source: nat)
      requires Valid()
      modifies this
      ensures Valid() && source == old(idx) < n && picks == old(picks) + [source]
    {
      source := idx;
      PickContinues(picks, n);
      picks := picks + [idx];
      idx := Wrapped(idx + 1, n);
    }

    /** lbSource.Answer for a caller that has the router to itself; `answers(source, k)` says whether the
        k-th pick ever made brings an answer from its source. */
    method Answer(answers: (nat, nat) -> bool, asked: nat) returns (found: bool)
      requires Valid() && asked == |picks|
      modifies this
      ensures Valid() && old(picks) <= picks
      ensures found ==> |picks| > asked && answers(picks[|picks| - 1], |picks| - 1)
      ensures !found ==> forall source :: 0 <= source < n ==> source in picks[asked..]
      ensures forall k :: asked <= k < |picks| - 1 ==> !answers(picks[k], k)
    {
      var tries := n;
      var made := asked;
      while tries >= 0
        invariant -1 <= tries <= n && Valid() && old(picks) <= picks
        invariant made == |picks| == asked + n - tries
        invariant forall k :: asked <= k < |picks| ==> !answers(picks[k], k)
      {
        var source := Pick();
        if answers(source, made) {
          return true;
        }
        made := made + 1;
        tries := tries - 1;
      }
      forall source | 0 <= source < n ensures source in picks[asked..] {
        WindowsCoverAllSources(picks, n, asked, source);
        var k :| 0 <= k < n && picks[asked..asked + n][k] == source;
        assert picks[asked..][k] == source;
      }
      return false;
    }
  }
}
