/** The case-insensitive order of the memory store: sorting a rule table and searching it by
    bisection (rule/store_memory.go). */
module Ordering {
  import opened Text

  /** Lexicographic order on characters. */
  predicate LexLeq(a: string, b: string) {
    if a == "" then true
    else if b == "" then false
    else if a[0] != b[0] then a[0] < b[0]
    else LexLeq(a[1..], b[1..])
  }

  /** sortfold.CompareFold(a, b) <= 0 */
  predicate FoldLeq(a: string, b: string) {
    LexLeq(Lower(a), Lower(b))
  }

  lemma {:induction false} LexTotal(a: string, b: string)
    ensures LexLeq(a, b) || LexLeq(b, a)
    ensures LexLeq(a, b) && LexLeq(b, a) ==> a == b
    decreases |a|
  {
    if a != "" && b != "" && a[0] == b[0] {
      LexTotal(a[1..], b[1..]);
      assert a == [a[0]] + a[1..] && b == [b[0]] + b[1..];
    }
  }

  lemma {:induction false} LexTransitive(a: string, b: string, c: string)
    requires LexLeq(a, b) && LexLeq(b, c)
    ensures LexLeq(a, c)
    decreases |a|
  {
    if a != "" && a[0] == b[0] && b[0] == c[0] {
      LexTransitive(a[1..], b[1..], c[1..]);
    }
  }

  ghost predicate Sorted(rules: seq<string>) {
    forall i, j :: 0 <= i < j < |rules| ==> FoldLeq(rules[i], rules[j])
  }

  function Inserted(rules: seq<string>, rule: string): (r: seq<string>)
    ensures multiset(r) == multiset(rules) + multiset{rule}
  {
    if rules == [] then [rule]
    else if FoldLeq(rule, rules[0]) then [rule] + rules
    else
      assert rules == [rules[0]] + rules[1..];
      [rules[0]] + Inserted(rules[1..], rule)
  }

  /** sort.Slice with the case-insensitive order. */
  function SortRules(rules: seq<string>): (r: seq<string>)
    ensures multiset(r) == multiset(rules)
  {
    if rules == [] then []
    else
      assert rules == [rules[0]] + rules[1..];
      Inserted(SortRules(rules[1..]), rules[0])
  }

  lemma ConsSorted(first: string, rest: seq<string>)
    requires Sorted(rest) && forall j :: 0 <= j < |rest| ==> FoldLeq(first, rest[j])
    ensures Sorted([first] + rest)
  {
    forall i, j | 0 <= i < j < |rest| + 1 ensures FoldLeq(([first] + rest)[i], ([first] + rest)[j]) {
      if i > 0 { assert FoldLeq(rest[i - 1], rest[j - 1]); }
    }
  }

  lemma InsertedBelow(rules: seq<string>, rule: string, first: string)
    requires FoldLeq(first, rule) && forall j :: 0 <= j < |rules| ==> FoldLeq(first, rules[j])
    ensures forall j :: 0 <= j < |Inserted(rules, rule)| ==> FoldLeq(first, Inserted(rules, rule)[j])
  {
    var r := Inserted(rules, rule);
    forall j | 0 <= j < |r| ensures FoldLeq(first, r[j]) {
      assert r[j] in multiset(r);
      if r[j] != rule { assert r[j] in multiset(rules); }
    }
  }

  lemma {:induction false} InsertedSorted(rules: seq<string>, rule: string)
    requires Sorted(rules)
    ensures Sorted(Inserted(rules, rule))
    decreases |rules|
  {
    if rules != [] {
      var first := rules[0];
      if FoldLeq(rule, first) {
        forall j | 0 <= j < |rules| ensures FoldLeq(rule, rules[j]) {
          if j > 0 { LexTransitive(Lower(rule), Lower(first), Lower(rules[j])); }
        }
        ConsSorted(rule, rules);
      } else {
        LexTotal(Lower(rule), Lower(first));
        TailStaysSorted(rules);
        InsertedSorted(rules[1..], rule);
        assert forall j :: 0 <= j < |rules[1..]| ==> rules[1..][j] == rules[j + 1];
        InsertedBelow(rules[1..], rule, first);
        ConsSorted(first, Inserted(rules[1..], rule));
      }
    }
  }

  lemma {:induction false} SortRulesSorted(rules: seq<string>)
    ensures Sorted(SortRules(rules))
    decreases |rules|
  {
    if rules != [] {
      SortRulesSorted(rules[1..]);
      InsertedSorted(SortRules(rules[1..]), rules[0]);
    }
  }

  lemma SameFirst(a: seq<string>, b: seq<string>)
    requires Sorted(a) && Sorted(b) && a != [] && b != [] && b[0] in a && a[0] in b
    requires IsLower(a[0]) && IsLower(b[0])
    ensures a[0] == b[0]
  {
    FirstIsLeast(a, b[0]);
    FirstIsLeast(b, a[0]);
    LexTotal(Lower(a[0]), Lower(b[0]));
  }

  lemma SameMultisetSameElements(a: seq<string>, b: seq<string>)
    requires multiset(a) == multiset(b)
    ensures |a| == |b| && forall x :: x in a ==> x in b
  {
    assert |multiset(a)| == |a| && |multiset(b)| == |b|;
    forall x | x in a ensures x in b { assert x in multiset(a); }
  }

  ghost predicate AllLower(rules: seq<string>) {
    forall i :: 0 <= i < |rules| ==> IsLower(rules[i])
  }

  lemma TailMultiset(a: seq<string>)
    requires a != []
    ensures multiset(a[1..]) == multiset(a) - multiset{a[0]}
  {
    assert a == [a[0]] + a[1..];
  }

  lemma TailStaysSorted(a: seq<string>)
    requires a != [] && Sorted(a)
    ensures Sorted(a[1..])
  {
    forall i, j | 0 <= i < j < |a[1..]| ensures FoldLeq(a[1..][i], a[1..][j]) {
      assert FoldLeq(a[i + 1], a[j + 1]);
    }
  }

  /** On lower-case rules a sorted arrangement is unique, so it does not matter how the library sorts. */
  lemma {:induction false} SortedIsUnique(a: seq<string>, b: seq<string>)
    requires Sorted(a) && Sorted(b) && multiset(a) == multiset(b) && AllLower(a)
    ensures a == b
    decreases |a|
  {
    SameMultisetSameElements(a, b);
    SameMultisetSameElements(b, a);
    if a != [] {
      assert b[0] in a;
      SameFirst(a, b);
      TailStaysSorted(a);
      TailStaysSorted(b);
      TailMultiset(a);
      TailMultiset(b);
      SortedIsUnique(a[1..], b[1..]);
      assert a == [a[0]] + a[1..] && b == [b[0]] + b[1..];
    }
  }

  lemma FirstIsLeast(rules: seq<string>, rule: string)
    requires Sorted(rules) && rule in rules
    ensures FoldLeq(rules[0], rule)
  {
    LexTotal(Lower(rule), Lower(rule));
  }

  /** sort.Search over rules[lo..hi] for the first rule not below `name`, on any table, sorted or not. */
  function Bisect(rules: seq<string>, name: string, lo: nat, hi: nat): (r: nat)
    requires lo <= hi <= |rules|
    ensures lo <= r <= hi
    decreases hi - lo
  {
    if lo == hi then lo
    else
      var mid := (lo + hi) / 2;
      if !FoldLeq(name, rules[mid]) then Bisect(rules, name, mid + 1, hi) else Bisect(rules, name, lo, mid)
  }

  /** foundInList: the rule found for a name, if any. */
  function Found(rules: seq<string>, name: string): (r: Option<string>) {
    var idx := Bisect(rules, name, 0, |rules|);
    if idx < |rules| && Lower(rules[idx]) == Lower(name) then Some(rules[idx]) else None
  }

  method FoundInList(rules: seq<string>, name: string) returns (found: bool, rule: string)
    ensures Found(rules, name) == if found then Some(rule) else None
  {
    var i, j := 0, |rules|;
    while i < j
      invariant 0 <= i <= j <= |rules|
      invariant Bisect(rules, name, i, j) == Bisect(rules, name, 0, |rules|)
    {
      var h := (i + j) / 2;
      if !FoldLeq(name, rules[h]) {
        i := h + 1;
      } else {
        j := h;
      }
    }
    if i < |rules| && Lower(rules[i]) == Lower(name) {
      return true, rules[i];
    }
    return false, "";
  }

  /** Whatever the order of the table, a hit is a rule of the table that equals the name up to case. */
  lemma FoundIsSound(rules: seq<string>, name: string)
    ensures Found(rules, name).Some? ==> Found(rules, name).value in rules && Lower(Found(rules, name).value) == Lower(name)
  {
  }

  lemma SortedPair(rules: seq<string>, i: nat, j: nat)
    requires Sorted(rules) && i <= j < |rules|
    ensures FoldLeq(rules[i], rules[j])
  {
    LexTotal(Lower(rules[i]), Lower(rules[j]));
  }

  lemma BelowIsLeft(rules: seq<string>, name: string, mid: nat, k: nat)
    requires Sorted(rules) && mid < |rules| && k < |rules| && Lower(rules[k]) == Lower(name) && !FoldLeq(name, rules[mid])
    ensures mid < k
  {
    if k <= mid { SortedPair(rules, k, mid); }
  }

  lemma BetweenIsEqual(rules: seq<string>, name: string, mid: nat, k: nat)
    requires Sorted(rules) && mid < k < |rules| && Lower(rules[k]) == Lower(name) && FoldLeq(name, rules[mid])
    ensures Lower(rules[mid]) == Lower(name)
  {
    SortedPair(rules, mid, k);
    LexTotal(Lower(name), Lower(rules[mid]));
  }

  lemma {:induction false} BisectFinds(rules: seq<string>, name: string, lo: nat, hi: nat, k: nat)
    requires lo <= k <= hi <= |rules| && k < |rules|
    requires Sorted(rules) && Lower(rules[k]) == Lower(name)
    ensures Bisect(rules, name, lo, hi) <= k && Lower(rules[Bisect(rules, name, lo, hi)]) == Lower(name)
    decreases hi - lo
  {
    if lo < hi {
      var mid := (lo + hi) / 2;
      if !FoldLeq(name, rules[mid]) {
        BelowIsLeft(rules, name, mid, k);
        BisectFinds(rules, name, mid + 1, hi, k);
      } else if k <= mid {
        BisectFinds(rules, name, lo, mid, k);
      } else {
        BetweenIsEqual(rules, name, mid, k);
        BisectFinds(rules, name, lo, mid, mid);
      }
    }
  }

  /** On a sorted table of lower-case rules the search is exact. */
  lemma FoundIsExact(rules: seq<string>, name: string)
    requires Sorted(rules) && forall i :: 0 <= i < |rules| ==> IsLower(rules[i])
    ensures Found(rules, name) == if Lower(name) in rules then Some(Lower(name)) else None
  {
    if Lower(name) in rules {
      var k :| 0 <= k < |rules| && rules[k] == Lower(name);
      LowerTwice(name);
      BisectFinds(rules, name, 0, |rules|, k);
    }
  }
}
