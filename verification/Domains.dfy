/** Label suffixes of a domain name (util/domains.go) and the domain test of a resolver
    (resolver/resolver.go). */
module Domains {
  import opened Text

  /** What follows the first dot. */
  function AfterDot(domain: string): (r: string)
    requires '.' in domain
  {
    domain[IndexOf(domain, '.') + 1..]
  }

  function SubDomain(domain: string): (r: string)
    ensures |r| <= |domain|
    ensures |r| == |domain| ==> r == domain
  {
    if '.' in domain && !EndsInDot(domain) then Trim(AfterDot(domain)) else Trim(domain)
  }

  /** The loop of DomainList: what it still appends when the last appended name is `last`. */
  function Walk(domain: string, last: Option<string>): (r: seq<string>)
    decreases |domain|, if last == Some(domain) then 0 else 1
  {
    if |domain| <= 1 || last == Some(domain) || (last.Some? && '.' !in domain) then []
    else [domain] + Walk(SubDomain(domain), Some(domain))
  }

  function DomainNames(domain: string): (r: seq<string>) {
    Walk(Trim(domain), None)
  }

  lemma WalkStep(domains: seq<string>, rest: string, last: Option<string>)
    requires |rest| > 1 && last != Some(rest) && (last.Some? ==> '.' in rest)
    ensures domains + Walk(rest, last) == (domains + [rest]) + Walk(SubDomain(rest), Some(rest))
  {
    assert domains + ([rest] + Walk(SubDomain(rest), Some(rest))) == (domains + [rest]) + Walk(SubDomain(rest), Some(rest));
  }

  lemma WalkEnds(domains: seq<string>, rest: string, last: Option<string>)
    requires |rest| <= 1 || last == Some(rest) || (last.Some? && '.' !in rest)
    ensures domains + Walk(rest, last) == domains
  {
  }

  method DomainList(domain: string) returns (domains: seq<string>)
    ensures domains == DomainNames(domain)
  {
    var rest := Trim(domain);
    domains := [];
    if rest == "" {
      return;
    }
    ghost var last: Option<string> := None;
    while |rest| > 1 && "." != rest && (|domains| < 1 || rest != domains[|domains| - 1])
      invariant last == if |domains| < 1 then None else Some(domains[|domains| - 1])
      invariant domains + Walk(rest, last) == DomainNames(domain)
      decreases |rest|, if last == Some(rest) then 0 else 1
    {
      if |domains| > 0 && '.' !in rest {
        break;
      }
      WalkStep(domains, rest, last);
      domains := domains + [rest];
      last := Some(rest);
      rest := SubDomain(rest);
    }
    WalkEnds(domains, rest, last);
  }

  /** `rule` covers `domain`: the names are equal, or `domain` is below `rule`. */
  predicate AtOrBelow(domain: string, rule: string) {
    domain == rule || EndsWith(domain, "." + rule)
  }

  predicate Plain(domain: string) {
    |domain| > 1 && domain[|domain| - 1] != '.' && NoSpace(domain)
  }

  /** A plain name lists itself and then exactly its proper label suffixes that keep a dot. */
  lemma {:induction false} WalkIsSuffixes(domain: string, last: Option<string>, s: string)
    requires Plain(domain) && last != Some(domain)
    requires last.Some? ==> '.' in domain
    ensures s in Walk(domain, last) <==> s == domain || (EndsWith(domain, "." + s) && '.' in s)
    decreases |domain|
  {
    if '.' !in domain {
      WalkUndotted(domain);
      NoDotNoSuffix(domain, s);
    } else {
      var sub := AfterDot(domain);
      WalkDotted(domain, last);
      FirstDotSplits(domain, s);
      if '.' !in sub {
        assert Walk(sub, Some(domain)) == [];
        NoDotNoSuffix(sub, s);
      } else {
        WalkIsSuffixes(sub, Some(domain), s);
      }
    }
  }

  lemma WalkUndotted(domain: string)
    requires Plain(domain) && '.' !in domain
    ensures Walk(domain, None) == [domain]
  {
    TrimNothing(domain);
    assert SubDomain(domain) == domain;
  }

  lemma WalkDotted(domain: string, last: Option<string>)
    requires Plain(domain) && '.' in domain && last != Some(domain)
    ensures var sub := AfterDot(domain);
            && Walk(domain, last) == [domain] + Walk(sub, Some(domain)) && |sub| < |domain|
            && ('.' in sub ==> Plain(sub))
  {
    var i := IndexOf(domain, '.');
    assert forall k :: 0 <= k < |domain| - i - 1 ==> AfterDot(domain)[k] == domain[i + 1 + k];
    TrimNothing(AfterDot(domain));
  }

  lemma NoDotNoSuffix(domain: string, s: string)
    requires '.' !in domain
    ensures !EndsWith(domain, "." + s)
  {
    assert |s| < |domain| ==> domain[|domain| - |s| - 1..][0] != ("." + s)[0];
  }

  lemma SuffixOfTail(domain: string, i: nat, t: string)
    requires i <= |domain|
    ensures EndsWith(domain[i..], t) ==> EndsWith(domain, t)
    ensures EndsWith(domain, t) && |t| <= |domain| - i ==> EndsWith(domain[i..], t)
  {
    if |t| <= |domain| - i { assert domain[i..][|domain| - i - |t|..] == domain[|domain| - |t|..]; }
  }

  lemma LongSuffixStartsAtDot(domain: string, i: nat, s: string)
    requires i < |domain| && domain[i] == '.' && '.' !in domain[..i]
    requires EndsWith(domain, "." + s) && |s| + 1 > |domain| - i - 1
    ensures s == domain[i + 1..]
  {
    var k := |domain| - |s| - 1;
    assert domain[k..] == "." + s;
    assert domain[k] == domain[k..][0] == '.';
    assert forall j :: 0 <= j < i ==> domain[j] == domain[..i][j];
    assert domain[k..][1..] == s;
  }

  /** Below `domain` means: right after its first dot, or below what follows that dot. */
  lemma FirstDotSplits(domain: string, s: string)
    requires '.' in domain
    ensures EndsWith(domain, "." + s) <==> s == AfterDot(domain) || EndsWith(AfterDot(domain), "." + s)
  {
    var i := IndexOf(domain, '.');
    SuffixOfTail(domain, i + 1, "." + s);
    if EndsWith(domain, "." + s) && |s| + 1 > |domain| - i - 1 { LongSuffixStartsAtDot(domain, i, s); }
    assert domain[i..] == "." + domain[i + 1..];
  }

  lemma {:induction false} WalkShortens(domain: string, last: Option<string>)
    ensures forall i :: 0 <= i < |Walk(domain, last)| ==> 1 < |Walk(domain, last)[i]| <= |domain|
    ensures forall i, j :: 0 <= i < j < |Walk(domain, last)| ==> |Walk(domain, last)[j]| < |Walk(domain, last)[i]|
    decreases |domain|, if last == Some(domain) then 0 else 1
  {
    if |domain| <= 1 || last == Some(domain) || (last.Some? && '.' !in domain) {
    } else {
      var sub := SubDomain(domain);
      WalkShortens(sub, Some(domain));
      if |sub| == |domain| {
        assert Walk(sub, Some(domain)) == [];
      }
    }
  }

  /** DomainList, for a white-space-free name with no trailing dot: which names, and in which order. */
  lemma DomainNamesAreLabelSuffixes(domain: string, s: string)
    requires Plain(domain)
    ensures s in DomainNames(domain) <==> s == domain || (EndsWith(domain, "." + s) && '.' in s)
    ensures forall i, j :: 0 <= i < j < |DomainNames(domain)| ==> |DomainNames(domain)[j]| < |DomainNames(domain)[i]|
    ensures |DomainNames(domain)| > 0 && DomainNames(domain)[0] == domain
  {
    TrimNothing(domain);
    WalkIsSuffixes(domain, None, s);
    WalkShortens(domain, None);
  }

  lemma DotLower(s: string)
    ensures '.' in Lower(s) <==> '.' in s
    ensures EndsInDot(Lower(s)) <==> EndsInDot(s)
  {
    if '.' in s { assert Lower(s)[IndexOf(s, '.')] == '.'; }
  }

  lemma IndexOfLower(s: string)
    requires '.' in s
    ensures '.' in Lower(s) && IndexOf(Lower(s), '.') == IndexOf(s, '.')
  {
    DotLower(s);
    var i, k := IndexOf(s, '.'), IndexOf(Lower(s), '.');
    assert forall j :: 0 <= j < i ==> s[j] == s[..i][j];
    assert forall j :: 0 <= j < k ==> Lower(s)[j] == Lower(s)[..k][j];
  }

  lemma AfterDotLower(domain: string)
    requires '.' in domain
    ensures '.' in Lower(domain) && AfterDot(Lower(domain)) == Lower(AfterDot(domain))
  {
    IndexOfLower(domain);
  }

  lemma DottedSubDomainLower(domain: string)
    requires '.' in domain && !EndsInDot(domain)
    ensures SubDomain(Lower(domain)) == Lower(SubDomain(domain))
  {
    DotLower(domain);
    AfterDotLower(domain);
    var rest := AfterDot(domain);
    assert SubDomain(domain) == Trim(rest) && SubDomain(Lower(domain)) == Trim(Lower(rest));
    TrimLower(rest);
  }

  lemma SubDomainLower(domain: string)
    ensures SubDomain(Lower(domain)) == Lower(SubDomain(domain))
  {
    if '.' in domain && !EndsInDot(domain) {
      DottedSubDomainLower(domain);
    } else {
      DotLower(domain);
      TrimLower(domain);
    }
  }

  lemma LowerAllCons(name: string, names: seq<string>)
    ensures LowerAll([name] + names) == [Lower(name)] + LowerAll(names)
  {
  }

  lemma {:induction false} WalkLower(domain: string, last: Option<string>)
    requires last.Some? ==> domain == SubDomain(last.value)
    ensures Walk(Lower(domain), if last.Some? then Some(Lower(last.value)) else None) == LowerAll(Walk(domain, last))
    decreases |domain|, if last == Some(domain) then 0 else 1
  {
    var last' := if last.Some? then Some(Lower(last.value)) else None;
    DotLower(domain);
    assert last == Some(domain) <==> last' == Some(Lower(domain));
    if |domain| <= 1 || last == Some(domain) || (last.Some? && '.' !in domain) {
    } else {
      SubDomainLower(domain);
      WalkLower(SubDomain(domain), Some(domain));
      LowerAllCons(domain, Walk(SubDomain(domain), Some(domain)));
    }
  }

  /** Listing commutes with lower-casing, so a store may fold case before or after it. */
  lemma DomainNamesLower(domain: string)
    ensures DomainNames(Lower(domain)) == LowerAll(DomainNames(domain))
  {
    TrimLower(domain);
    WalkLower(Trim(domain), None);
  }

  // ---- the domain test of a resolver ----

  function DropDot(name: string): (r: string) {
    if EndsInDot(name) then name[..|name| - 1] else name
  }

  /** What domainMatches decides from entry `i` on: the first entry with a `*` ends the scan with
      the outcome of its glob, whatever follows it. */
  function ScanMatches(glob: (string, string) -> bool, name: string, entries: seq<string>): (r: bool) {
    if entries == [] then false
    else
      var entry := Lower(entries[0]);
      if '*' in entry then glob(entry, name)
      else if AtOrBelow(name, entry) then true
      else ScanMatches(glob, name, entries[1..])
  }

  function Matches(glob: (string, string) -> bool, name: string, entries: seq<string>): (r: bool) {
    |entries| > 0 ==> ScanMatches(glob, DropDot(name), entries)
  }

  method DomainMatches(glob: (string, string) -> bool, questionDomain: string, domainsToCheck: seq<string>)
    returns (matched: bool)
    ensures matched == Matches(glob, questionDomain, domainsToCheck)
  {
    if |domainsToCheck| > 0 {
      var name := questionDomain;
      if EndsInDot(name) {
        name := name[..|name| - 1];
      }
      var idx := 0;
      assert domainsToCheck[0..] == domainsToCheck;
      while idx < |domainsToCheck|
        invariant 0 <= idx <= |domainsToCheck|
        invariant ScanMatches(glob, name, domainsToCheck[idx..]) == ScanMatches(glob, name, domainsToCheck)
      {
        var domain := Lower(domainsToCheck[idx]);
        assert domainsToCheck[idx..][1..] == domainsToCheck[idx + 1..];
        if '*' in domain {
          return glob(domain, name);
        } else if domain == name || EndsWith(name, "." + domain) {
          return true;
        }
        idx := idx + 1;
      }
      return false;
    }
    return true;
  }

  /** Entries before the first wildcard match as plain "at or below" tests; the first wildcard then
      decides alone, so entries behind it are never looked at. */
  lemma {:induction false} MatchesByFirstWildcard(glob: (string, string) -> bool, name: string,
                                                  plain: seq<string>, rest: seq<string>)
    requires forall i :: 0 <= i < |plain| ==> '*' !in Lower(plain[i])
    requires rest == [] || '*' in Lower(rest[0])
    ensures ScanMatches(glob, name, plain + rest) <==>
            (exists i :: 0 <= i < |plain| && AtOrBelow(name, Lower(plain[i]))) ||
            (rest != [] && glob(Lower(rest[0]), name))
    decreases |plain|
  {
    if plain == [] {
      assert plain + rest == rest;
    } else {
      assert (plain + rest)[1..] == plain[1..] + rest;
      MatchesByFirstWildcard(glob, name, plain[1..], rest);
      assert forall i :: 0 <= i < |plain[1..]| ==> plain[1..][i] == plain[i + 1];
      if exists i :: 0 <= i < |plain| && AtOrBelow(name, Lower(plain[i])) {
        var i :| 0 <= i < |plain| && AtOrBelow(name, Lower(plain[i]));
        if i > 0 { assert AtOrBelow(name, Lower(plain[1..][i - 1])); }
      }
    }
  }

  /** A dotted lower-case rule is listed for a plain name exactly when a resolver configured with
      just that rule as its domain accepts the name. */
  lemma ListedIffMatched(glob: (string, string) -> bool, domain: string, rule: string)
    requires Plain(domain)
    requires '.' in rule && '*' !in rule && IsLower(rule)
    ensures rule in DomainNames(domain) <==> Matches(glob, domain, [rule])
    ensures rule in DomainNames(domain) <==> AtOrBelow(domain, rule)
  {
    DomainNamesAreLabelSuffixes(domain, rule);
    assert ScanMatches(glob, domain, [rule]) == AtOrBelow(domain, rule) by {
      assert [rule][1..] == [];
    }
  }

  // ---- which names the entries take ----

  /** Some entry takes the name: a plain one that it is at or below, or a wildcard one by its glob; entries
      behind the first wildcard do not count. */
  ghost predicate Taken(glob: (string, string) -> bool, name: string, entries: seq<string>) {
    exists i :: 0 <= i < |entries| && TakenBy(glob, name, entries, i)
  }

  ghost predicate TakenBy(glob: (string, string) -> bool, name: string, entries: seq<string>, i: nat)
    requires i < |entries|
  {
    && (forall j :: 0 <= j < i ==> '*' !in Lower(entries[j]))
    && if '*' in Lower(entries[i]) then glob(Lower(entries[i]), name)
       else name == Lower(entries[i]) || EndsWith(name, "." + Lower(entries[i]))
  }

  lemma TakenByTail(glob: (string, string) -> bool, name: string, entries: seq<string>, i: nat)
    requires 0 < i < |entries| && '*' !in Lower(entries[0])
    ensures TakenBy(glob, name, entries, i) <==> TakenBy(glob, name, entries[1..], i - 1)
  {
    assert forall j :: 0 <= j < |entries| - 1 ==> entries[1..][j] == entries[j + 1];
    if TakenBy(glob, name, entries[1..], i - 1) {
      forall j | 0 <= j < i ensures '*' !in Lower(entries[j]) {
        if j > 0 { assert entries[j] == entries[1..][j - 1]; }
      }
    }
  }

  lemma {:induction false} ScanIsTaken(glob: (string, string) -> bool, name: string, entries: seq<string>)
    ensures ScanMatches(glob, name, entries) <==> Taken(glob, name, entries)
    decreases |entries|
  {
    if entries != [] {
      var entry := Lower(entries[0]);
      ScanIsTaken(glob, name, entries[1..]);
      if '*' in entry {
        assert TakenBy(glob, name, entries, 0) <==> glob(entry, name);
      } else if AtOrBelow(name, entry) {
        assert TakenBy(glob, name, entries, 0);
      } else {
        forall i | 0 < i < |entries| ensures TakenBy(glob, name, entries, i) <==> TakenBy(glob, name, entries[1..], i - 1) {
          TakenByTail(glob, name, entries, i);
        }
        if Taken(glob, name, entries[1..]) {
          var k :| 0 <= k < |entries[1..]| && TakenBy(glob, name, entries[1..], k);
          assert TakenBy(glob, name, entries, k + 1);
        }
        if Taken(glob, name, entries) {
          var k :| 0 <= k < |entries| && TakenBy(glob, name, entries, k);
          assert k > 0 && TakenBy(glob, name, entries[1..], k - 1);
        }
      }
    }
  }

  /** A final dot makes no difference, and an empty list of entries takes every name. */
  lemma MatchesIff(glob: (string, string) -> bool, name: string, entries: seq<string>)
    requires !EndsInDot(name)
    ensures Matches(glob, name + ".", entries) <==> entries == [] || Taken(glob, name, entries)
    ensures Matches(glob, name, entries) <==> entries == [] || Taken(glob, name, entries)
  {
    assert (name + ".")[..|name|] == name;
    ScanIsTaken(glob, name, entries);
  }
}
