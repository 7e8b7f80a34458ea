/** The complex store in front of another store: every rule goes to one tier, complex rules decide
    before simple ones, and the backing store sees exactly the simple rules (rule/store_complex.go). */
module TierProofs {
  import opened Text
  import opened Domains
  import opened Rules
  import opened Stores
  import opened MemoryProofs

  // ---- routing ----

  /** What reaches the backing store. */
  function SimpleOps(ops: seq<Op>): (r: seq<Op>) {
    if ops == [] then []
    else
      var init, last := ops[..|ops| - 1], ops[|ops| - 1];
      if Simple(last) then SimpleOps(init) + [last] else SimpleOps(init)
  }

  /** The complex rules of a list in load order, since it was last cleared. */
  function MadeRules(lib: Lib, ops: seq<Op>, l: RuleList): (r: seq<ComplexRule>) {
    if ops == [] then []
    else
      var init, last := ops[..|ops| - 1], ops[|ops| - 1];
      match last
      case Load(l', rule) =>
        if l' == l && !Simple(last) && MakeComplex(lib, l, rule).Some?
        then MadeRules(lib, init, l) + [MakeComplex(lib, l, rule).value]
        else MadeRules(lib, init, l)
      case Clear(l') => if l' == l then [] else MadeRules(lib, init, l)
      case Finalize(_) => MadeRules(lib, init, l)
  }

  function Tiered(backing: Store): (r: Store) {
    Complex(map[], map[], Some(backing))
  }

  ghost predicate TierOk(lib: Lib, universe: set<RuleList>, s: Store, ops: seq<Op>) {
    && s.Complex? && Registered(universe, s.lists, Written(ops))
    && forall l :: l in universe ==> At(s.complex, l.canonical, []) == MadeRules(lib, ops, l)
  }

  lemma {:induction false} RunKeepsTiers(lib: Lib, universe: set<RuleList>, backing: Store, ops: seq<Op>)
    requires Distinct(universe) && Confined(universe, ops)
    ensures var s := ApplyAll(lib, Tiered(backing), ops);
            TierOk(lib, universe, s, ops) && s.backing == Some(ApplyAll(lib, backing, SimpleOps(ops)))
    decreases |ops|
  {
    if ops != [] {
      ConfinedInit(universe, ops);
      var init, last := ops[..|ops| - 1], ops[|ops| - 1];
      RunKeepsTiers(lib, universe, backing, init);
      var s := ApplyAll(lib, Tiered(backing), init);
      ListedKeepsRegistered(universe, s.lists, Written(init), last);
      if Simple(last) { ApplySnoc(lib, backing, SimpleOps(init), last); }
      forall l | l in universe ensures At(Apply(lib, s, last).complex, l.canonical, []) == MadeRules(lib, ops, l) {
        TierStep(lib, universe, s, ops, l);
      }
    }
  }

  lemma TierStep(lib: Lib, universe: set<RuleList>, s: Store, ops: seq<Op>, l: RuleList)
    requires Distinct(universe) && ops != [] && ConfinedOp(universe, ops[|ops| - 1]) && l in universe && s.Complex?
    requires At(s.complex, l.canonical, []) == MadeRules(lib, ops[..|ops| - 1], l)
    ensures At(Apply(lib, s, ops[|ops| - 1]).complex, l.canonical, []) == MadeRules(lib, ops, l)
  {
  }

  // ---- where every rule goes ----

  datatype Tier = SimpleTier | ComplexTier | DroppedTier

  predicate InSlashes(rule: string) {
    |rule| >= 1 && rule[0] == '/' && rule[|rule| - 1] == '/'
  }

  /** The text is to be read as a regular expression and does not compile. */
  predicate InvalidRegex(lib: Lib, l: RuleList, rule: string) {
    if l.regex then !lib.compiles(rule) else InSlashes(rule) && (|rule| < 2 || !lib.compiles(rule[1..|rule| - 1]))
  }

  function TierOf(lib: Lib, l: RuleList, rule: string): (r: Tier) {
    if InvalidRegex(lib, l, rule) then DroppedTier
    else if l.regex || '*' in rule || InSlashes(rule) then ComplexTier
    else SimpleTier
  }

  /** The rules of a tier, in order. */
  function Only(lib: Lib, l: RuleList, rules: seq<string>, tier: Tier): (r: seq<string>) {
    if rules == [] then []
    else
      var last := rules[|rules| - 1];
      Only(lib, l, rules[..|rules| - 1], tier) + if TierOf(lib, l, last) == tier then [last] else []
  }

  /** A rule of a regular expression list is one as it stands, one in slashes without them, and any other
      complex rule is a wildcard. */
  function Parsed(l: RuleList, rules: seq<string>): (r: seq<ComplexRule>) {
    if rules == [] then []
    else
      var last := rules[|rules| - 1];
      Parsed(l, rules[..|rules| - 1]) +
      [if l.regex then Regex(last) else if |last| > 1 && InSlashes(last) then Regex(last[1..|last| - 1]) else Wildcard(last)]
  }

  lemma OnlySnoc(lib: Lib, l: RuleList, rules: seq<string>, rule: string, tier: Tier)
    ensures TierOf(lib, l, rule) == tier ==> Only(lib, l, rules + [rule], tier) == Only(lib, l, rules, tier) + [rule]
    ensures TierOf(lib, l, rule) != tier ==> Only(lib, l, rules + [rule], tier) == Only(lib, l, rules, tier)
  {
    assert (rules + [rule])[..|rules|] == rules;
  }

  lemma TierOfIsRouting(lib: Lib, l: RuleList, rule: string)
    ensures Simple(Load(l, rule)) <==> TierOf(lib, l, rule) == SimpleTier
    ensures !Simple(Load(l, rule)) && MakeComplex(lib, l, rule).Some? <==> TierOf(lib, l, rule) == ComplexTier
  {
  }

  /** What an operation does to the rules of a list. */
  function Next(rules: seq<string>, op: Op, l: RuleList): (r: seq<string>) {
    match op
    case Load(l', rule) => if l' == l then rules + [rule] else rules
    case Clear(l') => if l' == l then [] else rules
    case Finalize(_) => rules
  }

  lemma WrittenNext(ops: seq<Op>, op: Op, l: RuleList)
    ensures RulesOf(Written(ops + [op]), l) == Next(RulesOf(Written(ops), l), op, l)
  {
    assert (ops + [op])[..|ops|] == ops;
  }

  lemma ParsedSnoc(lib: Lib, l: RuleList, rules: seq<string>, rule: string)
    requires TierOf(lib, l, rule) == ComplexTier
    ensures MakeComplex(lib, l, rule).Some?
    ensures Parsed(l, rules + [rule]) == Parsed(l, rules) + [MakeComplex(lib, l, rule).value]
  {
    assert (rules + [rule])[..|rules|] == rules;
  }

  /** A tier has exactly the rules that belong there, as often as they were loaded. */
  lemma {:induction false} OnlyCounts(lib: Lib, l: RuleList, rules: seq<string>, tier: Tier, rule: string)
    ensures multiset(Only(lib, l, rules, tier))[rule] == if TierOf(lib, l, rule) == tier then multiset(rules)[rule] else 0
    decreases |rules|
  {
    if rules != [] {
      var init, last := rules[..|rules| - 1], rules[|rules| - 1];
      OnlyCounts(lib, l, init, tier, rule);
      assert rules == init + [last];
      OnlySnoc(lib, l, init, last, tier);
    }
  }

  lemma TiersPartition(lib: Lib, l: RuleList, rules: seq<string>)
    ensures multiset(rules) == multiset(Only(lib, l, rules, SimpleTier)) + multiset(Only(lib, l, rules, ComplexTier))
                             + multiset(Only(lib, l, rules, DroppedTier))
  {
    forall rule
      ensures multiset(rules)[rule] == multiset(Only(lib, l, rules, SimpleTier))[rule] + multiset(Only(lib, l, rules, ComplexTier))[rule]
                                     + multiset(Only(lib, l, rules, DroppedTier))[rule]
    {
      OnlyCounts(lib, l, rules, SimpleTier, rule);
      OnlyCounts(lib, l, rules, ComplexTier, rule);
      OnlyCounts(lib, l, rules, DroppedTier, rule);
    }
  }

  lemma {:induction false} SimpleOpsAreSimpleRules(lib: Lib, ops: seq<Op>, l: RuleList)
    ensures RulesOf(Written(SimpleOps(ops)), l) == Only(lib, l, RulesOf(Written(ops), l), SimpleTier)
    decreases |ops|
  {
    if ops != [] {
      var init, last := ops[..|ops| - 1], ops[|ops| - 1];
      assert ops == init + [last];
      SimpleOpsAreSimpleRules(lib, init, l);
      WrittenNext(init, last, l);
      if Simple(last) { WrittenNext(SimpleOps(init), last, l); }
      SimpleStep(lib, RulesOf(Written(init), l), last, l);
    }
  }

  lemma SimpleStep(lib: Lib, rules: seq<string>, op: Op, l: RuleList)
    ensures var simple := Only(lib, l, rules, SimpleTier);
            Only(lib, l, Next(rules, op, l), SimpleTier) == if Simple(op) then Next(simple, op, l) else simple
  {
    if op.Load? && op.list == l {
      TierOfIsRouting(lib, l, op.rule);
      OnlySnoc(lib, l, rules, op.rule, SimpleTier);
    }
  }

  lemma {:induction false} MadeRulesAreComplexRules(lib: Lib, ops: seq<Op>, l: RuleList)
    ensures MadeRules(lib, ops, l) == Parsed(l, Only(lib, l, RulesOf(Written(ops), l), ComplexTier))
    decreases |ops|
  {
    if ops != [] {
      var init, last := ops[..|ops| - 1], ops[|ops| - 1];
      assert ops == init + [last];
      MadeRulesAreComplexRules(lib, init, l);
      WrittenNext(init, last, l);
      if last.Load? && last.list == l {
        var rules := RulesOf(Written(init), l);
        TierOfIsRouting(lib, l, last.rule);
        OnlySnoc(lib, l, rules, last.rule, ComplexTier);
        if TierOf(lib, l, last.rule) == ComplexTier { ParsedSnoc(lib, l, Only(lib, l, rules, ComplexTier), last.rule); }
      }
    }
  }

  /** Over every run every loaded rule is in exactly one place, in load order: simple rules in what the
      backing store is given, patterns in the complex tier, and only invalid regular expressions nowhere. */
  lemma RulesLandInTheirTier(lib: Lib, universe: set<RuleList>, backing: Store, ops: seq<Op>, l: RuleList)
    requires Distinct(universe) && Confined(universe, ops) && l in universe
    ensures var s, rules := ApplyAll(lib, Tiered(backing), ops), RulesOf(Written(ops), l);
            var simple, complex, dropped := Only(lib, l, rules, SimpleTier), Only(lib, l, rules, ComplexTier), Only(lib, l, rules, DroppedTier);
            && multiset(rules) == multiset(simple) + multiset(complex) + multiset(dropped)
            && s.Complex? && At(s.complex, l.canonical, []) == Parsed(l, complex)
            && s.backing == Some(ApplyAll(lib, backing, SimpleOps(ops))) && RulesOf(Written(SimpleOps(ops)), l) == simple
  {
    RunKeepsTiers(lib, universe, backing, ops);
    TiersPartition(lib, l, RulesOf(Written(ops), l));
    SimpleOpsAreSimpleRules(lib, ops, l);
    MadeRulesAreComplexRules(lib, ops, l);
  }

  // ---- verdicts ----

  predicate Catches(lib: Lib, rules: seq<ComplexRule>, domain: string) {
    exists j :: 0 <= j < |rules| && IsMatch(lib, rules[j], domain)
  }

  predicate FirstCatch(lib: Lib, rules: seq<ComplexRule>, domain: string, j: nat) {
    j < |rules| && IsMatch(lib, rules[j], domain) && forall k :: 0 <= k < j ==> !IsMatch(lib, rules[k], domain)
  }

  ghost predicate TierHits(lib: Lib, ops: seq<Op>, kind: ListType, query: seq<RuleList>, domain: string) {
    exists i :: 0 <= i < |query| && query[i].kind == kind && Catches(lib, MadeRules(lib, ops, query[i]), domain)
  }

  /** The verdict is the first catching list of the kind in query order, and its first catching rule. */
  ghost predicate Leads(lib: Lib, ops: seq<Op>, kind: ListType, query: seq<RuleList>, domain: string, v: Verdict, i: nat, j: nat) {
    && i < |query| && query[i].kind == kind
    && (forall k :: 0 <= k < i ==> !(query[k].kind == kind && Catches(lib, MadeRules(lib, ops, query[k]), domain)))
    && var rules := MadeRules(lib, ops, query[i]);
       FirstCatch(lib, rules, domain, j) && v == Verdict(MatchOf(kind), Some(query[i]), rules[j].text)
  }

  ghost predicate Led(lib: Lib, ops: seq<Op>, kind: ListType, query: seq<RuleList>, domain: string, v: Verdict) {
    exists i: nat, j: nat :: Leads(lib, ops, kind, query, domain, v, i, j)
  }

  lemma {:induction false} ScanIsFirst(lib: Lib, l: RuleList, rules: seq<ComplexRule>, domain: string)
    ensures var v := ScanComplex(lib, l, rules, domain);
            && (v.match_ == MatchNone <==> !Catches(lib, rules, domain)) && (v.match_ == MatchNone ==> v == NONE)
            && (Catches(lib, rules, domain) ==>
                 exists j: nat :: FirstCatch(lib, rules, domain, j) && v == Verdict(MatchOf(l.kind), Some(l), rules[j].text))
    decreases |rules|
  {
    if rules != [] {
      var rest := rules[1..];
      ScanIsFirst(lib, l, rest, domain);
      assert forall k :: 0 <= k < |rest| ==> rest[k] == rules[k + 1];
      if IsMatch(lib, rules[0], domain) {
        assert FirstCatch(lib, rules, domain, 0);
      } else if Catches(lib, rules, domain) {
        var j0 :| 0 <= j0 < |rules| && IsMatch(lib, rules[j0], domain);
        assert IsMatch(lib, rest[j0 - 1], domain);
        var j: nat :| FirstCatch(lib, rest, domain, j) && ScanComplex(lib, l, rest, domain) == Verdict(MatchOf(l.kind), Some(l), rest[j].text);
        forall k | 0 <= k < j + 1 ensures !IsMatch(lib, rules[k], domain) {
          if k > 0 { assert !IsMatch(lib, rest[k - 1], domain); }
        }
        assert FirstCatch(lib, rules, domain, j + 1);
      }
    }
  }

  lemma {:induction false} PassLeads(lib: Lib, universe: set<RuleList>, s: Store, ops: seq<Op>, kind: ListType, query: seq<RuleList>, domain: string)
    requires Distinct(universe) && TierOk(lib, universe, s, ops) && Within(universe, query)
    ensures var v := FirstMatch(s.lists, kind, query, (l: RuleList) => FindIn(lib, s, l, domain));
            && (v.match_ == MatchNone <==> !TierHits(lib, ops, kind, query, domain)) && (v.match_ == MatchNone ==> v == NONE)
            && (TierHits(lib, ops, kind, query, domain) ==> Led(lib, ops, kind, query, domain, v))
    decreases |query|
  {
    if query != [] {
      var q, rest := query[0], query[1..];
      HeldIsQueried(universe, s.lists, Written(ops), kind, q);
      OnlyLoadedListsCatch(lib, universe, s, ops, q, domain);
      if q.kind == kind && Catches(lib, MadeRules(lib, ops, q), domain) {
        HeadLeads(lib, ops, query, domain);
      } else {
        PassLeads(lib, universe, s, ops, kind, rest, domain);
        TailLeads(lib, ops, kind, query, domain, FirstMatch(s.lists, kind, rest, (l: RuleList) => FindIn(lib, s, l, domain)));
      }
    }
  }

  lemma {:induction false} OnlyWrittenListsHaveRules(lib: Lib, ops: seq<Op>, l: RuleList)
    requires MadeRules(lib, ops, l) != []
    ensures l in Written(ops)
    decreases |ops|
  {
    if ops != [] {
      var init := ops[..|ops| - 1];
      if MadeRules(lib, init, l) != [] { OnlyWrittenListsHaveRules(lib, init, l); }
    }
  }

  lemma OnlyLoadedListsCatch(lib: Lib, universe: set<RuleList>, s: Store, ops: seq<Op>, l: RuleList, domain: string)
    requires Distinct(universe) && TierOk(lib, universe, s, ops) && l in universe
    ensures Catches(lib, MadeRules(lib, ops, l), domain) ==> l in Written(ops)
    ensures FindIn(lib, s, l, domain) == ScanComplex(lib, l, MadeRules(lib, ops, l), domain)
    ensures FindIn(lib, s, l, domain).match_ != MatchNone <==> Catches(lib, MadeRules(lib, ops, l), domain)
  {
    ScanIsFirst(lib, l, MadeRules(lib, ops, l), domain);
    if MadeRules(lib, ops, l) != [] { OnlyWrittenListsHaveRules(lib, ops, l); }
  }

  lemma HeadLeads(lib: Lib, ops: seq<Op>, query: seq<RuleList>, domain: string)
    requires query != [] && Catches(lib, MadeRules(lib, ops, query[0]), domain)
    ensures var v := ScanComplex(lib, query[0], MadeRules(lib, ops, query[0]), domain);
            v.match_ != MatchNone && TierHits(lib, ops, query[0].kind, query, domain) && Led(lib, ops, query[0].kind, query, domain, v)
  {
    var q, rules := query[0], MadeRules(lib, ops, query[0]);
    ScanIsFirst(lib, q, rules, domain);
    var v := ScanComplex(lib, q, rules, domain);
    var j: nat :| FirstCatch(lib, rules, domain, j) && v == Verdict(MatchOf(q.kind), Some(q), rules[j].text);
    assert Leads(lib, ops, q.kind, query, domain, v, 0, j);
  }

  lemma TailLeads(lib: Lib, ops: seq<Op>, kind: ListType, query: seq<RuleList>, domain: string, v: Verdict)
    requires query != [] && !(query[0].kind == kind && Catches(lib, MadeRules(lib, ops, query[0]), domain))
    requires TierHits(lib, ops, kind, query[1..], domain) ==> Led(lib, ops, kind, query[1..], domain, v)
    ensures TierHits(lib, ops, kind, query, domain) <==> TierHits(lib, ops, kind, query[1..], domain)
    ensures TierHits(lib, ops, kind, query, domain) ==> Led(lib, ops, kind, query, domain, v)
  {
    var rest := query[1..];
    if TierHits(lib, ops, kind, query, domain) {
      var i :| 0 <= i < |query| && query[i].kind == kind && Catches(lib, MadeRules(lib, ops, query[i]), domain);
      assert rest[i - 1] == query[i];
    }
    if TierHits(lib, ops, kind, rest, domain) {
      var i: nat, j: nat :| Leads(lib, ops, kind, rest, domain, v, i, j);
      assert rest[i] == query[i + 1];
      forall k | 0 <= k < i + 1 ensures !(query[k].kind == kind && Catches(lib, MadeRules(lib, ops, query[k]), domain)) {
        if k > 0 { assert rest[k - 1] == query[k]; }
      }
      assert Catches(lib, MadeRules(lib, ops, query[i + 1]), domain);
      assert Leads(lib, ops, kind, query, domain, v, i + 1, j);
    }
  }

  lemma RulesLead(lib: Lib, universe: set<RuleList>, backing: Store, ops: seq<Op>, query: seq<RuleList>, domain: string)
    requires Distinct(universe) && Confined(universe, ops) && Within(universe, query)
    ensures var v := Find(lib, ApplyAll(lib, Tiered(backing), ops), query, domain);
            if TierHits(lib, ops, Allow, query, domain) then Led(lib, ops, Allow, query, domain, v)
            else if TierHits(lib, ops, Block, query, domain) then Led(lib, ops, Block, query, domain, v)
            else v == Find(lib, ApplyAll(lib, backing, SimpleOps(ops)), query, domain)
  {
    var s := ApplyAll(lib, Tiered(backing), ops);
    RunKeepsTiers(lib, universe, backing, ops);
    PassLeads(lib, universe, s, ops, Allow, query, domain);
    PassLeads(lib, universe, s, ops, Block, query, domain);
  }

  // ---- the same, on the loaded texts ----

  /** The texts of a list's complex rules, in load order, since it was last cleared. */
  function Patterns(lib: Lib, ops: seq<Op>, l: RuleList): (r: seq<string>) {
    Only(lib, l, RulesOf(Written(ops), l), ComplexTier)
  }

  /** In a list of regular expressions every text is one; elsewhere a text in slashes is one, without them,
      and any other is a glob. */
  predicate TextMatches(lib: Lib, l: RuleList, text: string, domain: string) {
    if l.regex then lib.regex(text, domain)
    else if InSlashes(text) then |text| >= 2 && lib.regex(text[1..|text| - 1], domain)
    else lib.glob(text, domain)
  }

  /** How a rule is reported. */
  function Shown(l: RuleList, text: string): (r: string) {
    if !l.regex && InSlashes(text) && |text| >= 2 then text[1..|text| - 1] else text
  }

  ghost predicate ListCatches(lib: Lib, ops: seq<Op>, l: RuleList, domain: string) {
    exists j :: 0 <= j < |Patterns(lib, ops, l)| && TextMatches(lib, l, Patterns(lib, ops, l)[j], domain)
  }

  ghost predicate SomeListCatches(lib: Lib, ops: seq<Op>, kind: ListType, query: seq<RuleList>, domain: string) {
    exists i :: 0 <= i < |query| && query[i].kind == kind && ListCatches(lib, ops, query[i], domain)
  }

  /** The verdict names the first list of the kind, in query order, that catches the domain, and that list's
      first text, in load order, that matches it. */
  ghost predicate Caught(lib: Lib, ops: seq<Op>, kind: ListType, query: seq<RuleList>, domain: string, v: Verdict, i: nat, j: nat) {
    && i < |query| && query[i].kind == kind
    && (forall k :: 0 <= k < i ==> !(query[k].kind == kind && ListCatches(lib, ops, query[k], domain)))
    && var l, texts := query[i], Patterns(lib, ops, query[i]);
       && j < |texts| && TextMatches(lib, l, texts[j], domain) && (forall k :: 0 <= k < j ==> !TextMatches(lib, l, texts[k], domain))
       && v == Verdict(if kind == Allow then MatchAllow else MatchBlock, Some(l), Shown(l, texts[j]))
  }

  ghost predicate CaughtBy(lib: Lib, ops: seq<Op>, kind: ListType, query: seq<RuleList>, domain: string, v: Verdict) {
    exists i: nat, j: nat :: Caught(lib, ops, kind, query, domain, v, i, j)
  }

  lemma {:induction false} OnlyOfTier(lib: Lib, l: RuleList, rules: seq<string>, tier: Tier, j: nat)
    requires j < |Only(lib, l, rules, tier)|
    ensures TierOf(lib, l, Only(lib, l, rules, tier)[j]) == tier
    decreases |rules|
  {
    if rules != [] && j < |Only(lib, l, rules[..|rules| - 1], tier)| { OnlyOfTier(lib, l, rules[..|rules| - 1], tier, j); }
  }

  lemma {:induction false} ParsedAt(lib: Lib, l: RuleList, texts: seq<string>, j: nat, domain: string)
    requires j < |texts| && TierOf(lib, l, texts[j]) == ComplexTier
    ensures |Parsed(l, texts)| == |texts|
    ensures IsMatch(lib, Parsed(l, texts)[j], domain) == TextMatches(lib, l, texts[j], domain)
    ensures Parsed(l, texts)[j].text == Shown(l, texts[j])
    decreases |texts|
  {
    ParsedLength(l, texts[..|texts| - 1]);
    if j < |texts| - 1 { ParsedAt(lib, l, texts[..|texts| - 1], j, domain); }
  }

  lemma {:induction false} ParsedLength(l: RuleList, texts: seq<string>)
    ensures |Parsed(l, texts)| == |texts|
    decreases |texts|
  {
    if texts != [] { ParsedLength(l, texts[..|texts| - 1]); }
  }

  /** Made rules and loaded texts correspond one to one. */
  lemma RulesAreTexts(lib: Lib, ops: seq<Op>, l: RuleList, domain: string)
    ensures var rules, texts := MadeRules(lib, ops, l), Patterns(lib, ops, l);
            && |rules| == |texts|
            && forall j :: 0 <= j < |texts| ==> IsMatch(lib, rules[j], domain) == TextMatches(lib, l, texts[j], domain) && rules[j].text == Shown(l, texts[j])
  {
    var texts := Patterns(lib, ops, l);
    MadeRulesAreComplexRules(lib, ops, l);
    ParsedLength(l, texts);
    forall j | 0 <= j < |texts|
      ensures IsMatch(lib, Parsed(l, texts)[j], domain) == TextMatches(lib, l, texts[j], domain) && Parsed(l, texts)[j].text == Shown(l, texts[j])
    {
      OnlyOfTier(lib, l, RulesOf(Written(ops), l), ComplexTier, j);
      ParsedAt(lib, l, texts, j, domain);
    }
  }

  lemma CatchesIff(lib: Lib, ops: seq<Op>, l: RuleList, domain: string)
    ensures Catches(lib, MadeRules(lib, ops, l), domain) <==> ListCatches(lib, ops, l, domain)
  {
    RulesAreTexts(lib, ops, l, domain);
    var rules, texts := MadeRules(lib, ops, l), Patterns(lib, ops, l);
    if Catches(lib, rules, domain) {
      var j :| 0 <= j < |rules| && IsMatch(lib, rules[j], domain);
      assert TextMatches(lib, l, texts[j], domain);
    }
    if ListCatches(lib, ops, l, domain) {
      var j :| 0 <= j < |texts| && TextMatches(lib, l, texts[j], domain);
      assert IsMatch(lib, rules[j], domain);
    }
  }

  lemma TierHitsIff(lib: Lib, ops: seq<Op>, kind: ListType, query: seq<RuleList>, domain: string)
    ensures TierHits(lib, ops, kind, query, domain) <==> SomeListCatches(lib, ops, kind, query, domain)
  {
    forall i | 0 <= i < |query| ensures Catches(lib, MadeRules(lib, ops, query[i]), domain) <==> ListCatches(lib, ops, query[i], domain) {
      CatchesIff(lib, ops, query[i], domain);
    }
  }

  lemma LedIsCaught(lib: Lib, ops: seq<Op>, kind: ListType, query: seq<RuleList>, domain: string, v: Verdict)
    requires Led(lib, ops, kind, query, domain, v)
    ensures CaughtBy(lib, ops, kind, query, domain, v)
  {
    var i: nat, j: nat :| Leads(lib, ops, kind, query, domain, v, i, j);
    forall k | 0 <= k < i ensures !(query[k].kind == kind && ListCatches(lib, ops, query[k], domain)) {
      CatchesIff(lib, ops, query[k], domain);
    }
    RulesAreTexts(lib, ops, query[i], domain);
    assert Caught(lib, ops, kind, query, domain, v, i, j);
  }

  /** Precedence over every run and every backing store: complex allow, then complex block, then
      whatever the backing store says after the simple rules alone. */
  lemma TieredPrecedence(lib: Lib, universe: set<RuleList>, backing: Store, ops: seq<Op>, query: seq<RuleList>, domain: string)
    requires Distinct(universe) && Confined(universe, ops) && Within(universe, query)
    ensures var v := Find(lib, ApplyAll(lib, Tiered(backing), ops), query, domain);
            if SomeListCatches(lib, ops, Allow, query, domain) then CaughtBy(lib, ops, Allow, query, domain, v)
            else if SomeListCatches(lib, ops, Block, query, domain) then CaughtBy(lib, ops, Block, query, domain, v)
            else v == Find(lib, ApplyAll(lib, backing, SimpleOps(ops)), query, domain)
  {
    var v := Find(lib, ApplyAll(lib, Tiered(backing), ops), query, domain);
    RulesLead(lib, universe, backing, ops, query, domain);
    TierHitsIff(lib, ops, Allow, query, domain);
    TierHitsIff(lib, ops, Block, query, domain);
    if Led(lib, ops, Allow, query, domain, v) { LedIsCaught(lib, ops, Allow, query, domain, v); }
    if Led(lib, ops, Block, query, domain, v) { LedIsCaught(lib, ops, Block, query, domain, v); }
  }

  lemma {:induction false} SimpleOpsKeep(universe: set<RuleList>, ops: seq<Op>, l: RuleList)
    requires Confined(universe, ops)
    ensures Confined(universe, SimpleOps(ops)) && (Finalized(ops, l) ==> Finalized(SimpleOps(ops), l))
    decreases |ops|
  {
    if ops != [] {
      ConfinedInit(universe, ops);
      var init, last := ops[..|ops| - 1], ops[|ops| - 1];
      SimpleOpsKeep(universe, init, l);
      if Simple(last) {
        assert (SimpleOps(init) + [last])[..|SimpleOps(init)|] == SimpleOps(init);
      }
    }
  }

  /** The default stack, complex rules over the memory store: after Finalize all four tiers decide in
      order, the last two by the specification on the simple rules. */
  lemma DefaultStackMeetsSpec(lib: Lib, universe: set<RuleList>, ops: seq<Op>, query: seq<RuleList>, domain: string)
    requires Distinct(universe) && Confined(universe, ops) && Within(universe, query)
    requires forall i :: 0 <= i < |query| ==> Finalized(ops, query[i])
    ensures var v := Find(lib, ApplyAll(lib, Tiered(EMPTY), ops), query, domain);
            if SomeListCatches(lib, ops, Allow, query, domain) then CaughtBy(lib, ops, Allow, query, domain, v)
            else if SomeListCatches(lib, ops, Block, query, domain) then CaughtBy(lib, ops, Block, query, domain, v)
            else MeetsSpec(LowerBook(Written(SimpleOps(ops))), query, DomainNames(Lower(domain)), v)
  {
    TieredPrecedence(lib, universe, EMPTY, ops, query, domain);
    forall i | 0 <= i < |query| ensures Finalized(SimpleOps(ops), query[i]) {
      SimpleOpsKeep(universe, ops, query[i]);
    }
    if query == [] {
      SimpleOpsKeepConfined(universe, ops);
    } else {
      SimpleOpsKeep(universe, ops, query[0]);
    }
    MemoryMeetsSpec(lib, universe, SimpleOps(ops), query, domain);
  }

  lemma SimpleOpsKeepConfined(universe: set<RuleList>, ops: seq<Op>)
    requires Confined(universe, ops)
    ensures Confined(universe, SimpleOps(ops))
  {
    SimpleOpsKeep(universe, ops, RuleList("", "", Allow, false));
  }
}
