/** The verdict on a question as it comes over the wire, with a final dot, on the default stack of stores
    (engine/engine.go, rule/store.go). */
module Judging {
  import opened Text
  import opened Domains
  import opened Rules
  import opened Stores
  import opened MemoryProofs
  import opened TierProofs
  import opened Decision

  /** The final dot of a question makes no difference; without lists or without a store nothing matches. */
  lemma FinalDotIsDropped(lib: Lib, store: Option<Store>, lists: seq<RuleList>, domain: string)
    requires !EndsInDot(domain)
    ensures VerdictOn(lib, store, lists, domain + ".") == VerdictOn(lib, store, lists, domain)
    ensures store.Some? && lists != [] ==> VerdictOn(lib, store, lists, domain) == Find(lib, store.value, lists, domain)
    ensures store.None? || lists == [] ==> VerdictOn(lib, store, lists, domain) == NONE
  {
    assert (domain + ".")[..|domain|] == domain;
  }

  lemma EmptyQuery(lib: Lib, universe: set<RuleList>, ops: seq<Op>, domain: string)
    requires Distinct(universe) && Confined(universe, ops)
    ensures Find(lib, ApplyAll(lib, Tiered(EMPTY), ops), [], domain) == NONE
  {
    RunKeepsTiers(lib, universe, EMPTY, ops);
    SimpleOpsKeepConfined(universe, ops);
    RunKeepsMemory(lib, universe, SimpleOps(ops));
  }

  /** What the engine makes of a question for some groups, after Finalize, on the default stack: allowing
      patterns, then blocking patterns, then the specification on the simple rules, over the lists of the
      groups in the order of the groups. */
  lemma QuestionsAreJudged(lib: Lib, universe: set<RuleList>, ops: seq<Op>, groups: map<string, Group>, names: seq<string>, domain: string)
    requires Distinct(universe) && Confined(universe, ops) && Within(universe, NamedLists(groups, names)) && !EndsInDot(domain)
    requires forall i :: 0 <= i < |NamedLists(groups, names)| ==> Finalized(ops, NamedLists(groups, names)[i])
    ensures var store, lists := ApplyAll(lib, Tiered(EMPTY), ops), NamedLists(groups, names);
            var v := VerdictForGroups(lib, Some(store), groups, names, domain + ".");
            if SomeListCatches(lib, ops, Allow, lists, domain) then CaughtBy(lib, ops, Allow, lists, domain, v)
            else if SomeListCatches(lib, ops, Block, lists, domain) then CaughtBy(lib, ops, Block, lists, domain, v)
            else MeetsSpec(LowerBook(Written(SimpleOps(ops))), lists, DomainNames(Lower(domain)), v)
  {
    var store, lists := ApplyAll(lib, Tiered(EMPTY), ops), NamedLists(groups, names);
    FinalDotIsDropped(lib, Some(store), lists, domain);
    DefaultStackMeetsSpec(lib, universe, ops, lists, domain);
    if lists == [] { EmptyQuery(lib, universe, ops, domain); }
  }

  /** A plain rule of a block list blocks every question at or below it, unless a pattern catches the domain
      or an allow list holds one of its suffixes. */
  lemma BlockRuleBlocks(lib: Lib, universe: set<RuleList>, ops: seq<Op>, groups: map<string, Group>, names: seq<string>,
                        l: RuleList, rule: string, domain: string)
    requires Distinct(universe) && Confined(universe, ops) && Within(universe, NamedLists(groups, names)) && !EndsInDot(domain)
    requires forall i :: 0 <= i < |NamedLists(groups, names)| ==> Finalized(ops, NamedLists(groups, names)[i])
    requires l in NamedLists(groups, names) && l.kind == Block && rule in RulesOf(Written(SimpleOps(ops)), l)
    requires Plain(domain) && IsLower(domain) && '.' in rule && IsLower(rule)
    requires domain == rule || EndsWith(domain, "." + rule)
    requires !SomeListCatches(lib, ops, Allow, NamedLists(groups, names), domain)
    requires !SomeListCatches(lib, ops, Block, NamedLists(groups, names), domain)
    requires !SomeListHits(LowerBook(Written(SimpleOps(ops))), Allow, NamedLists(groups, names), DomainNames(domain))
    ensures VerdictForGroups(lib, Some(ApplyAll(lib, Tiered(EMPTY), ops)), groups, names, domain + ".").match_ == MatchBlock
  {
    var lists, book := NamedLists(groups, names), Written(SimpleOps(ops));
    QuestionsAreJudged(lib, universe, ops, groups, names, domain);
    DomainNamesAreLabelSuffixes(domain, rule);
    var k :| 0 <= k < |RulesOf(book, l)| && RulesOf(book, l)[k] == rule;
    assert LowerAll(RulesOf(book, l))[k] == rule;
    var n :| 0 <= n < |DomainNames(domain)| && DomainNames(domain)[n] == rule;
    assert Hits(RulesOf(LowerBook(book), l), DomainNames(domain));
    var i :| 0 <= i < |lists| && lists[i] == l;
    assert SomeListHits(LowerBook(book), Block, lists, DomainNames(domain));
  }
}
