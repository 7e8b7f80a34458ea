# Gudgeon, modelled and verified

Gudgeon is a caching and blocking DNS proxy. This project models its hard core in Dafny and proves
properties of it over every input, every run and every interleaving:

- the **resolver graph**: resolvers ask sources, a source may be the name of another resolver, and the
  configuration may be cyclic; answers go through a partitioned TTL cache
  (`Dns`, `Cache`, `Resolution`, `Settling`, `Crediting`, `Provenance`, `Serving`, `VisitOrder`,
  `Transparency`, `ResolverMethods`);
- the **rule stores**: memory, hash, Bloom and SQL stores, filters over other stores, a wildcard/regex
  tier on top, all with live reload, measured against one short specification
  (`Domains`, `Rules`, `Ordering`, `Stores`, `StoreMethods`, `MemoryProofs`, `FilterProofs`,
  `ExactProofs`, `TierProofs`, `Naming`);
- the **connection pool** and the **load balancer** as step-by-step protocols (`Pool`, `Balancer`);
- the **decision path** from consumer to groups to verdict to resolution, with the alias chase and the
  names that reach a leaf in the end (`Decision`, `Judging`, `Handling`, `Reaching`);
- the **recorder and metrics**: count tables, query log, interval, session and lifetime counters
  (`Tally`, `Recorder`, `Metrics`);
- **reverse lookup names** and the hosts file: its lines, indexes and answers (`Reverse`, `HostLines`,
  `HostFile`, `HostAnswers`).

Two layers recur. Functions on values say what an operation does, and the theorems are about them. Where
the program works by changing things step by step, a class or a method with loops is proved to compute
exactly the function (`ResolverMethods`, `StoreMethods`, `ResponseCache`, `Recorder`, `Recording`,
`HostFileSource`, `Router`). Library code enters as arbitrary functions, so the results hold whatever it
does with its arguments: hashing, Bloom positions, glob, regular expressions, address parsing, the database's
choice among rows of equal rank (which may depend on the queried lists), and leaf resolvers (which may
depend on everything asked before).

Dafny 4.11; `dafny verify dfyconfig.toml` checks everything.

## Main results

1. Resolution ends for every resolver graph and enters no resolver twice; with the cache off it is the
   first non-empty leaf response in depth-first order; with it on, a request makes at most one cache
   write, into the partition of the innermost resolver, the one that asked the answering leaf itself.
2. Over every run, an answer served from the cache came from a forwarding leaf asked by the credited resolver
   no longer ago than that answer's own lifetime, and is never stored again by an enclosing resolver. Live
   answers are always served, storable ones remembered until their lifetime ends, and without a live entry
   the cache changes nothing.
3. Memory, hash and SQL stores all meet one specification; filters over SQL never change a verdict kind,
   over any run of loads, clears and finalizes; while one list is reloaded, verdicts name that list or are
   those of the other lists; a complex list catches a domain exactly by the texts loaded into it.
4. The pool's tokens are conserved, as an exact account, in every interleaving; waiting implies progress,
   no connection is ever shared, and each one dialed is idle, in one hand, closed or dropped.
5. The alias chase asks only for names the rules do not block, answers the original question, and ends, for
   steady resolvers, exactly when no request recurs.
6. Nothing recorded is lost or counted twice between buffer, tables and counters, across restarts.
7. A hosts file answers a question with exactly the records its lines say; reverse lookup names decode, so a
   PTR answer is confirmed by the forward lookup, unless an alias hides it.

## Where the code falls short of a stated or expected property

Each is shown by a lemma, together with the exact condition under which the property holds.

- A Bloom filter over the hash store hides lists when rules have mixed case or hashes collide:
  `BloomHidesMixedCase`, `BloomOverHashAgreesIff`.
- The SQL store keeps its prepared insert statement when a list is cleared in the middle of a load; every
  later load is then rolled back until Finalize: `InterruptedLoadLosesRules`, `LoadIsKeptIff`,
  `SqlMeetsSpecOnCommittedLoads`. Change handlers are registered while lists are still being loaded
  (rule/store.go:216-241), so the order can occur.
- A failed dial puts one slot too many into the pool, which can then exceed its maximum and drop open
  connections, and a release can wait while its caller already has an answer: `FailedDialsOverfillThePool`,
  `FailedDialsLoseConnections`, `ReleaseCanWait`; `TokensAreConserved` and `SendsWaitIff` are the exact
  account.
- A consumer linked to no group is judged by the default group on one path and by no list on the other:
  `UnlinkedConsumersDiffer`, `DecisionPathsAgreeIff`.
- Where groups share lists, a database that is handed the query as it is may name another rule on the two
  paths, though never decide otherwise: `SqlMayNameAnotherRule`, `MergedVerdictsAgreeIff`.
- Rules are tested on the asked name, not on its extensions by search domains: `SearchDomainsEvadeRules`,
  `LeavesMayBeAskedIff`.
- A blocked consumer is meant to be refused, but the mark is set before the reply is made, which sets it back:
  `BlockedConsumersAreNotRefused` gives the response of every consumer.
- A cycle of aliases, of any length, is chased without end: `CyclesNeverReturn`,
  `ChaseEndsIffNothingRecurs`.
- Keys of several questions can collide when a name contains a vertical bar: `ListKeysCanCollide`,
  `KeysEqualIff`.
- The active-rules counter drifts when a short name is configured twice, or when a list whose name holds
  "lifetime" is no longer configured: `RepeatedListDrifts`, `RetiredListDrifts`, `ActiveRulesExactIff`.
- The guard that keeps the first target of an alias in a hosts file works only for aliases written with a
  final dot: `SecondTargetWins`, `FirstTargetIsKeptIff`.
- A blank before a comment in a hosts file gives the address to the root domain: `CommentNamesTheRoot`,
  `RootIsNamedIff`.
- An alias hides the addresses of the same name, so a PTR answer may not be confirmed: `AliasHidesAddress`,
  `PtrAnswersAreConfirmedIff`.
- The comment at util/domains.go:97-98 lists "com" for "sub.google.com"; the code stops before names
  without a dot. The model follows the code.

## Model

| member | source | states |
|---|---|---|
| `Domains.DomainList` | util/domains.go:99-116 | the loop ends on every input and appends exactly the walk over sub-domains |
| `Domains.DomainNamesAreLabelSuffixes` | util/domains.go:16-21 | a plain name lists itself first, then exactly its proper label suffixes that keep a dot, strictly shortening |
| `Domains.DomainNamesLower` | util/domains.go:99-116 | listing commutes with case folding |
| `Domains.DomainMatches` | resolver/resolver.go:270-291 | the scan decides as the recursive test, with the first wildcard entry ending it |
| `Domains.MatchesByFirstWildcard` | resolver/resolver.go:277-285 | entries before the first wildcard match at or below; the first wildcard then decides alone; nothing behind it counts |
| `Domains.ListedIffMatched` | resolver/resolver.go:282-283 | a dotted rule is listed for a name exactly when it equals it or the name ends in "." + rule, the same test as a resolver's domain entry |
| `Domains.MatchesIff` | resolver/resolver.go:270-291 | a name, with or without its final dot, is taken by a list of entries exactly when it is at or below an entry before the first wildcard, or that wildcard globs it |
| `Dns.RelabelKeeps` | resolver/resolver.go:256-260 | re-labelling a response to another question keeps its records, lifetimes and non-emptiness |
| `Dns.RelabelledFields` | resolver/resolver.go:256-260 | a re-labelled response has the request's id and first question, success, every answer owned by the asked name, and all else as before |
| `Dns.EmptyIff` | util/dns.go:13-45 | a response is empty iff it is a name error or the first section with records holds none with a type and a payload |
| `Cache.Key` | cache/cache.go:71-93 | the key is the lower-cased join of all question fields, empty exactly without questions |
| `Cache.SingleKeysCollideOnlyUpToCase` | cache/cache.go:74-80 | single-question keys are equal if and only if the questions are equal up to case, whatever the names contain |
| `Cache.ListKeysCanCollide` | cache/cache.go:82-92 | a vertical bar inside a name makes a one-question key equal a two-question key |
| `Cache.KeysEqualIff` | cache/cache.go:71-93 | any two keys are equal if and only if the lower-cased fields, split at vertical bars, are |
| `Cache.ListKeysExactWithoutBar` | cache/cache.go:82-92 | without a vertical bar in names, keys of any two lists agree if and only if the lists agree up to case |
| `Cache.MinTtl` | cache/cache.go:63-68 | the loop computes the running minimum |
| `Cache.MinOfIsLeast` | cache/cache.go:63-68 | the minimum is below every record's lifetime and is one of them or the cap |
| `Cache.ResponseTtl` | cache/cache.go:101-108 | the lifetime of a response comes from its first non-empty section, capped |
| `Cache.LifetimeIsLeast` | cache/cache.go:101-108 | the lifetime is the least one of the first section with records, capped at a week |
| `Cache.StorableIff` | cache/cache.go:95-112 | stored are exactly responses that are neither empty nor truncated and have no zero lifetime in that section |
| `Cache.AdjustTtls` | cache/cache.go:139-147 | in place, every lifetime drops by the delta, saturating at zero, and nothing else changes |
| `Cache.AgedCopy` | cache/cache.go:173-186 | all three sections of a copy are counted down; the stored message is left alone |
| `Cache.ResponseCache.Store` | cache/cache.go:95-137 | accepts exactly non-empty, untruncated responses with a positive lifetime and a key; then the entry is the latest of its partition and key |
| `Cache.ResponseCache.Query` | cache/cache.go:149-189 | finds a message exactly when the latest accepted store since the last clear is unexpired |
| `Cache.ResponseCache.Clear` | cache/cache.go:202-208 | every partition is emptied |
| `Cache.EveryRunIsFaithful` | cache/cache.go:95-208 | over every run of stores, clears, janitor passes and clock ticks the entries are the latest accepted stores, or expired and gone |
| `Cache.TimedMap` | cache/cache.go:95-189 | over every run a lookup hits iff the latest storable response of its partition and key since the last clear is no older than its lifetime; it serves that response with its code and questions, under the request's id, every record of all three sections kept and counted down by the elapsed seconds, which fit 32 bits |
| `Cache.ReadsNeverDrift` | cache/cache.go:170-186 | a later read is the earlier read aged by the difference: reading never changes what is stored |
| `Resolution.Resolve` | resolver/resolver_map.go:166-193 | for every graph, cyclic or not, resolution terminates, the visited names have no duplicate and all exist, and no error comes out |
| `Resolution.AskNamed` | resolver/resolver_map.go:134-157 | visited names only grow, by unvisited resolvers |
| `Resolution.VisitGrows` | resolver/resolver.go:313-314 | entering a resolver strictly shrinks the unvisited ones, the measure of termination |
| `Resolution.EnteredIff` | resolver/resolver.go:293-314 | an unvisited resolver is entered iff its domains, if any, take the asked name and its skipped ones do not; otherwise nothing changes at all |
| `Resolution.NothingToEnter` | resolver/resolver_map.go:134-157 | no question, no such resolver or one already visited: nothing changes at all |
| `Resolution.SearchableIff` | resolver/resolver.go:222-242 | a name is searched iff it is neither empty nor the root and has no second label |
| `Resolution.ExtendedName` | resolver/resolver.go:238-242 | a one-label name is extended to label, search domain and final dot; nothing else of the request changes |
| `ResolverMethods.ResolverMap.AnswerMulti` | resolver/multi_source.go:29-40 | the early-exit loop over sources |
| `ResolverMethods.ResolverMap.AnswerBalanced` | resolver/loadbalancing_source.go:51-70 | one more try than there are sources, each on the next source in turn |
| `ResolverMethods.ResolverMap.AnswerSource` | resolver/resolver_source.go:21-36 | dispatch over sources, with the guarded edge to another resolver |
| `ResolverMethods.ResolverMap.AnswerSources` | resolver/resolver.go:188-220 | first source with an answer, credited once |
| `ResolverMethods.ResolverMap.SearchDomains` | resolver/resolver.go:222-267 | single-label names are retried below every search domain and come back under the asked name |
| `ResolverMethods.ResolverMap.AnswerResolver` | resolver/resolver.go:293-351 | guards, visit, cache lookup, sources, search domains, store, on the mutable context and cache |
| `ResolverMethods.ResolverMap.AnswerWithContext` | resolver/resolver_map.go:134-157 | missing and visited resolvers are skipped |
| `ResolverMethods.ResolverMap.AnswerMultiResolvers` | resolver/resolver_map.go:166-193 | the loop with a fresh context computes `Resolve` |
| `Provenance.EachResolverIsEnteredAtMostOnce` | resolver/resolver.go:313-314 | in every graph a request enters each resolver at most once, and only existing ones, so no more than there are |
| `Settling.SettledAll` | resolver/resolver_map.go:166-193 | what one request does to context and cache, by cases: no answer, a hit, an authoritative answer, a stored or an unstorable forwarded answer |
| `Crediting.CreditAll` | resolver/resolver.go:202-206 | an answer that is not from the cache was given by a leaf that the credited resolver asked itself, as one of its own sources |
| `Provenance.OneWritePerRequest` | resolver/resolver.go:345-348 | a request writes the cache iff a forwarding leaf has just answered storably; then once, into the partition of the credited resolver, which made that call itself to one of its own leaves |
| `Provenance.EveryRunIsProvenant` | resolver/resolver.go:316-348 | over every run every entry of a partition goes back to a call, of the same instant and content, that this resolver made to a forwarding leaf of its own |
| `Provenance.CachedAnswersAreFresh` | resolver/resolver.go:316-330 | over every run a cached answer came from a call of the credited resolver to its own leaf, is at most its own lifetime old, correctly aged, and not stored again |
| `Serving.HitIffLive` | resolver/resolver.go:316-330 | an entered resolver finds an answer in the cache iff its latest store for the request is no older than its lifetime |
| `Serving.LiveAnswersAreServed` | resolver/resolver.go:316-330 | over every run a request whose first resolver has a live answer gets it, counted down and under its own id, and no leaf is asked |
| `Serving.LeafAnswerIsStored` | resolver/resolver.go:332-351 | without one, a forwarding leaf that is the first source is asked, and a storable answer goes under the resolver's name and the request's key |
| `Serving.AnswersAreRemembered` | resolver/resolver.go:316-351 | over every run that answer is then served to every request with the same key until its lifetime ends |
| `VisitOrder.CacheOffIsFirstAnswer` | resolver/resolver_map.go:166-193 | with the cache off a request is the first non-empty response along a flat depth-first plan, no leaf beyond it is asked, and its owner is credited |
| `VisitOrder.WorkFollows` | resolver/resolver.go:332-343 | own sources, then search domains, follow the plan |
| `VisitOrder.BalancedFollows` | resolver/loadbalancing_source.go:51-70 | a balanced source follows the plan from its current cursor |
| `VisitOrder.LeavesAreAskedInTurn` | resolver/loadbalancing_source.go:38-70 | when nothing answers, a balanced source asks its leaves from the cursor on and round again |
| `VisitOrder.EveryLeafIsAsked` | resolver/loadbalancing_source.go:51-70 | and gives up only after every one of them |
| `Transparency.ColdCacheChangesNothing` | resolver/resolver.go:316-351 | for every graph: without a live entry a request has the outcome, leaf calls, visits and credit it has with the cache off |
| `Transparency.ColdCacheIsFirstAnswer` | resolver/resolver.go:316-351 | and so is the first non-empty response of the plan |
| `Balancer.PicksAreFair` | resolver/loadbalancing_source.go:38-49 | after any number of picks two sources differ by at most one |
| `Balancer.WindowsCoverAllSources` | resolver/loadbalancing_source.go:38-49 | every window of n picks covers all n sources |
| `Balancer.Router.Pick` | resolver/loadbalancing_source.go:38-49 | one exchange hands out the source at the index and advances it modulo n |
| `Balancer.Router.Answer` | resolver/loadbalancing_source.go:51-70 | a lone caller that fails has asked every source; one that succeeds stopped at the first answer |
| `StoreMethods.MemoryStore.FirstOfType` | rule/store.go:133-151 | the early-exit loop gives the first held list of the type, in query order, that yields a match |
| `Rules.ListedKeepsRegistered` | rule/store.go:51-75 | a list is registered exactly while it has been loaded and not cleared |
| `Rules.PassMeetsSpec` | rule/store.go:133-151 | allow pass then block pass, over lists that look names up, give the specified verdict, first list and longest suffix |
| `Ordering.SortRulesSorted` | rule/store_memory.go:47-54 | Finalize leaves a case-insensitively sorted arrangement |
| `Ordering.SortedIsUnique` | rule/store_memory.go:47-54 | on lower-case rules that arrangement is unique, so the library's sort does not matter |
| `Ordering.FoundInList` | rule/store_memory.go:56-69 | the bisection loop computes the search function on any table |
| `Ordering.FoundIsSound` | rule/store_memory.go:64-66 | on any table, sorted or not, a hit is a rule of the table equal to the name up to case |
| `Ordering.FoundIsExact` | rule/store_memory.go:56-69 | on a sorted table a name is found if and only if it is there |
| `StoreMethods.MemoryStore.Load` | rule/store_memory.go:42-45 | appends the lower-cased rule and registers the list |
| `StoreMethods.MemoryStore.Clear` | rule/store_memory.go:33-40 | empties the table and unregisters the list |
| `StoreMethods.MemoryStore.Finalize` | rule/store_memory.go:47-54 | sorts the tables of the given lists, one after another |
| `StoreMethods.MemoryStore.FindInList` | rule/store_memory.go:75-86 | the closure's loop over names |
| `StoreMethods.MemoryStore.FindMatch` | rule/store_memory.go:71-106 | two loops over the queried lists, each running the loop over names and its bisection, find what the specification function finds |
| `StoreMethods.HashStore.Load` | rule/store_hash.go:42-49 | adds the hash of the lower-cased rule, then loads the delegate object |
| `StoreMethods.HashStore.Clear` | rule/store_hash.go:33-40 | forgets the hashes, then clears the delegate object |
| `StoreMethods.HashStore.FindInList` | rule/store_hash.go:75-88 | the first known hash decides or hands over to the delegate |
| `StoreMethods.HashStore.FindMatch` | rule/store_hash.go:66-112 | two loops over the queried lists, each running the loop over names and the delegate's own lookup |
| `StoreMethods.BloomStore.Load` | rule/store_bloom.go:62-72 | sets bits only for a rule that does not test positive, then loads the backing object |
| `StoreMethods.BloomStore.Clear` | rule/store_bloom.go:53-60 | leaves the bits of an existing filter |
| `StoreMethods.BloomStore.FindInList` | rule/store_bloom.go:90-104 | the first positive name decides or hands over |
| `StoreMethods.BloomStore.FindMatch` | rule/store_bloom.go:86-127 | two loops over the queried lists, each running the filter tests and the backing object's own lookup |
| `StoreMethods.SqlStore.Load` | rule/store_sqlite.go:140-171 | inserts in the open transaction, or rolls it back when the statement is stale |
| `StoreMethods.SqlStore.Clear` | rule/store_sqlite.go:98-138 | commits, deletes the list's rows, leaves the prepared statement behind |
| `StoreMethods.SqlStore.Finalize` | rule/store_sqlite.go:173-200 | drops the statement and commits |
| `StoreMethods.SqlStore.BindLists` | rule/store_sqlite.go:231-238 | binds exactly the queried lists that the store knows |
| `StoreMethods.SqlStore.FindMatch` | rule/store_sqlite.go:309-326 | one row, allow before block |
| `StoreMethods.ComplexStore.Load` | rule/store_complex.go:37-54 | routes every rule to the complex tier, the backing object or nowhere |
| `StoreMethods.ComplexStore.FindInList` | rule/store_complex.go:66-77 | the first complex rule of a list that matches |
| `StoreMethods.ComplexStore.FindMatch` | rule/store_complex.go:64-107 | two loops over the queried lists, each running the rules of the tier, then the backing object's own lookup, for every stack the configuration offers |
| `MemoryProofs.RunKeepsMemory` | rule/store_memory.go:33-54 | over every run each table is a rearrangement of the lower-cased rules loaded since the last clear |
| `MemoryProofs.MemoryMeetsSpec` | rule/store_memory.go:71-106 | after Finalize: verdict kind, first list in query order and longest matching suffix as specified, for any domain in any case |
| `MemoryProofs.NeverReportsUnloadedRules` | rule/store.go:222-234 | at every point of every run, mid-reload included, a positive verdict names a rule now loaded in the named list |
| `MemoryProofs.ReloadLeavesOthersAlone` | rule/store.go:222-234 | for every query, after each step of reloading a list the verdict names that list or is the earlier verdict on the other lists of the query |
| `FilterProofs.SqlJudges` | rule/store_sqlite.go:215-326 | the SQL verdict kind is decided by which queried, registered lists have a committed row among the names |
| `FilterProofs.RunKeepsBloom` | rule/store_bloom.go:53-72 | over every run the filter covers every loaded rule, stale bits and skipped additions included |
| `FilterProofs.BloomOverSqlIsSql` | rule/store_bloom.go:86-127 | over every run, Bloom over SQL gives the verdict kind of SQL alone |
| `FilterProofs.HashOverSqlIsSql` | rule/store_hash.go:66-112 | over every run, hash over SQL gives the verdict kind of SQL alone, collisions or not |
| `FilterProofs.BloomOverHashAgreesIff` | rule/store_bloom.go:86-127 | Bloom over hash agrees with hash on all queries iff every hit list passes its filter |
| `FilterProofs.BloomOverHashIsHash` | rule/store_bloom.go:86-127 | it agrees for lower-case rules and domain without colliding hashes |
| `FilterProofs.BloomHidesMixedCase` | rule/store_bloom.go:62-66 | a mixed-case rule that hash alone matches is hidden by the filter |
| `Naming.SqlNamesLoadedRules` | rule/store_sqlite.go:279-326 | over every run a positive SQL verdict names a queried list of its own kind and a rule loaded in it that is the domain or a parent |
| `Naming.FiltersNameLoadedRules` | rule/store_hash.go:66-112 | and so does the database behind a hash set or a Bloom filter |
| `Naming.BloomBitsAreExact` | rule/store_bloom.go:53-72 | over every run a filter holds exactly its first bits and those of every rule ever loaded, cleared or not |
| `Naming.BloomAloneJudges` | rule/store_bloom.go:86-127 | a Bloom store without a backing store judges by those bits alone |
| `ExactProofs.HashMeetsSpec` | rule/store_hash.go:66-112 | without relevant collisions the hash store meets the specification, with first list and longest suffix |
| `ExactProofs.RunKeepsStatement` | rule/store_sqlite.go:140-200 | over every run the statement's state follows from the order of operations |
| `ExactProofs.SqlMeetsSpecOnCommittedLoads` | rule/store_sqlite.go:309-326 | at every point of every run the SQL verdict kind is the specification on exactly the loads that were not rolled back and are committed |
| `ExactProofs.LoadIsKeptIff` | rule/store_sqlite.go:140-171 | a rule just loaded is in the database iff no load was interrupted by a clear since the last Finalize, or it was there already; no other row changes |
| `ExactProofs.SqlMeetsSpec` | rule/store_sqlite.go:206-326 | in orderly runs the SQL store meets the specification on all loads |
| `ExactProofs.InterruptedLoadLosesRules` | rule/store_sqlite.go:98-171 | load, clear of another list, load, finalize: the second rule is lost |
| `TierProofs.RulesLandInTheirTier` | rule/store_complex.go:37-54 | over every run the rules of a list are split, as multisets of texts and in load order, into the simple ones the backing store is given, the patterns in the complex tier, and invalid regular expressions |
| `TierProofs.TierHitsIff` | rule/rule_complex.go:75-81 | over every run a list of the tier matches a domain iff one of the texts loaded into it does, as the list and the text's form demand |
| `TierProofs.TieredPrecedence` | rule/store_complex.go:64-107 | over every run and backing store, by the loaded texts alone: a regex list catches by its texts as expressions, other lists by the inside of slashed texts as expressions and by starred texts as globs; complex allow, then complex block, then the backing store on the simple rules alone |
| `TierProofs.DefaultStackMeetsSpec` | rule/store.go:154-205 | complex over memory after Finalize: the four tiers in order, the first two by the loaded texts, the last two as specified |
| `Decision.LinkConsumer` | engine/engine_init.go:236-259 | a consumer gets the names, resolvers and de-duplicated lists of the groups it names |
| `Decision.MergeLists` | engine/engine_init.go:245-257 | lists are appended unless their canonical name is already there |
| `Decision.OneOfEachName` | engine/engine_init.go:245-257 | whatever the lists, exactly one of every canonical name is kept, and earlier ones stay in front |
| `Decision.LinkedInOrder` | engine/engine_init.go:236-259 | groups are linked in the order of the configuration |
| `Decision.NamedListsInOrder` | engine/engine.go:272-283 | the lists of groups come in the order of the groups |
| `Decision.DomainRuleMatchedForGroups` | engine/engine.go:272-286 | the verdict on the concatenated lists of the groups that exist |
| `Decision.FindOnMerged` | rule/store.go:133-151 | for every store, repeated lists in a query do not change the kind of verdict, nor list and rule unless the query itself goes to the database |
| `Decision.SqlMayNameAnotherRule` | rule/store_sqlite.go:244-277 | for every query with repetitions, a database that names different rules for it and its de-duplicated form |
| `Decision.MergedVerdictsAgreeIff` | engine/engine_init.go:245-257 | the whole verdicts agree for every library and store iff the query has no repetitions |
| `Decision.DecisionPathsAgree` | engine/engine.go:265-286 | for a linked consumer and unique group names both paths decide alike on every store, with the same list and rule unless the query itself goes to the database |
| `Decision.UnlinkedConsumersDiffer` | engine/engine.go:213-221 | for an unlinked consumer and a default group with lists: a store and a domain on which the paths disagree |
| `Decision.DecisionPathsAgreeIff` | engine/engine.go:265-286 | the paths decide alike for every store and domain iff the consumer is linked to a group or the default group has no lists |
| `Judging.FinalDotIsDropped` | engine/engine.go:245-263 | the verdict on a name with its final dot is the store's on the name without it |
| `Judging.QuestionsAreJudged` | engine/engine.go:272-286 | for every wire question and default stack the verdict for groups is the specified one on the groups' lists |
| `Judging.BlockRuleBlocks` | engine/engine.go:245-286 | a block rule that is the asked name or a parent blocks the question, when no allow rule and no pattern matches |
| `Handling.HandledIffEnds` | engine/engine.go:289-324 | the chase finishes within a depth iff the chain of aliases does |
| `Handling.ChaseEndsIffNothingRecurs` | engine/engine.go:289-324 | for steady resolvers and aliases within finitely many names, the chase ends iff no request recurs in its chain, and then within one request per name |
| `Handling.AcyclicChainsEnd` | engine/engine.go:289-324 | acyclic aliases always end |
| `Handling.DepthIrrelevant` | engine/engine.go:289-324 | a finished chase has one result |
| `Handling.CyclesNeverReturn` | engine/engine.go:289-324 | a cycle of aliases of any length never returns, from any member |
| `Handling.OnlyUnblockedNamesAreAsked` | engine/engine.go:426-472 | at every hop, resolution is started only for valid names the rules do not block |
| `Handling.ChaseKeepsLastResponse` | engine/engine.go:363-402 | the recursion returns the records of the last non-empty response of the chain |
| `Handling.ChaseAnswersOriginalQuestion` | engine/engine.go:310-320 | a chase that got anywhere answers the original question, all answers owned by the original name; otherwise the alias response stands |
| `Handling.ConsumersAskForUnblockedNames` | engine/engine.go:482-508 | on the engine's own store: whatever is asked for a consumer, at any hop, the consumer is not blocked and the store does not block the name on the consumer's groups |
| `Handling.NamedResolversInOrder` | engine/engine.go:457-471 | the resolvers of groups come in the order of the groups |
| `Handling.ConsumersResolversAreAsked` | engine/engine.go:457-471 | a linked consumer's requests go to the resolvers it was linked with, in that order |
| `Handling.OnlyThoseResolversMatter` | engine/engine.go:363-402 | at every hop of the chase only those resolvers are asked |
| `Handling.InvalidRequestsAreAnswered` | engine/engine.go:326-361 | the code of every request that is not looked at; nobody is asked |
| `Handling.ValidRequestsAreAnswered` | engine/engine.go:363-402 | a name error when blocked, without resolvers or without an answer; otherwise the answer, unless it starts with an alias that was not asked for, which is asked next |
| `Handling.BlockedConsumersAreNotRefused` | engine/engine.go:482-501 | a blocked consumer gets success without records, and nobody is asked; others go by their groups, or the default one |
| `Reaching.LeavesAreAskedForExtensions` | resolver/resolver.go:222-267 | every leaf a request makes resolution ask is asked for the requested name or for it extended by search domains |
| `Reaching.LongNamesAreNotExtended` | resolver/resolver.go:222-236 | a name with a second label is asked for as it is, whatever search domains there are |
| `Reaching.LeavesMayBeAskedIff` | resolver/resolver.go:238-242 | with the cache off, leaves are asked only for names the rules let pass if all questions of the plan are such, and, when nothing answers, only if |
| `Reaching.SearchDomainsEvadeRules` | resolver/resolver.go:238-242 | a configuration in which a leaf is asked for a blocked name, the extension of one that is not |
| `Pool.TokensAreConserved` | pool/dns_pool.go:105-199 | in every interleaving idle + held + announced surplus + skipped sends = max + failed dials; idle + held is between max and max + failed dials, exactly max without failures |
| `Pool.WaitingImpliesProgress` | pool/dns_pool.go:115-153 | when Get must wait, some holder has an enabled step |
| `Pool.WithoutFailuresThereIsRoom` | pool/dns_pool.go:156-181 | without failed dials a holder always finds room, so no send waits |
| `Pool.ConnectionsAreExclusive` | resolver/dns_source.go:127-147 | no live connection is ever idle and held, held twice or idle twice, and none of these is closed |
| `Pool.EveryConnectionIsAccountedFor` | resolver/dns_source.go:127-147 | each connection ever dialed is idle, held, closed or dropped, and none is both closed and dropped |
| `Pool.ClosedIffFinished` | pool/dns_pool.go:183-199 | closed or about to be are exactly the connections with an error and, over UDP, those whose query is over |
| `Pool.ChannelIsFifo` | pool/dns_pool.go:115-181 | the first nils and all that was sent are, in order, all that was received and what is idle |
| `Pool.NothingDroppedWithoutFailures` | pool/dns_pool.go:172-181 | without failed dials no open connection is dropped |
| `Pool.FailedDialsOverfillThePool` | pool/dns_pool.go:131-140 | a run in which a pool of one has two connections in use: the bound is tight |
| `Pool.FailedDialsLoseConnections` | pool/dns_pool.go:172-181 | a run in which an open connection is dropped without being closed |
| `Pool.SendsWaitIff` | pool/dns_pool.go:172-181 | a send waits iff the channel is full, and then more dials have failed than sends were skipped |
| `Pool.ReleaseCanWait` | resolver/dns_source.go:127-147 | a run in which a release waits at a full channel after one failed dial |
| `Tally.Upsert` | engine/metrics_details.go:22-27 | row-by-row upsert |
| `Tally.BumpAllCounts` | engine/metrics_details.go:22-27 | an upsert adds to each key its number of occurrences |
| `Tally.BumpAllTotal` | engine/metrics_details.go:22-27 | and to the total the number of rows |
| `Recorder.Recorder.Flush` | engine/recorder.go:547-578 | one transaction: query log, the seven statements, then an empty buffer |
| `Recorder.Recorder.Buffer` | engine/recorder.go:471-539 | one row more in the buffer, nothing else changed |
| `Recorder.KeptCounts` | engine/qlog.go:152-157 | pruning removes exactly the rows up to the cutoff and keeps the others as often as they occurred |
| `Recorder.NameNewClients` | engine/metrics_details.go:28-29 | clients without a stored name get one |
| `Recorder.CountsAreConserved` | engine/metrics_details.go:22-27 | over every run, per address, domain, type, list and rule of a list: persisted plus buffered equals ever buffered; rows without a list or rule count for none; the first three totals are equal |
| `Recorder.QueryLogKeepsRecentRows` | engine/qlog.go:152-165 | above every cutoff so far the query log is exactly the flushed rows, in order |
| `Recorder.RuleHitsNeverExceedListHits` | engine/metrics_details.go:18-21 | over every run the hits of a list's rules together never exceed the list's hits |
| `Recorder.StoredNamesAreLongest` | engine/metrics_details.go:28-31 | a client has a stored name iff one was flushed for it, and it is one of those of maximal length |
| `Metrics.Recording.Record` | engine/metrics.go:300-325 | which counters a query raises |
| `Metrics.Recording.Insert` | engine/metrics.go:327-347 | the row is written, then the interval counters are cleared |
| `Metrics.Recording.Restart` | engine/metrics.go:489-525 | lifetime counters come back from the latest row, then lists are counted |
| `Metrics.Recording.ListChanged` | engine/engine_init.go:355-360 | the change handler's counter updates |
| `Metrics.SessionIsConserved` | engine/metrics.go:300-347 | over every run the session counts are the recorded queries and equal the intervals of all inserted rows plus the current one; blocked likewise; cache hits are the cached queries of the session |
| `Metrics.SessionMatchesAreCounted` | engine/metrics.go:316-324 | over every run a list's session matches are the queries it blocked since the start, plus what came back |
| `Metrics.AverageIsTheMean` | engine/metrics.go:300-347 | an update sets the average to the mean time of the queries since the last insert, rounded toward zero |
| `Metrics.CountersStayRanked` | engine/metrics.go:300-347 | interval <= session <= lifetime and blocked <= total, always, restarts included |
| `Metrics.LifetimeIsConserved` | engine/metrics.go:489-525 | across restarts and pruning the lifetime counts are the intervals of all rows since a start on an empty table, plus the current one |
| `Metrics.LifetimeCountsQueries` | engine/metrics.go:489-525 | across restarts and pruning the lifetime counters are the recorded, the blocked and each list's blocked queries, less those a start found in no row |
| `Metrics.ActiveRulesFollowTheLists` | engine/engine_init.go:299-311 | no operation of a running process changes the difference between active rules and the sum of list counters |
| `Metrics.ListCountersAreLoadedCounts` | engine/engine_init.go:299-311 | every list counter is the number of rules the list was last loaded with |
| `Metrics.ActiveRulesAreTheSum` | engine/engine_init.go:355-360 | with unrepeated list names the active rules are that sum after every run |
| `Metrics.ActiveRulesExactIff` | engine/engine_init.go:299-311 | in every process, whatever ran before, they are the sum iff the counts replaced by repeated names equal the counters that came back for lists no longer configured; with none come back, iff no short name of a list with rules is repeated |
| `Metrics.RepeatedListDrifts` | engine/engine_init.go:299-311 | a configuration with a repeated name, where they differ |
| `Metrics.RetiredListDrifts` | engine/metrics.go:516-524 | a run in which the counter of a list that is no longer configured comes back and they differ |
| `Reverse.ReverseLookupDomain` | util/domains.go:24-56 | the loops write the labels, most specific first, and the zone of the family |
| `Reverse.ReverseNameDecodes` | util/domains.go:24-56 | decoding a reverse lookup name gives the 16-byte address back (section 3.5 of RFC 1035, section 2.5 of RFC 3596) |
| `Reverse.ReverseNameInjective` | util/domains.go:24-56 | hence no two addresses share a name |
| `Reverse.V4NameText` | util/domains.go:24-56 | the name of an IPv4 address, written out: its last four bytes in decimal, the last one first |
| `Reverse.V6NameLabels` | util/domains.go:24-56 | every label of the name of an IPv6 address: one hexadecimal digit each, low half before high half, last byte first |
| `HostLines.Squeeze` | resolver/hostfile_source.go:66-71 | the replacement loop ends and leaves single blanks |
| `HostLines.ReadLine` | resolver/hostfile_source.go:47-85 | trimming, folding, comments, blanks and the split of one line |
| `HostLines.CleanLinesReadBack` | resolver/hostfile_source.go:47-85 | an address or target and its names, written with single blanks, are read back as they are |
| `HostLines.EmptyNameIff` | resolver/hostfile_source.go:73-85 | a line gives an empty name iff its conditioned text ends in a blank |
| `HostLines.CommentLeavesAnEmptyName` | util/strings.go:34-52 | clean fields followed by a blank and any comment are read as the fields and an empty name |
| `HostLines.SeparatorsDoNotMatter` | resolver/hostfile_source.go:47-85 | fields are read back however they are separated, by blanks, tabs or commas in any number, and padded |
| `HostLines.EitherSignCuts` | util/strings.go:34-52 | either comment sign takes the rest of the line with it, whatever it is |
| `HostLines.SkippedLines` | resolver/hostfile_source.go:47-58 | lines that are empty, comments or start with a star say nothing |
| `HostFile.HostFileSource.LoadArray` | resolver/hostfile_source.go:31-117 | the nested loops build the four indexes from the raw lines, starting from empty ones |
| `HostFile.RootIsNamedIff` | resolver/hostfile_source.go:92-106 | after loading raw lines, an address stands for the root domain iff some line of it ends in a blank before its comment or names the root |
| `HostFile.CommentNamesTheRoot` | resolver/hostfile_source.go:92-106 | a one-line file with a comment after a blank gives the root domain an address |
| `HostFile.ForwardIsMentions` | resolver/hostfile_source.go:92-106 | a domain's forward entry is every address the file gives it, in file order |
| `HostFile.ReverseIsLastLine` | resolver/hostfile_source.go:87-90 | an address's reverse entry is exactly the names of its own last line |
| `HostFile.ReverseNamesResolveForward` | resolver/hostfile_source.go:87-106 | every non-wildcard name in the reverse entry has the address in its forward entry |
| `HostFile.RespondToPTR` | resolver/hostfile_source.go:220-240 | one full name per non-empty entry, appended to the response |
| `HostFile.RespondToA` | resolver/hostfile_source.go:136-218 | matching wildcard entries, then host entries, of the asked address family, appended in order |
| `HostFile.AnswerQuestion` | resolver/hostfile_source.go:266-323 | which sections each question type gets, with the asked spelling as owner; an alias hides addresses |
| `HostFile.PtrAnswersAreConfirmedIff` | resolver/hostfile_source.go:266-323 | whatever domain a PTR answer for an address names, wildcards aside, the A or AAAA answer for that domain holds the address iff the domain is not also an alias |
| `HostFile.AliasHidesAddress` | resolver/hostfile_source.go:291-302 | a two-line file whose PTR answer is not confirmed |
| `HostFile.FirstTargetIsKeptIff` | resolver/hostfile_source.go:107-114 | an alias keeps its target against a later line, with any names, iff that line does not write it without its final dot |
| `HostFile.SecondTargetWins` | resolver/hostfile_source.go:107-114 | a two-line file in which the second target of an alias wins |
| `HostAnswers.IndexedIff` | resolver/hostfile_source.go:92-106 | names without a star are in the forward index, others in the wildcard index, with exactly the addresses of the lines that mention them |
| `HostAnswers.AliasIff` | resolver/hostfile_source.go:107-114 | for every file: the target of an alias is that of the last line that writes it without its final dot, else of the first that writes it with it |
| `HostAnswers.AnswersWhatTheFileSays` | resolver/hostfile_source.go:136-323 | for every file and question: a record is answered iff the lines say so, by type, alias, pattern, family and last line of the address, under the asked spelling |
| `HostAnswers.AddressesInFileOrder` | resolver/hostfile_source.go:182-218 | addresses of one family come exactly as the file gives them, in file order |

## Left out

- DNS wire format, sockets, TLS, systemd activation, HTTP, the user interface, configuration loading, downloads and file watching: I/O and foreign libraries.
- Aliasing of cached messages: the cache keeps the caller's pointer (cache/cache.go:128-131) and later code writes answer headers (engine/engine.go:315-319, resolver/resolver.go:256-260); messages are immutable values here.
- Interleaving of several requests on one cache or one balancer: requests of a run follow one another; the balancer's fairness alone is proved for any number of callers.
- Leaf sources (DNS, hosts, zone, system) inside the resolver graph: arbitrary functions of question and call history; the hosts file source is modelled separately.
- Reporting of the source that answered (`SourceUsed`), log text and query results: no effect on answers.
- Case folding beyond ASCII, and escapes in fully qualified names.
- Init of the stores is taken to run once, and a list that Init has not prepared is treated as empty where the code would panic; so is a rule that is a lone slash, which is treated as an invalid regular expression.
- `rule/store_hash32.go` repeats the hash store; `Close` of every store and the closing flag of the SQL store.
- SQLite's journal mode and shared-cache locking: a rollback undoes its transaction and readers see committed rows; a reader that is refused by a lock during a reload would find nothing.
- Ranges of 64-bit counters and of hash values: integers are unbounded, hash functions arbitrary.
- Pool `Shutdown`: the flag is set on a copy; runs are those before it. The tls and keep-alive settings.
- Handling: the choice of a consumer by address, assignment of lists by tags (engine/engine_init.go:26-46) and the recovery from panics.
- Records still queued when the recorder shuts down, failed transactions, reverse lookup of client names by mDNS and NetBIOS.
- Metrics gauges (memory, processor, per-second rates): readings without an invariant.
- Parsing of addresses is an arbitrary function, and the order in which hosts file wildcards are walked an arbitrary sequence.
- Zone files, the query log filters and the top lists.
