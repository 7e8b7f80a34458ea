/** What a hosts file answers, read off its lines: which records each question gets and which it does not
    (resolver/hostfile_source.go).  The lines are numbered, a mention is a name of a line. */
module HostAnswers {
  import opened Text
  import opened Reverse
  import opened HostLines
  import opened HostFile

  // ---- addresses ----

  /** Line `k` gives the address to its `n`-th name. */
  predicate Names(parse: Parser, lines: seq<Line>, k: nat, n: nat, ip: Address, wild: bool) {
    && k < |lines| && n < |lines[k].names| && parse(lines[k].address) == Some(ip)
    && ('*' in lines[k].names[n] <==> wild)
  }

  predicate MentionAt(parse: Parser, lines: seq<Line>, k: nat, n: nat, ip: Address, wild: bool, domain: string) {
    Names(parse, lines, k, n, ip, wild) && Fqdn(lines[k].names[n]) == domain
  }

  ghost predicate Mentioned(parse: Parser, lines: seq<Line>, ip: Address, wild: bool, domain: string) {
    exists k: nat, n: nat :: MentionAt(parse, lines, k, n, ip, wild, domain)
  }

  /** The index that holds names of this kind. */
  function IndexFor(x: Index, wild: bool): (r: map<string, seq<Address>>) {
    if wild then x.wild else x.forward
  }

  ghost predicate NamedIn(names: seq<string>, wild: bool, domain: string) {
    exists n: nat :: n < |names| && ('*' in names[n] <==> wild) && Fqdn(names[n]) == domain
  }

  lemma NamedInSnoc(names: seq<string>, wild: bool, domain: string)
    requires names != []
    ensures var last := names[|names| - 1];
            NamedIn(names, wild, domain) <==> NamedIn(names[..|names| - 1], wild, domain) || (('*' in last <==> wild) && Fqdn(last) == domain)
  {
    var init := names[..|names| - 1];
    if NamedIn(init, wild, domain) {
      var n: nat :| n < |init| && ('*' in init[n] <==> wild) && Fqdn(init[n]) == domain;
      assert names[n] == init[n];
    }
    if NamedIn(names, wild, domain) {
      var n: nat :| n < |names| && ('*' in names[n] <==> wild) && Fqdn(names[n]) == domain;
      if n < |init| { assert init[n] == names[n]; }
    }
  }

  lemma {:induction false} NamesAddedHold(x: Index, ip: Address, names: seq<string>, other: Address, wild: bool, domain: string)
    ensures other in At(IndexFor(NamesAdded(x, ip, names), wild), domain, []) <==>
            other in At(IndexFor(x, wild), domain, []) || (other == ip && NamedIn(names, wild, domain))
    decreases |names|
  {
    if names != [] {
      NamesAddedHold(x, ip, names[..|names| - 1], other, wild, domain);
      NamedInSnoc(names, wild, domain);
    }
  }

  lemma MentionedSnoc(parse: Parser, lines: seq<Line>, line: Line, ip: Address, wild: bool, domain: string)
    ensures Mentioned(parse, lines + [line], ip, wild, domain) <==>
            Mentioned(parse, lines, ip, wild, domain) || (parse(line.address) == Some(ip) && NamedIn(line.names, wild, domain))
  {
    var all := lines + [line];
    assert all[|lines|] == line;
    if Mentioned(parse, lines, ip, wild, domain) {
      var k: nat, n: nat :| MentionAt(parse, lines, k, n, ip, wild, domain);
      assert MentionAt(parse, all, k, n, ip, wild, domain);
    }
    if parse(line.address) == Some(ip) && NamedIn(line.names, wild, domain) {
      var n: nat :| n < |line.names| && ('*' in line.names[n] <==> wild) && Fqdn(line.names[n]) == domain;
      assert MentionAt(parse, all, |lines|, n, ip, wild, domain);
    }
    if Mentioned(parse, all, ip, wild, domain) { MentionedBefore(parse, lines, line, ip, wild, domain); }
  }

  lemma MentionedBefore(parse: Parser, lines: seq<Line>, line: Line, ip: Address, wild: bool, domain: string)
    requires Mentioned(parse, lines + [line], ip, wild, domain)
    ensures Mentioned(parse, lines, ip, wild, domain) || (parse(line.address) == Some(ip) && NamedIn(line.names, wild, domain))
  {
    var all := lines + [line];
    var k: nat, n: nat :| MentionAt(parse, all, k, n, ip, wild, domain);
    if k < |lines| {
      assert MentionAt(parse, lines, k, n, ip, wild, domain);
    } else {
      assert all[k] == line;
    }
  }

  lemma {:induction false} AliasesKeepIndex(x: Index, target: string, names: seq<string>)
    ensures var y := AliasesAdded(x, target, names); y.forward == x.forward && y.wild == x.wild && y.reverse == x.reverse
    decreases |names|
  {
    if names != [] { AliasesKeepIndex(x, target, names[..|names| - 1]); }
  }

  /** Names without a star are in the forward index and the others in the wildcard index, each with exactly
      the addresses of the lines that mention it. */
  lemma {:induction false} IndexedIff(parse: Parser, lines: seq<Line>, ip: Address, wild: bool, domain: string)
    ensures ip in At(IndexFor(Loaded(parse, lines), wild), domain, []) <==> Mentioned(parse, lines, ip, wild, domain)
    decreases |lines|
  {
    if lines != [] {
      var init, last := lines[..|lines| - 1], lines[|lines| - 1];
      IndexedIff(parse, init, ip, wild, domain);
      assert lines == init + [last];
      MentionedSnoc(parse, init, last, ip, wild, domain);
      var x := Loaded(parse, init);
      match parse(last.address)
      case Some(other) => NamesAddedHold(x.(reverse := x.reverse[ReverseName(other) := last.names]), other, last.names, ip, wild, domain);
      case None => AliasesKeepIndex(x, last.address, last.names);
    }
  }

  // ---- aliases ----

  /** Every alias of the file with its target, in file order. */
  function Paired(target: string, names: seq<string>): (r: seq<(string, string)>) {
    if names == [] then [] else Paired(target, names[..|names| - 1]) + [(names[|names| - 1], target)]
  }

  function AliasPairs(parse: Parser, lines: seq<Line>): (r: seq<(string, string)>) {
    if lines == [] then []
    else
      var last := lines[|lines| - 1];
      AliasPairs(parse, lines[..|lines| - 1]) + if parse(last.address).None? then Paired(last.address, last.names) else []
  }

  predicate WrittenBare(pair: (string, string), key: string) {
    !EndsInDot(pair.0) && pair.0 + "." == key
  }

  predicate WrittenFull(pair: (string, string), key: string) {
    EndsInDot(pair.0) && pair.0 == key
  }

  /** The `i`-th alias decides the target of a name: the last one that writes it without its final dot, or,
      if none does, the first one that writes it with it. */
  ghost predicate Decides(pairs: seq<(string, string)>, i: nat, key: string) {
    && i < |pairs|
    && (|| (WrittenBare(pairs[i], key) && forall j :: i < j < |pairs| ==> !WrittenBare(pairs[j], key))
        || (WrittenFull(pairs[i], key) && (forall j :: 0 <= j < |pairs| ==> !WrittenBare(pairs[j], key))
            && forall j :: 0 <= j < i ==> !WrittenFull(pairs[j], key)))
  }

  ghost predicate Targets(pairs: seq<(string, string)>, key: string, target: string) {
    exists i: nat :: Decides(pairs, i, key) && Fqdn(pairs[i].1) == target
  }

  ghost predicate Aliased(pairs: seq<(string, string)>, key: string) {
    exists i: nat :: Decides(pairs, i, key)
  }

  /** The alias table after the pairs. */
  function TargetOf(pairs: seq<(string, string)>, key: string): (r: Option<string>) {
    if pairs == [] then None
    else
      var before, last := TargetOf(pairs[..|pairs| - 1], key), pairs[|pairs| - 1];
      if WrittenBare(last, key) || (WrittenFull(last, key) && before.None?) then Some(Fqdn(last.1)) else before
  }

  lemma {:induction false} UnwrittenHasNone(pairs: seq<(string, string)>, key: string)
    requires forall j :: 0 <= j < |pairs| ==> !WrittenBare(pairs[j], key) && !WrittenFull(pairs[j], key)
    ensures TargetOf(pairs, key).None?
    decreases |pairs|
  {
    if pairs != [] {
      assert pairs[|pairs| - 1] == pairs[|pairs| - 1];
      UnwrittenHasNone(pairs[..|pairs| - 1], key);
    }
  }

  /** A decisive alias stays so when an alias that writes the name otherwise follows. */
  lemma DecidesBefore(pairs: seq<(string, string)>, i: nat, key: string)
    requires pairs != [] && i < |pairs| - 1 && Decides(pairs, i, key)
    ensures Decides(pairs[..|pairs| - 1], i, key) && !WrittenBare(pairs[|pairs| - 1], key)
  {
    var init := pairs[..|pairs| - 1];
    assert forall j :: 0 <= j < |init| ==> init[j] == pairs[j];
  }

  lemma {:induction false} DecidedTarget(pairs: seq<(string, string)>, i: nat, key: string)
    requires Decides(pairs, i, key)
    ensures TargetOf(pairs, key) == Some(Fqdn(pairs[i].1))
    decreases |pairs|
  {
    var init, last := pairs[..|pairs| - 1], pairs[|pairs| - 1];
    if i < |init| {
      DecidesBefore(pairs, i, key);
      DecidedTarget(init, i, key);
    } else if !WrittenBare(last, key) {
      assert forall j :: 0 <= j < |init| ==> init[j] == pairs[j];
      UnwrittenHasNone(init, key);
    }
  }

  lemma DecidesAfter(pairs: seq<(string, string)>, i: nat, key: string)
    requires pairs != [] && Decides(pairs[..|pairs| - 1], i, key) && !WrittenBare(pairs[|pairs| - 1], key)
    ensures Decides(pairs, i, key)
  {
    var init := pairs[..|pairs| - 1];
    assert forall j :: 0 <= j < |init| ==> init[j] == pairs[j];
  }

  lemma {:induction false} SomeDecides(pairs: seq<(string, string)>, key: string)
    requires TargetOf(pairs, key).Some?
    ensures Aliased(pairs, key)
    decreases |pairs|
  {
    var init, last := pairs[..|pairs| - 1], pairs[|pairs| - 1];
    if WrittenBare(last, key) {
      assert Decides(pairs, |pairs| - 1, key);
    } else if TargetOf(init, key).Some? {
      SomeDecides(init, key);
      var i: nat :| Decides(init, i, key);
      DecidesAfter(pairs, i, key);
    } else {
      NoneIsUnwritten(init, key);
      assert forall j :: 0 <= j < |init| ==> pairs[j] == init[j];
      assert Decides(pairs, |pairs| - 1, key);
    }
  }

  lemma {:induction false} NoneIsUnwritten(pairs: seq<(string, string)>, key: string)
    requires TargetOf(pairs, key).None?
    ensures forall j :: 0 <= j < |pairs| ==> !WrittenBare(pairs[j], key) && !WrittenFull(pairs[j], key)
    decreases |pairs|
  {
    if pairs != [] {
      var init := pairs[..|pairs| - 1];
      NoneIsUnwritten(init, key);
      assert forall j :: 0 <= j < |init| ==> pairs[j] == init[j];
    }
  }

  lemma AliasStep(pairs: seq<(string, string)>, target: string, alias: string, x: Index, key: string)
    requires FullNames(x.aliases) && TargetOf(pairs, key) == Entry(x.aliases, key)
    ensures TargetOf(pairs + [(alias, target)], key) == Entry(AliasAdded(x, target, alias).aliases, key)
  {
    assert (pairs + [(alias, target)])[..|pairs|] == pairs;
  }

  lemma {:induction false} TargetConcat(pairs: seq<(string, string)>, target: string, names: seq<string>, x: Index, key: string)
    requires FullNames(x.aliases) && TargetOf(pairs, key) == Entry(x.aliases, key)
    ensures TargetOf(pairs + Paired(target, names), key) == Entry(AliasesAdded(x, target, names).aliases, key)
    decreases |names|
  {
    if names == [] {
      assert pairs + Paired(target, names) == pairs;
    } else {
      var init, last := names[..|names| - 1], names[|names| - 1];
      TargetConcat(pairs, target, init, x, key);
      AliasesKeepFullNames(x, target, init);
      assert pairs + Paired(target, names) == pairs + Paired(target, init) + [(last, target)];
      AliasStep(pairs + Paired(target, init), target, last, AliasesAdded(x, target, init), key);
    }
  }

  function Entry(aliases: map<string, string>, key: string): (r: Option<string>) {
    if key in aliases then Some(aliases[key]) else None
  }

  lemma {:induction false} AliasesFollowPairs(parse: Parser, lines: seq<Line>, key: string)
    ensures Entry(Loaded(parse, lines).aliases, key) == TargetOf(AliasPairs(parse, lines), key)
    decreases |lines|
  {
    if lines != [] {
      var init, last := lines[..|lines| - 1], lines[|lines| - 1];
      AliasesFollowPairs(parse, init, key);
      AliasesAreFullNames(parse, init);
      var x := Loaded(parse, init);
      match parse(last.address)
      case Some(ip) =>
        NamesKeepAliases(x.(reverse := x.reverse[ReverseName(ip) := last.names]), ip, last.names);
        assert AliasPairs(parse, init) + [] == AliasPairs(parse, init);
      case None => TargetConcat(AliasPairs(parse, init), last.address, last.names, x, key);
    }
  }

  /** A name is an alias exactly when one alias of the file decides, and then it has that alias's target. */
  lemma AliasIff(parse: Parser, lines: seq<Line>, key: string, target: string)
    ensures var x, pairs := Loaded(parse, lines), AliasPairs(parse, lines);
            && (key in x.aliases <==> Aliased(pairs, key))
            && (key in x.aliases && x.aliases[key] == target <==> Targets(pairs, key, target))
  {
    var pairs := AliasPairs(parse, lines);
    AliasesFollowPairs(parse, lines, key);
    if TargetOf(pairs, key).Some? {
      SomeDecides(pairs, key);
      var i: nat :| Decides(pairs, i, key);
      DecidedTarget(pairs, i, key);
    }
    if Aliased(pairs, key) {
      var i: nat :| Decides(pairs, i, key);
      DecidedTarget(pairs, i, key);
    }
    if Targets(pairs, key, target) {
      var i: nat :| Decides(pairs, i, key) && Fqdn(pairs[i].1) == target;
      DecidedTarget(pairs, i, key);
    }
  }

  // ---- reverse names ----

  predicate HasReverse(parse: Parser, line: Line, name: string) {
    parse(line.address).Some? && ReverseName(parse(line.address).value) == name
  }

  /** Line `k` is the last one of its kind. */
  ghost predicate LastWhere(kind: Line -> bool, lines: seq<Line>, k: nat) {
    k < |lines| && kind(lines[k]) && forall j :: k < j < |lines| ==> !kind(lines[j])
  }

  function ByReverse(parse: Parser, name: string): (r: Line -> bool) {
    line => HasReverse(parse, line, name)
  }

  /** Line `k` is the last one of the address with this reverse lookup name. */
  ghost predicate LastOf(parse: Parser, lines: seq<Line>, k: nat, name: string) {
    LastWhere(ByReverse(parse, name), lines, k)
  }

  ghost predicate Points(parse: Parser, lines: seq<Line>, name: string, target: string) {
    exists k: nat, n: nat :: LastOf(parse, lines, k, name) && n < |lines[k].names| && PointsTo(lines[k].names[n], target)
  }

  predicate PointsTo(name: string, target: string) {
    name != "" && Fqdn(name) == target
  }

  lemma {:induction false} NamesKeepReverse(x: Index, ip: Address, names: seq<string>)
    ensures NamesAdded(x, ip, names).reverse == x.reverse
    decreases |names|
  {
    if names != [] { NamesKeepReverse(x, ip, names[..|names| - 1]); }
  }

  /** The reverse index as a fold over the lines. */
  ghost function LastEntry(parse: Parser, lines: seq<Line>, name: string): (r: Option<seq<string>>) {
    if lines == [] then None
    else if HasReverse(parse, lines[|lines| - 1], name) then Some(lines[|lines| - 1].names)
    else LastEntry(parse, lines[..|lines| - 1], name)
  }

  lemma SetReverse(reverse: map<string, seq<string>>, ptr: string, names: seq<string>, name: string)
    ensures var after := reverse[ptr := names];
            EntryOf(after, name) == if ptr == name then Some(names) else EntryOf(reverse, name)
  {
  }

  function EntryOf(reverse: map<string, seq<string>>, name: string): (r: Option<seq<string>>) {
    if name in reverse then Some(reverse[name]) else None
  }

  lemma {:induction false} ReverseIsLastEntry(parse: Parser, lines: seq<Line>, name: string)
    ensures EntryOf(Loaded(parse, lines).reverse, name) == LastEntry(parse, lines, name)
    decreases |lines|
  {
    if lines != [] {
      var last := lines[|lines| - 1];
      var x := Loaded(parse, lines[..|lines| - 1]);
      ReverseIsLastEntry(parse, lines[..|lines| - 1], name);
      match parse(last.address)
      case Some(ip) =>
        SetReverse(x.reverse, ReverseName(ip), last.names, name);
        NamesKeepReverse(x.(reverse := x.reverse[ReverseName(ip) := last.names]), ip, last.names);
      case None => AliasesKeepIndex(x, last.address, last.names);
    }
  }

  lemma LastWhereSnoc(kind: Line -> bool, lines: seq<Line>, k: nat)
    requires lines != []
    ensures LastWhere(kind, lines, k) <==> if kind(lines[|lines| - 1]) then k == |lines| - 1 else LastWhere(kind, lines[..|lines| - 1], k)
  {
    var init := lines[..|lines| - 1];
    assert forall j :: 0 <= j < |init| ==> init[j] == lines[j];
  }

  lemma {:induction false} LastEntryOf(parse: Parser, lines: seq<Line>, k: nat, name: string)
    requires LastOf(parse, lines, k, name)
    ensures LastEntry(parse, lines, name) == Some(lines[k].names)
    decreases |lines|
  {
    LastWhereSnoc(ByReverse(parse, name), lines, k);
    if !HasReverse(parse, lines[|lines| - 1], name) { LastEntryOf(parse, lines[..|lines| - 1], k, name); }
  }

  lemma {:induction false} SomeLineIsLast(parse: Parser, lines: seq<Line>, name: string) returns (k: nat)
    requires LastEntry(parse, lines, name).Some?
    ensures LastOf(parse, lines, k, name)
    decreases |lines|
  {
    if HasReverse(parse, lines[|lines| - 1], name) {
      k := |lines| - 1;
    } else {
      k := SomeLineIsLast(parse, lines[..|lines| - 1], name);
    }
    LastWhereSnoc(ByReverse(parse, name), lines, k);
  }

  lemma {:induction false} PtrDataIff(names: seq<string>, d: Data)
    ensures d in PtrData(names) <==> d.Ptr? && exists n: nat :: n < |names| && PointsTo(names[n], d.target)
    decreases |names|
  {
    if names != [] {
      var init, last := names[..|names| - 1], names[|names| - 1];
      PtrDataIff(init, d);
      assert names == init + [last];
      if d in PtrData(init) {
        var n: nat :| n < |init| && PointsTo(init[n], d.target);
        assert PointsTo(names[n], d.target);
      }
      if d.Ptr? && PointsTo(last, d.target) { assert PointsTo(names[|names| - 1], d.target); }
      if d.Ptr? && exists n: nat :: n < |names| && PointsTo(names[n], d.target) {
        var n: nat :| n < |names| && PointsTo(names[n], d.target);
        if n < |init| { assert PointsTo(init[n], d.target); }
      }
    }
  }

  /** Reverse lookup: the non-empty names of the last line of the address, and no others. */
  lemma PointsIff(parse: Parser, lines: seq<Line>, name: string, d: Data)
    ensures d in PtrData(At(Loaded(parse, lines).reverse, name, [])) <==> d.Ptr? && Points(parse, lines, name, d.target)
  {
    var names := At(Loaded(parse, lines).reverse, name, []);
    ReverseIsLastEntry(parse, lines, name);
    PtrDataIff(names, d);
    if d in PtrData(names) {
      var n: nat :| n < |names| && PointsTo(names[n], d.target);
      var k := SomeLineIsLast(parse, lines, name);
      LastEntryOf(parse, lines, k, name);
      assert n < |lines[k].names| && PointsTo(lines[k].names[n], d.target);
    }
    if d.Ptr? && Points(parse, lines, name, d.target) {
      var k: nat, n: nat :| LastOf(parse, lines, k, name) && n < |lines[k].names| && PointsTo(lines[k].names[n], d.target);
      LastEntryOf(parse, lines, k, name);
      assert names == lines[k].names;
    }
  }

  // ---- records of addresses ----

  /** The record of an address that a question of the type gets: 1 asks for IPv4 and 28 for IPv6. */
  predicate FitsType(d: Data, qtype: nat) {
    (d.A? && qtype == 1 && IsV4(d.ip)) || (d.Aaaa? && qtype == 28 && !IsV4(d.ip))
  }

  lemma {:induction false} AddressDataIff(ips: seq<Address>, qtype: nat, d: Data)
    ensures d in AddressData(ips, qtype) <==> FitsType(d, qtype) && d.ip in ips
    decreases |ips|
  {
    if ips != [] {
      AddressDataIff(ips[..|ips| - 1], qtype, d);
      assert ips == ips[..|ips| - 1] + [ips[|ips| - 1]];
    }
  }

  ghost predicate WildMatch(x: Index, glob: (string, string) -> bool, order: seq<string>, name: string, ip: Address) {
    exists i: nat :: i < |order| && WildHit(x, glob, order[i], name, ip)
  }

  predicate WildHit(x: Index, glob: (string, string) -> bool, pattern: string, name: string, ip: Address) {
    pattern in x.wild && glob(pattern, name) && ip in x.wild[pattern]
  }

  lemma WildMatchSnoc(x: Index, glob: (string, string) -> bool, order: seq<string>, name: string, ip: Address)
    requires order != []
    ensures WildMatch(x, glob, order, name, ip) <==>
            WildMatch(x, glob, order[..|order| - 1], name, ip) || WildHit(x, glob, order[|order| - 1], name, ip)
  {
    var init := order[..|order| - 1];
    if WildMatch(x, glob, init, name, ip) {
      var i: nat :| i < |init| && WildHit(x, glob, init[i], name, ip);
      assert WildHit(x, glob, order[i], name, ip);
    }
    if WildMatch(x, glob, order, name, ip) {
      var i: nat :| i < |order| && WildHit(x, glob, order[i], name, ip);
      if i < |init| { assert WildHit(x, glob, init[i], name, ip); }
    }
  }

  lemma {:induction false} WildDataIff(x: Index, glob: (string, string) -> bool, order: seq<string>, name: string, qtype: nat, d: Data)
    ensures d in WildData(x, glob, order, name, qtype) <==> FitsType(d, qtype) && WildMatch(x, glob, order, name, d.ip)
    decreases |order|
  {
    if order != [] {
      var init, last := order[..|order| - 1], order[|order| - 1];
      WildDataIff(x, glob, init, name, qtype, d);
      if last in x.wild { AddressDataIff(x.wild[last], qtype, d); }
      if FitsType(d, qtype) { WildMatchSnoc(x, glob, order, name, d.ip); }
    }
  }

  /** Some line gives the address to a pattern that matches the name. */
  ghost predicate Globbed(parse: Parser, lines: seq<Line>, glob: (string, string) -> bool, ip: Address, name: string) {
    exists k: nat, n: nat :: Names(parse, lines, k, n, ip, true) && glob(Fqdn(lines[k].names[n]), name)
  }

  lemma GlobbedIff(parse: Parser, lines: seq<Line>, glob: (string, string) -> bool, order: seq<string>, name: string, ip: Address)
    requires forall p :: p in Loaded(parse, lines).wild ==> p in order
    ensures WildMatch(Loaded(parse, lines), glob, order, name, ip) <==> Globbed(parse, lines, glob, ip, name)
  {
    var x := Loaded(parse, lines);
    if WildMatch(x, glob, order, name, ip) {
      var i: nat :| i < |order| && WildHit(x, glob, order[i], name, ip);
      IndexedIff(parse, lines, ip, true, order[i]);
      var k: nat, n: nat :| MentionAt(parse, lines, k, n, ip, true, order[i]);
      assert Names(parse, lines, k, n, ip, true) && glob(Fqdn(lines[k].names[n]), name);
    }
    if Globbed(parse, lines, glob, ip, name) {
      var k: nat, n: nat :| Names(parse, lines, k, n, ip, true) && glob(Fqdn(lines[k].names[n]), name);
      var p := Fqdn(lines[k].names[n]);
      assert MentionAt(parse, lines, k, n, ip, true, p);
      IndexedIff(parse, lines, ip, true, p);
      assert p in x.wild && p in order;
      var i: nat :| i < |order| && order[i] == p;
      assert WildHit(x, glob, order[i], name, ip);
    }
  }

  // ---- the whole answer ----

  /** What the file says of a name, to a question of the type: 1 is A, 5 CNAME, 12 PTR, 28 AAAA, 255 ANY. */
  ghost predicate Says(parse: Parser, lines: seq<Line>, glob: (string, string) -> bool, name: string, qtype: nat, d: Data) {
    match d
    case Cname(target) => qtype in {1, 5, 28, 255} && Targets(AliasPairs(parse, lines), name, target)
    case Ptr(target) => qtype in {12, 255} && Points(parse, lines, name, target)
    case _ =>
      && FitsType(d, qtype) && !Aliased(AliasPairs(parse, lines), name)
      && (Globbed(parse, lines, glob, d.ip, name) || Mentioned(parse, lines, d.ip, false, name))
  }

  lemma CnameDataIff(parse: Parser, lines: seq<Line>, name: string, d: Data)
    ensures var x := Loaded(parse, lines); d in CnameData(x, name) <==> d.Cname? && Targets(AliasPairs(parse, lines), name, d.target)
    ensures var x := Loaded(parse, lines); CnameData(x, name) == [] <==> !Aliased(AliasPairs(parse, lines), name)
  {
    var x := Loaded(parse, lines);
    AliasesFollowPairs(parse, lines, name);
    AliasesAreDotted(parse, lines, name);
    AliasIff(parse, lines, name, if d.Cname? then d.target else "");
  }

  lemma {:induction false} TargetIsDotted(pairs: seq<(string, string)>, key: string)
    ensures TargetOf(pairs, key).Some? ==> EndsInDot(TargetOf(pairs, key).value)
    decreases |pairs|
  {
    if pairs != [] { TargetIsDotted(pairs[..|pairs| - 1], key); }
  }

  lemma AliasesAreDotted(parse: Parser, lines: seq<Line>, key: string)
    ensures var x := Loaded(parse, lines); key in x.aliases ==> Fqdn(x.aliases[key]) == x.aliases[key]
  {
    AliasesFollowPairs(parse, lines, key);
    TargetIsDotted(AliasPairs(parse, lines), key);
  }

  lemma AddressesIff(parse: Parser, lines: seq<Line>, glob: (string, string) -> bool, order: seq<string>, name: string, qtype: nat, d: Data)
    requires forall p :: p in Loaded(parse, lines).wild ==> p in order
    ensures var x := Loaded(parse, lines);
            d in WildData(x, glob, order, name, qtype) + AddressData(At(x.forward, name, []), qtype) <==>
            FitsType(d, qtype) && (Globbed(parse, lines, glob, d.ip, name) || Mentioned(parse, lines, d.ip, false, name))
  {
    var x := Loaded(parse, lines);
    WildDataIff(x, glob, order, name, qtype, d);
    AddressDataIff(At(x.forward, name, []), qtype, d);
    if FitsType(d, qtype) {
      GlobbedIff(parse, lines, glob, order, name, d.ip);
      IndexedIff(parse, lines, d.ip, false, name);
    }
  }

  lemma {:induction false} OwnedIff(owner: string, data: seq<Data>, a: Answer)
    ensures a in Owned(owner, data) <==> a.owner == owner && a.ttl == 60 && a.data in data
    decreases |data|
  {
    if data != [] {
      OwnedIff(owner, data[..|data| - 1], a);
      assert data == data[..|data| - 1] + [data[|data| - 1]];
    }
  }

  lemma SectionsIff(parse: Parser, lines: seq<Line>, glob: (string, string) -> bool, order: seq<string>, name: string, qtype: nat, d: Data)
    requires forall p :: p in Loaded(parse, lines).wild ==> p in order
    requires qtype in {1, 5, 12, 28, 255}
    ensures d in Sections(Loaded(parse, lines), glob, order, name, qtype) <==> Says(parse, lines, glob, name, qtype, d)
  {
    CnameDataIff(parse, lines, name, d);
    AddressesIff(parse, lines, glob, order, name, qtype, d);
    PointsIff(parse, lines, name, d);
  }

  /** For every file, question and walk over the wildcards: exactly the questions of the five types are
      answered, and the answer holds a record exactly when the file says so.  Records have the asked spelling
      as owner and live a minute.  An alias answers in place of addresses; a name has the addresses of the
      lines that write it and of the lines whose pattern matches it; ANY gets no addresses. */
  lemma AnswersWhatTheFileSays(parse: Parser, lines: seq<Line>, glob: (string, string) -> bool, order: seq<string>,
                               asked: string, qtype: nat, a: Answer)
    requires forall p :: p in Loaded(parse, lines).wild ==> p in order
    ensures var r := Answers(Loaded(parse, lines), glob, order, asked, qtype);
            && (r.Some? <==> qtype in {1, 5, 12, 28, 255})
            && (r.Some? ==> (a in r.value <==> a.owner == asked && a.ttl == 60 && Says(parse, lines, glob, Lower(asked), qtype, a.data)))
  {
    if qtype in {1, 5, 12, 28, 255} {
      SectionsIff(parse, lines, glob, order, Lower(asked), qtype, a.data);
      OwnedIff(asked, Sections(Loaded(parse, lines), glob, order, Lower(asked), qtype), a);
    }
  }

  // ---- the order of addresses ----

  /** The record of an address in its own family. */
  function RecordOf(ip: Address, v4: bool): (r: Data) {
    if v4 then A(ip) else Aaaa(ip)
  }

  lemma {:induction false} FamilyInOrder(ips: seq<Address>, v4: bool)
    requires forall i :: 0 <= i < |ips| ==> IsV4(ips[i]) == v4
    ensures var d := AddressData(ips, if v4 then 1 else 28); |d| == |ips| && forall i :: 0 <= i < |ips| ==> d[i] == RecordOf(ips[i], v4)
    decreases |ips|
  {
    if ips != [] {
      var init := ips[..|ips| - 1];
      FamilyInOrder(init, v4);
      assert forall i :: 0 <= i < |init| ==> init[i] == ips[i];
      assert IsV4(ips[|ips| - 1]) == v4;
    }
  }

  lemma {:induction false} OwnedInOrder(owner: string, data: seq<Data>)
    ensures var r := Owned(owner, data); |r| == |data| && forall i :: 0 <= i < |data| ==> r[i] == Answer(owner, 60, data[i])
    decreases |data|
  {
    if data != [] { OwnedInOrder(owner, data[..|data| - 1]); }
  }

  lemma OnlyHostEntries(x: Index, glob: (string, string) -> bool, name: string, qtype: nat)
    requires CnameData(x, name) == [] && qtype in {1, 28}
    ensures Sections(x, glob, [], name, qtype) == AddressData(At(x.forward, name, []), qtype)
  {
    assert WildData(x, glob, [], name, qtype) == [];
    assert [] + ([] + AddressData(At(x.forward, name, []), qtype)) + [] == AddressData(At(x.forward, name, []), qtype);
  }

  /** Without aliases and patterns in the way, a name with addresses of one family is answered with exactly
      the addresses the file gives it, in file order. */
  lemma AddressesInFileOrder(parse: Parser, lines: seq<Line>, glob: (string, string) -> bool, asked: string, v4: bool)
    requires !Aliased(AliasPairs(parse, lines), Lower(asked)) && Loaded(parse, lines).wild == map[]
    requires var ips := Mentions(parse, lines, Lower(asked)); forall i :: 0 <= i < |ips| ==> IsV4(ips[i]) == v4
    ensures var ips := Mentions(parse, lines, Lower(asked));
            var r := Answers(Loaded(parse, lines), glob, [], asked, if v4 then 1 else 28).value;
            |r| == |ips| && forall i :: 0 <= i < |ips| ==> r[i] == Answer(asked, 60, RecordOf(ips[i], v4))
  {
    var ips := Mentions(parse, lines, Lower(asked));
    ForwardIsMentions(parse, lines, Lower(asked));
    CnameDataIff(parse, lines, Lower(asked), Cname(""));
    FamilyInOrder(ips, v4);
    OwnedInOrder(asked, AddressData(ips, if v4 then 1 else 28));
    OnlyHostEntries(Loaded(parse, lines), glob, Lower(asked), if v4 then 1 else 28);
  }
}
