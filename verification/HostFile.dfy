/** The hosts file source: its forward, wildcard, alias and reverse indexes and the answers drawn from
    them (resolver/hostfile_source.go). */
module HostFile {
  import opened Text
  import Dns
  import opened Reverse
  import opened HostLines

  datatype Index = Index(forward: map<string, seq<Address>>, wild: map<string, seq<Address>>,
                         aliases: map<string, string>, reverse: map<string, seq<string>>)

  const EMPTY := Index(map[], map[], map[], map[])

  type Parser = string -> Option<Address>

  function NameAdded(x: Index, ip: Address, name: string): (r: Index) {
    if '*' in name then x.(wild := x.wild[Fqdn(name) := At(x.wild, Fqdn(name), []) + [ip]])
    else x.(forward := x.forward[Fqdn(name) := At(x.forward, Fqdn(name), []) + [ip]])
  }

  function NamesAdded(x: Index, ip: Address, names: seq<string>): (r: Index) {
    if names == [] then x else NameAdded(NamesAdded(x, ip, names[..|names| - 1]), ip, names[|names| - 1])
  }

  /** The guard looks the alias up as written, the entry is stored under its full name. */
  function AliasAdded(x: Index, target: string, alias: string): (r: Index) {
    if At(x.aliases, alias, "") == "" then x.(aliases := x.aliases[Fqdn(alias) := Fqdn(target)]) else x
  }

  function AliasesAdded(x: Index, target: string, names: seq<string>): (r: Index) {
    if names == [] then x else AliasAdded(AliasesAdded(x, target, names[..|names| - 1]), target, names[|names| - 1])
  }

  function LineAdded(parse: Parser, x: Index, line: Line): (r: Index) {
    match parse(line.address)
    case Some(ip) => NamesAdded(x.(reverse := x.reverse[ReverseName(ip) := line.names]), ip, line.names)
    case None => AliasesAdded(x, line.address, line.names)
  }

  function Loaded(parse: Parser, lines: seq<Line>): (r: Index) {
    if lines == [] then EMPTY else LineAdded(parse, Loaded(parse, lines[..|lines| - 1]), lines[|lines| - 1])
  }

  class HostFileSource {
    var hostEntries: map<string, seq<Address>>
    var cnameEntries: map<string, string>
    var reverseLookup: map<string, seq<string>>
    var dnsWildcards: map<string, seq<Address>>

    ghost function Contents(): (r: Index)
      reads this
    {
      Index(hostEntries, dnsWildcards, cnameEntries, reverseLookup)
    }

    constructor ()
      ensures Contents() == EMPTY
    {
      hostEntries, dnsWildcards, cnameEntries, reverseLookup := map[], map[], map[], map[];
    }

    method AddName(ip: Address, name: string)
      modifies this`hostEntries, this`dnsWildcards
      ensures Contents() == NameAdded(old(Contents()), ip, name)
    {
      var domain := Fqdn(name);
      if '*' !in name {
        hostEntries := hostEntries[domain := At(hostEntries, domain, []) + [ip]];
      } else {
        dnsWildcards := dnsWildcards[domain := At(dnsWildcards, domain, []) + [ip]];
      }
    }

    method AddNames(ip: Address, names: seq<string>)
      modifies this`hostEntries, this`dnsWildcards
      ensures Contents() == NamesAdded(old(Contents()), ip, names)
    {
      var i := 0;
      while i < |names|
        modifies this`hostEntries, this`dnsWildcards
        invariant 0 <= i <= |names|
        invariant Contents() == NamesAdded(old(Contents()), ip, names[..i])
      {
        assert names[..i + 1][..i] == names[..i];
        AddName(ip, names[i]);
        i := i + 1;
      }
      assert names[..i] == names;
    }

    method AddAddressLine(ip: Address, names: seq<string>)
      modifies this`hostEntries, this`dnsWildcards, this`reverseLookup
      ensures Contents() == NamesAdded(old(Contents()).(reverse := old(reverseLookup)[ReverseName(ip) := names]), ip, names)
    {
      var ptr := ReverseLookupDomain(Some(ip));
      reverseLookup := reverseLookup[ptr := names];
      AddNames(ip, names);
    }

    method AddAliasLine(target: string, names: seq<string>)
      modifies this`cnameEntries
      ensures Contents() == AliasesAdded(old(Contents()), target, names)
    {
      var i := 0;
      while i < |names|
        modifies this`cnameEntries
        invariant 0 <= i <= |names|
        invariant Contents() == AliasesAdded(old(Contents()), target, names[..i])
      {
        assert names[..i + 1][..i] == names[..i];
        if "" == At(cnameEntries, names[i], "") {
          cnameEntries := cnameEntries[Fqdn(names[i]) := Fqdn(target)];
        }
        i := i + 1;
      }
      assert names[..i] == names;
    }

    method AddLine(parse: Parser, line: Line)
      modifies this
      ensures Contents() == LineAdded(parse, old(Contents()), line)
    {
      match parse(line.address)
      case Some(ip) => AddAddressLine(ip, line.names);
      case None => AddAliasLine(line.address, line.names);
    }

    /** Starts from empty maps, whatever was loaded before. */
    method LoadArray(parse: Parser, data: seq<string>)
      modifies this
      ensures Contents() == Loaded(parse, LinesOf(data))
    {
      hostEntries, dnsWildcards, cnameEntries, reverseLookup := map[], map[], map[], map[];
      var i := 0;
      while i < |data|
        invariant 0 <= i <= |data|
        invariant Contents() == Loaded(parse, LinesOf(data[..i]))
      {
        var line := ReadLine(data[i]);
        LoadedLine(parse, data, i);
        if line.Some? {
          AddLine(parse, line.value);
        }
        i := i + 1;
      }
      assert data[..i] == data;
    }
  }

  /** Loading one more raw line. */
  lemma LoadedLine(parse: Parser, data: seq<string>, i: nat)
    requires i < |data|
    ensures var before, line := Loaded(parse, LinesOf(data[..i])), LineOf(data[i]);
            Loaded(parse, LinesOf(data[..i + 1])) == if line.Some? then LineAdded(parse, before, line.value) else before
  {
    LinesOfMore(data, i);
    LoadedMore(parse, LinesOf(data[..i]), LineOf(data[i]));
  }

  lemma LinesOfMore(data: seq<string>, i: nat)
    requires i < |data|
    ensures var line := LineOf(data[i]);
            LinesOf(data[..i + 1]) == LinesOf(data[..i]) + if line.Some? then [line.value] else []
  {
    assert data[..i + 1][..i] == data[..i];
  }

  lemma LoadedMore(parse: Parser, lines: seq<Line>, line: Option<Line>)
    ensures line.Some? ==> Loaded(parse, lines + [line.value]) == LineAdded(parse, Loaded(parse, lines), line.value)
    ensures lines + [] == lines
  {
    if line.Some? { assert (lines + [line.value])[..|lines|] == lines; }
  }

  // ---- what the forward index holds ----

  function NamedTimes(names: seq<string>, ip: Address, domain: string): (r: seq<Address>) {
    if names == [] then []
    else
      var last := names[|names| - 1];
      NamedTimes(names[..|names| - 1], ip, domain) + if '*' !in last && Fqdn(last) == domain then [ip] else []
  }

  /** The addresses a file gives a domain, in file order. */
  function Mentions(parse: Parser, lines: seq<Line>, domain: string): (r: seq<Address>) {
    if lines == [] then []
    else
      var last := lines[|lines| - 1];
      Mentions(parse, lines[..|lines| - 1], domain) +
      match parse(last.address)
      case Some(ip) => NamedTimes(last.names, ip, domain)
      case None => []
  }

  lemma {:induction false} NamesAddMentions(x: Index, ip: Address, names: seq<string>, domain: string)
    ensures var y := NamesAdded(x, ip, names);
            At(y.forward, domain, []) == At(x.forward, domain, []) + NamedTimes(names, ip, domain) && y.reverse == x.reverse
    decreases |names|
  {
    if names != [] { NamesAddMentions(x, ip, names[..|names| - 1], domain); }
  }

  lemma {:induction false} AliasesKeepAddresses(x: Index, target: string, names: seq<string>)
    ensures var y := AliasesAdded(x, target, names); y.forward == x.forward && y.reverse == x.reverse
    decreases |names|
  {
    if names != [] { AliasesKeepAddresses(x, target, names[..|names| - 1]); }
  }

  /** After loading, a domain's forward entry is every address the file gives it, in file order. */
  lemma {:induction false} ForwardIsMentions(parse: Parser, lines: seq<Line>, domain: string)
    ensures At(Loaded(parse, lines).forward, domain, []) == Mentions(parse, lines, domain)
    decreases |lines|
  {
    if lines != [] {
      var init, last := lines[..|lines| - 1], lines[|lines| - 1];
      ForwardIsMentions(parse, init, domain);
      var x := Loaded(parse, init);
      match parse(last.address)
      case Some(ip) => NamesAddMentions(x.(reverse := x.reverse[ReverseName(ip) := last.names]), ip, last.names, domain);
      case None => AliasesKeepAddresses(x, last.address, last.names);
    }
  }

  // ---- what the reverse index holds ----

  /** The names on the last line of an address. */
  function LastNames(parse: Parser, lines: seq<Line>, ip: Address): (r: Option<seq<string>>) {
    if lines == [] then None
    else
      var last := lines[|lines| - 1];
      if parse(last.address) == Some(ip) then Some(last.names) else LastNames(parse, lines[..|lines| - 1], ip)
  }

  /** No two addresses share a reverse entry: an address has the names of its own last line. */
  lemma {:induction false} ReverseIsLastLine(parse: Parser, lines: seq<Line>, ip: Address)
    ensures var reverse := Loaded(parse, lines).reverse;
            LastNames(parse, lines, ip) == if ReverseName(ip) in reverse then Some(reverse[ReverseName(ip)]) else None
    decreases |lines|
  {
    if lines != [] {
      var init, last := lines[..|lines| - 1], lines[|lines| - 1];
      ReverseIsLastLine(parse, init, ip);
      var x := Loaded(parse, init);
      match parse(last.address)
      case Some(other) =>
        ReverseNameInjective(ip, other);
        NamesAddMentions(x.(reverse := x.reverse[ReverseName(other) := last.names]), other, last.names, "");
      case None => AliasesKeepAddresses(x, last.address, last.names);
    }
  }

  lemma {:induction false} NamedIsMentioned(names: seq<string>, ip: Address, name: string)
    requires name in names && '*' !in name
    ensures ip in NamedTimes(names, ip, Fqdn(name))
    decreases |names|
  {
    if names[|names| - 1] != name {
      assert names == names[..|names| - 1] + [names[|names| - 1]];
      NamedIsMentioned(names[..|names| - 1], ip, name);
    }
  }

  lemma {:induction false} LastNamesAreMentioned(parse: Parser, lines: seq<Line>, ip: Address, name: string)
    requires LastNames(parse, lines, ip).Some? && name in LastNames(parse, lines, ip).value && '*' !in name
    ensures ip in Mentions(parse, lines, Fqdn(name))
    decreases |lines|
  {
    var init, last := lines[..|lines| - 1], lines[|lines| - 1];
    if parse(last.address) == Some(ip) {
      NamedIsMentioned(last.names, ip, name);
    } else {
      LastNamesAreMentioned(parse, init, ip, name);
    }
  }

  /** Every name in the reverse entry of an address that is no wildcard has the address in its forward entry. */
  lemma ReverseNamesResolveForward(parse: Parser, lines: seq<Line>, ip: Address, name: string)
    requires ReverseName(ip) in Loaded(parse, lines).reverse
    requires name in Loaded(parse, lines).reverse[ReverseName(ip)] && '*' !in name
    ensures Fqdn(name) in Loaded(parse, lines).forward && ip in Loaded(parse, lines).forward[Fqdn(name)]
  {
    ReverseIsLastLine(parse, lines, ip);
    LastNamesAreMentioned(parse, lines, ip, name);
    ForwardIsMentions(parse, lines, Fqdn(name));
  }

  // ---- the root domain ----

  lemma {:induction false} NamedRootIff(names: seq<string>, ip: Address, other: Address)
    ensures ip in NamedTimes(names, other, ".") <==> ip == other && ("" in names || "." in names)
    decreases |names|
  {
    if names != [] {
      var last := names[|names| - 1];
      NamedRootIff(names[..|names| - 1], ip, other);
      assert names == names[..|names| - 1] + [last];
      assert Fqdn(last) == "." <==> last == "" || last == ".";
    }
  }

  /** A line that gives an address to the root domain: it ends in a blank once its comment is cut off, or
      it names the root itself. */
  predicate NamesRoot(parse: Parser, d: string, ip: Address) {
    var line := LineOf(d);
    && line.Some? && parse(line.value.address) == Some(ip)
    && (Conditioned(d)[|Conditioned(d)| - 1] == ' ' || "." in line.value.names)
  }

  ghost predicate SomeNamesRoot(parse: Parser, data: seq<string>, ip: Address) {
    exists k :: 0 <= k < |data| && NamesRoot(parse, data[k], ip)
  }

  lemma SomeNamesRootSnoc(parse: Parser, data: seq<string>, d: string, ip: Address)
    ensures SomeNamesRoot(parse, data + [d], ip) <==> SomeNamesRoot(parse, data, ip) || NamesRoot(parse, d, ip)
  {
    var all := data + [d];
    if SomeNamesRoot(parse, data, ip) {
      var k :| 0 <= k < |data| && NamesRoot(parse, data[k], ip);
      assert NamesRoot(parse, all[k], ip);
    }
    if NamesRoot(parse, d, ip) { assert NamesRoot(parse, all[|data|], ip); }
  }

  lemma {:induction false} RootIsMentionedIff(parse: Parser, data: seq<string>, ip: Address)
    ensures ip in Mentions(parse, LinesOf(data), ".") <==> SomeNamesRoot(parse, data, ip)
    decreases |data|
  {
    if data != [] {
      var init, d := data[..|data| - 1], data[|data| - 1];
      RootIsMentionedIff(parse, init, ip);
      assert data == init + [d];
      SomeNamesRootSnoc(parse, init, d, ip);
      RootMentionedSnoc(parse, init, d, ip);
    }
  }

  lemma RootMentionedSnoc(parse: Parser, data: seq<string>, d: string, ip: Address)
    ensures ip in Mentions(parse, LinesOf(data + [d]), ".") <==> ip in Mentions(parse, LinesOf(data), ".") || NamesRoot(parse, d, ip)
  {
    var all := data + [d];
    assert all[..|data|] == data && all[..|data| + 1] == all;
    LinesOfMore(all, |data|);
    RootStep(parse, LinesOf(data), d, ip);
  }

  lemma RootStep(parse: Parser, lines: seq<Line>, d: string, ip: Address)
    ensures var line := LineOf(d);
            ip in Mentions(parse, lines + (if line.Some? then [line.value] else []), ".") <==>
            ip in Mentions(parse, lines, ".") || NamesRoot(parse, d, ip)
  {
    var line := LineOf(d);
    if line.None? {
      assert lines + [] == lines;
    } else {
      assert (lines + [line.value])[..|lines|] == lines;
      EmptyNameIff(d);
      match parse(line.value.address)
      case Some(other) => NamedRootIff(line.value.names, ip, other);
      case None =>
    }
  }

  /** After loading, an address stands for the root domain exactly when some line of that address ends in a
      blank, before its comment, or names the root. */
  lemma RootIsNamedIff(parse: Parser, data: seq<string>, ip: Address)
    ensures ip in At(Loaded(parse, LinesOf(data)).forward, ".", []) <==> SomeNamesRoot(parse, data, ip)
  {
    ForwardIsMentions(parse, LinesOf(data), ".");
    RootIsMentionedIff(parse, data, ip);
  }

  lemma CommentedLine(address: string, name: string, comment: string)
    requires Clean(address) && address[0] != '*' && Clean(name)
    ensures LineOf(address + " " + name + " " + ['#'] + comment) == Some(Line(address, [name] + [""]))
  {
    CommentLeavesAnEmptyName(address, [name], comment);
    assert ([address] + [name])[1..] == [name] && Join([address] + [name], ' ') == address + " " + name;
  }

  lemma EmptyNameNamesRoot(parse: Parser, d: string, ip: Address)
    requires LineOf(d).Some? && parse(LineOf(d).value.address) == Some(ip) && "" in LineOf(d).value.names
    ensures NamesRoot(parse, d, ip)
  {
    EmptyNameIff(d);
  }

  /** A file of one commented line gives the root domain an address. */
  lemma CommentNamesTheRoot(parse: Parser, address: string, name: string, comment: string, ip: Address)
    requires Clean(address) && address[0] != '*' && Clean(name) && parse(address) == Some(ip)
    ensures ip in At(Loaded(parse, LinesOf([address + " " + name + " " + ['#'] + comment])).forward, ".", [])
  {
    var d := address + " " + name + " " + ['#'] + comment;
    CommentedLine(address, name, comment);
    assert ([name] + [""])[1] == "";
    EmptyNameNamesRoot(parse, d, ip);
    assert NamesRoot(parse, [d][0], ip);
    RootIsNamedIff(parse, [d], ip);
  }

  // ---- answers ----

  const TYPE_A := 1
  const TYPE_PTR := 12
  const TYPE_AAAA := 28
  const TYPE_ANY := 255
  const TTL := 60

  datatype Data = A(ip: Address) | Aaaa(ip: Address) | Cname(target: string) | Ptr(target: string)

  /** All records are handed out under the name as it was asked. */
  datatype Answer = Answer(owner: string, ttl: nat, data: Data)

  /** The records of the addresses of the asked family; a question for ANY gets none. */
  function AddressData(ips: seq<Address>, qtype: nat): (r: seq<Data>) {
    if ips == [] then []
    else
      var last := ips[|ips| - 1];
      AddressData(ips[..|ips| - 1], qtype) +
      if qtype == TYPE_A && IsV4(last) then [A(last)] else if qtype == TYPE_AAAA && !IsV4(last) then [Aaaa(last)] else []
  }

  /** The wildcard entries that match, in the order in which the map is walked. */
  function WildData(x: Index, glob: (string, string) -> bool, order: seq<string>, name: string, qtype: nat): (r: seq<Data>) {
    if order == [] then []
    else
      var last := order[|order| - 1];
      WildData(x, glob, order[..|order| - 1], name, qtype) +
      if last in x.wild && glob(last, name) then AddressData(x.wild[last], qtype) else []
  }

  function PtrData(names: seq<string>): (r: seq<Data>) {
    if names == [] then [] else PtrData(names[..|names| - 1]) + if names[|names| - 1] == "" then [] else [Ptr(Fqdn(names[|names| - 1]))]
  }

  function CnameData(x: Index, name: string): (r: seq<Data>) {
    if name in x.aliases then [Cname(Fqdn(x.aliases[name]))] else []
  }

  function Owned(owner: string, data: seq<Data>): (r: seq<Answer>) {
    if data == [] then [] else Owned(owner, data[..|data| - 1]) + [Answer(owner, TTL, data[|data| - 1])]
  }

  /** The records for a name, by question type.  An alias hides the addresses of the same name from A and
      AAAA questions. */
  function Sections(x: Index, glob: (string, string) -> bool, order: seq<string>, name: string, qtype: nat): (r: seq<Data>) {
    var cname := if qtype != TYPE_PTR then CnameData(x, name) else [];
    var addresses := if qtype == TYPE_ANY || (qtype in {TYPE_A, TYPE_AAAA} && cname == [])
                     then WildData(x, glob, order, name, qtype) + AddressData(At(x.forward, name, []), qtype) else [];
    var ptr := if qtype in {TYPE_ANY, TYPE_PTR} then PtrData(At(x.reverse, name, [])) else [];
    cname + addresses + ptr
  }

  /** What the source says to a question; None for types it does not know. */
  function Answers(x: Index, glob: (string, string) -> bool, order: seq<string>, asked: string, qtype: nat): (r: Option<seq<Answer>>) {
    if qtype !in {TYPE_ANY, TYPE_A, TYPE_AAAA, TYPE_PTR, Dns.TYPE_CNAME} then None
    else Some(Owned(asked, Sections(x, glob, order, Lower(asked), qtype)))
  }

  method AppendAddresses(ips: seq<Address>, qtype: nat, response: seq<Data>) returns (r: seq<Data>)
    ensures r == response + AddressData(ips, qtype)
  {
    r := response;
    var i := 0;
    while i < |ips|
      invariant 0 <= i <= |ips|
      invariant r == response + AddressData(ips[..i], qtype)
    {
      assert ips[..i + 1][..i] == ips[..i];
      if qtype == TYPE_A && IsV4(ips[i]) {
        r := r + [A(ips[i])];
      }
      if qtype == TYPE_AAAA && !IsV4(ips[i]) {
        r := r + [Aaaa(ips[i])];
      }
      i := i + 1;
    }
    assert ips[..i] == ips;
  }

  lemma WildStep(x: Index, glob: (string, string) -> bool, order: seq<string>, i: nat, name: string, qtype: nat)
    requires i < |order|
    ensures WildData(x, glob, order[..i + 1], name, qtype) ==
            WildData(x, glob, order[..i], name, qtype) +
            if order[i] in x.wild && glob(order[i], name) then AddressData(x.wild[order[i]], qtype) else []
  {
    assert order[..i + 1][..i] == order[..i];
  }

  method RespondToAWildcards(x: Index, glob: (string, string) -> bool, order: seq<string>, name: string, qtype: nat, response: seq<Data>)
    returns (r: seq<Data>)
    ensures r == response + WildData(x, glob, order, name, qtype)
  {
    var found: seq<Data> := [];
    var i := 0;
    while i < |order|
      invariant 0 <= i <= |order|
      invariant found == WildData(x, glob, order[..i], name, qtype)
    {
      WildStep(x, glob, order, i, name, qtype);
      if order[i] in x.wild && glob(order[i], name) {
        found := AppendAddresses(x.wild[order[i]], qtype, found);
      }
      i := i + 1;
    }
    assert order[..i] == order;
    r := response + found;
  }

  method RespondToA(x: Index, glob: (string, string) -> bool, order: seq<string>, name: string, qtype: nat, response: seq<Data>)
    returns (r: seq<Data>)
    ensures r == response + (WildData(x, glob, order, name, qtype) + AddressData(At(x.forward, name, []), qtype))
  {
    r := RespondToAWildcards(x, glob, order, name, qtype, response);
    if name in x.forward {
      r := AppendAddresses(x.forward[name], qtype, r);
    }
  }

  method RespondToPTR(x: Index, name: string, response: seq<Data>) returns (r: seq<Data>)
    ensures r == response + PtrData(At(x.reverse, name, []))
  {
    r := response;
    if name in x.reverse {
      var val := x.reverse[name];
      var i := 0;
      while i < |val|
        invariant 0 <= i <= |val|
        invariant r == response + PtrData(val[..i])
      {
        assert val[..i + 1][..i] == val[..i];
        if "" != val[i] {
          r := r + [Ptr(Fqdn(val[i]))];
        }
        i := i + 1;
      }
      assert val[..i] == val;
    }
  }

  method AnswerQuestion(x: Index, glob: (string, string) -> bool, order: seq<string>, asked: string, qtype: nat)
    returns (r: Option<seq<Answer>>)
    ensures r == Answers(x, glob, order, asked, qtype)
  {
    var name := Lower(asked);
    if qtype != TYPE_ANY && qtype != TYPE_A && qtype != TYPE_AAAA && qtype != TYPE_PTR && qtype != Dns.TYPE_CNAME {
      return None;
    }
    var response: seq<Data> := [];
    if qtype != TYPE_PTR && name in x.aliases {
      response := [Cname(Fqdn(x.aliases[name]))];
    }
    ghost var cname, addresses, ptr := response, [], [];
    if qtype == TYPE_ANY || ((qtype == TYPE_A || qtype == TYPE_AAAA) && |response| < 1) {
      addresses := WildData(x, glob, order, name, qtype) + AddressData(At(x.forward, name, []), qtype);
      response := RespondToA(x, glob, order, name, qtype, response);
    }
    assert response == cname + addresses;
    if qtype == TYPE_ANY || qtype == TYPE_PTR {
      ptr := PtrData(At(x.reverse, name, []));
      response := RespondToPTR(x, name, response);
    }
    assert response == cname + addresses + ptr;
    return Some(Owned(asked, response));
  }

  lemma {:induction false} OwnedHolds(owner: string, data: seq<Data>, d: Data)
    ensures Answer(owner, TTL, d) in Owned(owner, data) <==> d in data
    decreases |data|
  {
    if data != [] {
      OwnedHolds(owner, data[..|data| - 1], d);
      assert data == data[..|data| - 1] + [data[|data| - 1]];
    }
  }

  function AddressType(ip: Address): (r: nat) {
    if IsV4(ip) then TYPE_A else TYPE_AAAA
  }

  function AddressRecord(ip: Address): (r: Data) {
    if IsV4(ip) then A(ip) else Aaaa(ip)
  }

  lemma {:induction false} FamilyKeeps(ips: seq<Address>, ip: Address)
    requires ip in ips
    ensures AddressRecord(ip) in AddressData(ips, AddressType(ip))
    decreases |ips|
  {
    if ips[|ips| - 1] != ip {
      assert ips == ips[..|ips| - 1] + [ips[|ips| - 1]];
      FamilyKeeps(ips[..|ips| - 1], ip);
    }
  }

  lemma {:induction false} TargetHasName(names: seq<string>, target: string) returns (name: string)
    requires Ptr(target) in PtrData(names)
    ensures name in names && name != "" && target == Fqdn(name)
    decreases |names|
  {
    name := names[|names| - 1];
    if name == "" || Fqdn(name) != target {
      name := TargetHasName(names[..|names| - 1], target);
    }
  }

  lemma PtrAnswerHasName(x: Index, glob: (string, string) -> bool, order: seq<string>, asked: string, target: string)
    requires Answer(asked, TTL, Ptr(target)) in Answers(x, glob, order, asked, TYPE_PTR).value
    ensures Ptr(target) in PtrData(At(x.reverse, Lower(asked), []))
  {
    OwnedHolds(asked, [] + [] + PtrData(At(x.reverse, Lower(asked), [])), Ptr(target));
  }

  /** Forward-confirmed reverse lookup.  Whatever domain a PTR answer for an address names, wildcards aside,
      asking for that domain in the address's own family brings the address back if and only if the domain
      is not an alias as well; names may be asked in any letter case. */
  lemma PtrAnswersAreConfirmedIff(parse: Parser, lines: seq<Line>, glob: (string, string) -> bool, order: seq<string>,
                                  ip: Address, asked: string, target: string, forward: string)
    requires Lower(asked) == ReverseName(ip) && Lower(forward) == target && '*' !in target
    requires Answer(asked, TTL, Ptr(target)) in Answers(Loaded(parse, lines), glob, order, asked, TYPE_PTR).value
    ensures var x := Loaded(parse, lines);
            Answer(forward, TTL, AddressRecord(ip)) in Answers(x, glob, order, forward, AddressType(ip)).value <==> target !in x.aliases
  {
    var x := Loaded(parse, lines);
    PtrAnswerHasName(x, glob, order, asked, target);
    var name := TargetHasName(At(x.reverse, ReverseName(ip), []), target);
    ReverseNamesResolveForward(parse, lines, ip, name);
    AddressAnswerIff(x, glob, order, forward, ip);
  }

  /** A forward entry is answered with exactly when no alias of the same name is in its way. */
  lemma AddressAnswerIff(x: Index, glob: (string, string) -> bool, order: seq<string>, asked: string, ip: Address)
    requires ip in At(x.forward, Lower(asked), [])
    ensures Answer(asked, TTL, AddressRecord(ip)) in Answers(x, glob, order, asked, AddressType(ip)).value <==> Lower(asked) !in x.aliases
  {
    var name, qtype := Lower(asked), AddressType(ip);
    FamilyKeeps(At(x.forward, name, []), ip);
    var addresses := WildData(x, glob, order, name, qtype) + AddressData(At(x.forward, name, []), qtype);
    if name in x.aliases {
      OwnedHolds(asked, CnameData(x, name) + [] + [], AddressRecord(ip));
    } else {
      OwnedHolds(asked, [] + addresses + [], AddressRecord(ip));
    }
  }

  lemma TwoLines(parse: Parser, first: Line, second: Line)
    ensures Loaded(parse, [first, second]) == LineAdded(parse, LineAdded(parse, EMPTY, first), second)
    ensures Loaded(parse, [first]) == LineAdded(parse, EMPTY, first)
  {
    LoadedMore(parse, [], Some(first));
    LoadedMore(parse, [first], Some(second));
    assert [] + [first] == [first] && [first] + [second] == [first, second];
  }

  lemma OneName(x: Index, ip: Address, name: string)
    ensures NamesAdded(x, ip, [name]) == NameAdded(x, ip, name)
  {
    var names := [name];
    assert NamesAdded(x, ip, names[..0]) == x;
  }

  lemma OneAlias(x: Index, target: string, alias: string)
    ensures AliasesAdded(x, target, [alias]) == AliasAdded(x, target, alias)
  {
    var names := [alias];
    assert AliasesAdded(x, target, names[..0]) == x;
  }

  lemma AddressThenAlias(parse: Parser, address: string, name: string, target: string, ip: Address)
    requires parse(address) == Some(ip) && parse(target).None? && '*' !in name
    ensures var x := Loaded(parse, [Line(address, [name]), Line(target, [name])]);
            && ReverseName(ip) in x.reverse && x.reverse[ReverseName(ip)] == [name] && Fqdn(name) in x.aliases
  {
    TwoLines(parse, Line(address, [name]), Line(target, [name]));
    OneName(EMPTY.(reverse := map[][ReverseName(ip) := [name]]), ip, name);
    var x1 := LineAdded(parse, EMPTY, Line(address, [name]));
    OneAlias(x1, target, name);
    assert Loaded(parse, [Line(address, [name]), Line(target, [name])]) == AliasAdded(x1, target, name);
  }

  lemma PointsToName(x: Index, glob: (string, string) -> bool, order: seq<string>, name: string, ip: Address, asked: string)
    requires ReverseName(ip) in x.reverse && x.reverse[ReverseName(ip)] == [name] && name != "" && Lower(asked) == ReverseName(ip)
    ensures Answer(asked, TTL, Ptr(Fqdn(name))) in Answers(x, glob, order, asked, TYPE_PTR).value
  {
    var names := [name];
    assert PtrData(names[..0]) == [] && PtrData(names) == [] + [Ptr(Fqdn(name))];
    assert Sections(x, glob, order, Lower(asked), TYPE_PTR) == [] + [] + PtrData(names);
    OwnedHolds(asked, Sections(x, glob, order, Lower(asked), TYPE_PTR), Ptr(Fqdn(name)));
  }

  /** A file of two lines, an address and an alias of the same name: the PTR answer is not confirmed. */
  lemma AliasHidesAddress(parse: Parser, glob: (string, string) -> bool, order: seq<string>, address: string, name: string,
                          target: string, ip: Address, asked: string)
    requires parse(address) == Some(ip) && parse(target).None? && Lower(asked) == ReverseName(ip)
    requires name != "" && IsLower(name) && '*' !in name
    ensures var x := Loaded(parse, [Line(address, [name]), Line(target, [name])]);
            && Answer(asked, TTL, Ptr(Fqdn(name))) in Answers(x, glob, order, asked, TYPE_PTR).value
            && Answer(Fqdn(name), TTL, AddressRecord(ip)) !in Answers(x, glob, order, Fqdn(name), AddressType(ip)).value
  {
    var lines := [Line(address, [name]), Line(target, [name])];
    AddressThenAlias(parse, address, name, target, ip);
    PointsToName(Loaded(parse, lines), glob, order, name, ip, asked);
    LowerConcat(name, ".");
    PtrAnswersAreConfirmedIff(parse, lines, glob, order, ip, asked, Fqdn(name), Fqdn(name));
  }

  // ---- aliases ----

  ghost predicate FullNames(aliases: map<string, string>) {
    forall a :: a in aliases ==> EndsInDot(a) && aliases[a] != ""
  }

  lemma {:induction false} AliasesKeepFullNames(x: Index, target: string, names: seq<string>)
    requires FullNames(x.aliases)
    ensures FullNames(AliasesAdded(x, target, names).aliases)
    decreases |names|
  {
    if names != [] { AliasesKeepFullNames(x, target, names[..|names| - 1]); }
  }

  lemma {:induction false} NamesKeepAliases(x: Index, ip: Address, names: seq<string>)
    ensures NamesAdded(x, ip, names).aliases == x.aliases
    decreases |names|
  {
    if names != [] { NamesKeepAliases(x, ip, names[..|names| - 1]); }
  }

  lemma {:induction false} AliasesAreFullNames(parse: Parser, lines: seq<Line>)
    ensures FullNames(Loaded(parse, lines).aliases)
    decreases |lines|
  {
    if lines != [] {
      var init, last := lines[..|lines| - 1], lines[|lines| - 1];
      AliasesAreFullNames(parse, init);
      var x := Loaded(parse, init);
      match parse(last.address)
      case Some(ip) => NamesKeepAliases(x.(reverse := x.reverse[ReverseName(ip) := last.names]), ip, last.names);
      case None => AliasesKeepFullNames(x, last.address, last.names);
    }
  }

  /** The line writes the alias without its final dot. */
  predicate Undotted(names: seq<string>, key: string) {
    names != [] && ((!EndsInDot(names[|names| - 1]) && Fqdn(names[|names| - 1]) == key) || Undotted(names[..|names| - 1], key))
  }

  lemma {:induction false} AliasAfterLine(x: Index, target: string, names: seq<string>, key: string)
    requires FullNames(x.aliases) && key in x.aliases
    ensures var y := AliasesAdded(x, target, names);
            key in y.aliases && y.aliases[key] == if Undotted(names, key) then Fqdn(target) else x.aliases[key]
    decreases |names|
  {
    if names != [] {
      AliasAfterLine(x, target, names[..|names| - 1], key);
      AliasesKeepFullNames(x, target, names[..|names| - 1]);
    }
  }

  /** An alias that has a target keeps it against a later line exactly when that line does not write the
      alias without its final dot: the guard finds only the dotted form, and otherwise the last line wins. */
  lemma FirstTargetIsKeptIff(parse: Parser, lines: seq<Line>, target: string, names: seq<string>, key: string)
    requires parse(target).None?
    requires key in Loaded(parse, lines).aliases && Loaded(parse, lines).aliases[key] != Fqdn(target)
    ensures var before, after := Loaded(parse, lines).aliases, Loaded(parse, lines + [Line(target, names)]).aliases;
            key in after && (after[key] == before[key] <==> !Undotted(names, key))
  {
    assert (lines + [Line(target, names)])[..|lines|] == lines;
    AliasesAreFullNames(parse, lines);
    AliasAfterLine(Loaded(parse, lines), target, names, key);
  }

  /** A file of two lines with the same alias, written without a final dot: the second target wins. */
  lemma SecondTargetWins(parse: Parser, alias: string, first: string, second: string)
    requires parse(first).None? && parse(second).None? && !EndsInDot(alias) && Fqdn(first) != Fqdn(second)
    ensures var aliases := Loaded(parse, [Line(first, [alias]), Line(second, [alias])]).aliases;
            Fqdn(alias) in aliases && aliases[Fqdn(alias)] == Fqdn(second)
  {
    var lines := [Line(first, [alias])];
    TwoLines(parse, lines[0], Line(second, [alias]));
    OneAlias(EMPTY, first, alias);
    AliasesAreFullNames(parse, lines);
    AliasAfterLine(Loaded(parse, lines), second, [alias], Fqdn(alias));
  }
}
