/** The rule stores and their layering (rule/store_memory.go, store_hash.go, store_bloom.go,
    store_sqlite.go, store_complex.go) as values: each function gives the store after the operation. */
module Stores {
  import opened Text
  import opened Domains
  import opened Rules
  import opened Ordering

  type Row = (string, string)

  /** Library functions the stores rely on.  `positions(list, text)` are the bits of a text in the
      Bloom filter of a list; `pick` is the database's choice among rows of equal rank, which
      may depend on the statement, that is, on the queried lists. */
  datatype Lib = Lib(hash: string -> nat, positions: (string, string) -> set<nat>, pick: (seq<RuleList>, set<Row>) -> Row,
                     compiles: string -> bool, regex: (string, string) -> bool, glob: (string, string) -> bool)

  datatype ComplexRule = Wildcard(text: string) | Regex(text: string)

  /** The prepared insert statement: absent, bound to the open transaction, or left over from one that
      has ended. */
  datatype Statement = Absent | Live | Stale

  datatype Store =
    | Memory(lists: Lists, rules: map<string, seq<string>>)
    | Hash(lists: Lists, hashes: map<string, set<nat>>, delegate: Option<Store>)
    | Bloom(lists: Lists, blooms: map<string, set<nat>>, backing: Option<Store>)
    | Sql(lists: Lists, table: map<string, ListType>, committed: set<Row>, pending: set<Row>, tx: bool, stmt: Statement)
    | Complex(lists: Lists, complex: map<string, seq<ComplexRule>>, backing: Option<Store>)

  // ---- complex rules ----

  predicate Slashed(rule: string) {
    rule != "" && rule[0] == '/' && rule[|rule| - 1] == '/'
  }

  predicate IsComplex(rule: string) {
    '*' in rule || Slashed(rule)
  }

  /** The complex rule made from a text; none when a regular expression does not compile.  A text that
      starts and ends with a slash has at least two characters. */
  function MakeComplex(lib: Lib, list: RuleList, rule: string): (r: Option<ComplexRule>) {
    if list.regex then (if lib.compiles(rule) then Some(Regex(rule)) else None)
    else if Slashed(rule) then
      if |rule| < 2 then None
      else
        var inner := rule[1..|rule| - 1];
        if lib.compiles(inner) then Some(Regex(inner)) else None
    else if '*' in rule then Some(Wildcard(rule))
    else None
  }

  predicate IsMatch(lib: Lib, rule: ComplexRule, domain: string) {
    match rule
    case Wildcard(text) => lib.glob(text, domain)
    case Regex(text) => lib.regex(text, domain)
  }

  function ScanComplex(lib: Lib, list: RuleList, rules: seq<ComplexRule>, domain: string): (r: Verdict) {
    if rules == [] then NONE
    else if IsMatch(lib, rules[0], domain) then Verdict(MatchOf(list.kind), Some(list), rules[0].text)
    else ScanComplex(lib, list, rules[1..], domain)
  }

  // ---- operations ----

  function SortEach(rules: map<string, seq<string>>, lists: seq<RuleList>): (r: map<string, seq<string>>)
    decreases |lists|
  {
    if lists == [] then rules
    else SortEach(rules[lists[0].canonical := SortRules(At(rules, lists[0].canonical, []))], lists[1..])
  }

  function MemoryApply(s: Store, op: Op): (r: Store)
    requires s.Memory?
    ensures r.Memory?
  {
    match op
    case Load(l, rule) => Memory(Listed(s.lists, op), s.rules[l.canonical := At(s.rules, l.canonical, []) + [Lower(rule)]])
    case Clear(l) => Memory(Listed(s.lists, op), s.rules[l.canonical := []])
    case Finalize(ls) => Memory(s.lists, SortEach(s.rules, ls))
  }

  /** The hash store itself; `inner` is its delegate after the same operation. */
  function HashApply(lib: Lib, s: Store, op: Op, inner: Option<Store>): (r: Store)
    requires s.Hash?
    ensures r.Hash? && r.delegate == inner
  {
    match op
    case Load(l, rule) => Hash(Listed(s.lists, op), s.hashes[l.canonical := At(s.hashes, l.canonical, {}) + {lib.hash(Lower(rule))}], inner)
    case Clear(l) => Hash(Listed(s.lists, op), s.hashes[l.canonical := {}], inner)
    case Finalize(_) => Hash(s.lists, s.hashes, inner)
  }

  /** The Bloom store itself.  Loading skips texts that already test positive, and clearing leaves the
      bits of an existing filter as they are. */
  function BloomApply(lib: Lib, s: Store, op: Op, inner: Option<Store>): (r: Store)
    requires s.Bloom?
    ensures r.Bloom? && r.backing == inner
  {
    match op
    case Load(l, rule) =>
      var bits := At(s.blooms, l.canonical, {});
      var bits' := if lib.positions(l.canonical, rule) <= bits then bits else bits + lib.positions(l.canonical, rule);
      Bloom(Listed(s.lists, op), s.blooms[l.canonical := bits'], inner)
    case Clear(l) => Bloom(Listed(s.lists, op), s.blooms[l.canonical := At(s.blooms, l.canonical, {})], inner)
    case Finalize(_) => Bloom(s.lists, s.blooms, inner)
  }

  function SqlApply(s: Store, op: Op): (r: Store)
    requires s.Sql?
    ensures r.Sql?
  {
    match op
    case Load(l, rule) => SqlLoad(s, l, rule)
    case Clear(l) => SqlClear(s, l)
    case Finalize(_) => SqlFinalize(s)
  }

  /** A rule is complex when its list says so or its text does; only other rules reach the backing store. */
  predicate Simple(op: Op) {
    op.Load? ==> !op.list.regex && !IsComplex(op.rule)
  }

  function ComplexApply(lib: Lib, s: Store, op: Op, inner: Option<Store>): (r: Store)
    requires s.Complex?
    ensures r.Complex? && r.backing == inner
  {
    match op
    case Load(l, rule) =>
      var rules := At(s.complex, l.canonical, []);
      var made := MakeComplex(lib, l, rule);
      Complex(Listed(s.lists, op), if !Simple(op) && made.Some? then s.complex[l.canonical := rules + [made.value]] else s.complex, inner)
    case Clear(l) => Complex(Listed(s.lists, op), s.complex[l.canonical := []], inner)
    case Finalize(_) => Complex(s.lists, s.complex, inner)
  }

  function Apply(lib: Lib, s: Store, op: Op): (r: Store) {
    match s
    case Memory(_, _) => MemoryApply(s, op)
    case Hash(_, _, delegate) => HashApply(lib, s, op, if delegate.Some? then Some(Apply(lib, delegate.value, op)) else None)
    case Bloom(_, _, backing) => BloomApply(lib, s, op, if backing.Some? then Some(Apply(lib, backing.value, op)) else None)
    case Sql(_, _, _, _, _, _) => SqlApply(s, op)
    case Complex(_, _, backing) =>
      ComplexApply(lib, s, op, if backing.Some? && Simple(op) then Some(Apply(lib, backing.value, op)) else backing)
  }

  /** A statement left over from a finished transaction makes the insert fail; the code then rolls the
      current transaction back. */
  function SqlLoad(s: Store, l: RuleList, rule: string): (r: Store)
    requires s.Sql?
    ensures r.Sql?
  {
    var lists := AddList(s.lists, l);
    if s.stmt == Stale then s.(lists := lists, pending := {}, tx := false)
    else s.(lists := lists, pending := (if s.tx then s.pending else {}) + {(l.short, rule)}, tx := true, stmt := Live)
  }

  function SqlClear(s: Store, l: RuleList): (r: Store)
    requires s.Sql?
    ensures r.Sql?
  {
    var all := if s.tx then s.committed + s.pending else s.committed;
    s.(lists := RemoveList(s.lists, l), committed := (set row | row in all && row.0 != l.short),
       pending := {}, tx := false, stmt := if s.stmt == Absent then Absent else Stale)
  }

  function SqlFinalize(s: Store): (r: Store)
    requires s.Sql?
    ensures r.Sql?
  {
    s.(committed := if s.tx then s.committed + s.pending else s.committed, pending := {}, tx := false, stmt := Absent)
  }

  function ApplyAll(lib: Lib, s: Store, ops: seq<Op>): (r: Store) {
    if ops == [] then s else Apply(lib, ApplyAll(lib, s, ops[..|ops| - 1]), ops[|ops| - 1])
  }

  lemma ApplySnoc(lib: Lib, s: Store, ops: seq<Op>, op: Op)
    ensures ApplyAll(lib, s, ops + [op]) == Apply(lib, ApplyAll(lib, s, ops), op)
  {
    assert (ops + [op])[..|ops|] == ops;
  }

  // ---- lookups ----

  function MemoryLookup(list: RuleList, rules: seq<string>, names: seq<string>): (r: Verdict) {
    if names == [] then NONE
    else if Found(rules, names[0]).Some? then Verdict(MatchOf(list.kind), Some(list), Found(rules, names[0]).value)
    else MemoryLookup(list, rules, names[1..])
  }

  /** The first name whose hash is in the set. */
  function HashLookup(lib: Lib, list: RuleList, hashes: set<nat>, names: seq<string>): (r: Verdict) {
    if names == [] then NONE
    else if lib.hash(Lower(names[0])) in hashes then Verdict(MatchOf(list.kind), Some(list), names[0])
    else HashLookup(lib, list, hashes, names[1..])
  }

  /** Some name tests positive. */
  predicate Tests(lib: Lib, list: RuleList, bits: set<nat>, names: seq<string>) {
    names != [] && (lib.positions(list.canonical, names[0]) <= bits || Tests(lib, list, bits, names[1..]))
  }

  lemma {:induction false} TestsIff(lib: Lib, list: RuleList, bits: set<nat>, names: seq<string>)
    ensures Tests(lib, list, bits, names) <==> exists i :: 0 <= i < |names| && lib.positions(list.canonical, names[i]) <= bits
    decreases |names|
  {
    if names != [] {
      TestsIff(lib, list, bits, names[1..]);
      assert forall i :: 0 <= i < |names| - 1 ==> names[1..][i] == names[i + 1];
      if i :| 0 <= i < |names| && lib.positions(list.canonical, names[i]) <= bits {
        if i > 0 { assert lib.positions(list.canonical, names[1..][i - 1]) <= bits; }
      }
      if i :| 0 <= i < |names[1..]| && lib.positions(list.canonical, names[1..][i]) <= bits {
        assert lib.positions(list.canonical, names[i + 1]) <= bits;
      }
    }
  }

  /** Committed rows of the queried lists that are registered, with a rule among the names. */
  function Rows(s: Store, query: seq<RuleList>, names: seq<string>): (r: set<Row>)
    requires s.Sql?
  {
    set row | row in s.committed && row.0 in s.table && row.1 in names && Selected(s, query, row.0)
  }

  predicate Selected(s: Store, query: seq<RuleList>, short: string) {
    exists i :: 0 <= i < |query| && GetList(s.lists, query[i].short).Some? && GetList(s.lists, query[i].short).value.short == short
  }

  /** The query orders by list type, allow before block, and takes one row. */
  function SqlFind(lib: Lib, s: Store, query: seq<RuleList>, names: seq<string>): (r: Verdict)
    requires s.Sql?
  {
    var rows := Rows(s, query, names);
    var allow := set row | row in rows && row.0 in s.table && s.table[row.0] == Allow;
    if allow != {} then
      var row := lib.pick(query, allow);
      Verdict(MatchAllow, GetList(s.lists, row.0), row.1)
    else if rows != {} then
      var row := lib.pick(query, rows);
      Verdict(MatchBlock, GetList(s.lists, row.0), row.1)
    else NONE
  }

  /** What a store makes of one of its registered lists. */
  function FindIn(lib: Lib, s: Store, l: RuleList, domain: string): (r: Verdict)
    decreases s, 0
  {
    var names := DomainNames(domain);
    match s
    case Memory(_, rules) => if l.canonical in rules then MemoryLookup(l, rules[l.canonical], names) else NONE
    case Hash(_, hashes, delegate) =>
      if l.canonical !in hashes then NONE
      else
        var hit := HashLookup(lib, l, hashes[l.canonical], names);
        if hit.match_ != MatchNone && delegate.Some? then Find(lib, delegate.value, [l], domain) else hit
    case Bloom(_, blooms, backing) =>
      if l.canonical !in blooms || !Tests(lib, l, blooms[l.canonical], names) then NONE
      else if backing.Some? then Find(lib, backing.value, [l], domain)
      else Verdict(MatchOf(l.kind), Some(l), "")
    case Sql(_, _, _, _, _, _) => NONE
    case Complex(_, complex, _) => if l.canonical in complex then ScanComplex(lib, l, complex[l.canonical], domain) else NONE
  }

  /** FindMatch */
  function Find(lib: Lib, s: Store, query: seq<RuleList>, domain: string): (r: Verdict)
    decreases s, 1
  {
    if s.Sql? then SqlFind(lib, s, query, DomainNames(domain))
    else
      var v := TwoPass(s.lists, query, (l: RuleList) => FindIn(lib, s, l, domain));
      if s.Complex? && v.match_ == MatchNone && s.backing.Some? then Find(lib, s.backing.value, query, domain) else v
  }

  /** Init has entered every configured list into the database's list table. */
  ghost predicate TableOf(universe: set<RuleList>, table: map<string, ListType>) {
    forall l :: l in universe ==> l.short in table && table[l.short] == l.kind
  }
}
