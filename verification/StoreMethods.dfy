/** The rule stores as objects, stacked as the configuration can stack them: every method is proved to
    do what the functions on store values say (rule/store_memory.go, store_hash.go, store_bloom.go,
    store_sqlite.go, store_complex.go). */
module StoreMethods {
  import opened Text
  import opened Domains
  import opened Rules
  import opened Ordering
  import opened Stores

  /** One pass of FindMatch: the first held list of the kind in which the store finds something. */
  function Pass(lib: Lib, s: Store, kind: ListType, query: seq<RuleList>, domain: string): (r: Verdict) {
    FirstMatch(s.lists, kind, query, (l: RuleList) => FindIn(lib, s, l, domain))
  }

  lemma PassHeld(lib: Lib, s: Store, kind: ListType, query: seq<RuleList>, i: nat, domain: string, held: RuleList, v: Verdict)
    requires i < |query| && Held(s.lists, kind, query[i].short) == Some(held) && v == FindIn(lib, s, held, domain)
    ensures Pass(lib, s, kind, query[i..], domain) == if v.match_ != MatchNone then v else Pass(lib, s, kind, query[i + 1..], domain)
  {
    assert query[i..][1..] == query[i + 1..];
  }

  lemma PassNotHeld(lib: Lib, s: Store, kind: ListType, query: seq<RuleList>, i: nat, domain: string)
    requires i < |query| && Held(s.lists, kind, query[i].short).None?
    ensures Pass(lib, s, kind, query[i..], domain) == Pass(lib, s, kind, query[i + 1..], domain)
  {
    assert query[i..][1..] == query[i + 1..];
  }

  // ---- memory ----

  class MemoryStore {
    var lists: Lists
    var rules: map<string, seq<string>>

    constructor ()
      ensures Contents() == Memory(map[], map[])
    {
      lists, rules := map[], map[];
    }

    ghost function Contents(): (s: Store)
      reads this
    {
      Memory(lists, rules)
    }

    method Load(list: RuleList, rule: string)
      modifies this
      ensures Contents() == MemoryApply(old(Contents()), Op.Load(list, rule))
    {
      rules := rules[list.canonical := At(rules, list.canonical, []) + [Lower(rule)]];
      lists := AddList(lists, list);
    }

    method Clear(list: RuleList)
      modifies this
      ensures Contents() == MemoryApply(old(Contents()), Op.Clear(list))
    {
      rules := rules[list.canonical := []];
      lists := RemoveList(lists, list);
    }

    method Finalize(ls: seq<RuleList>)
      modifies this`rules
      ensures Contents() == MemoryApply(old(Contents()), Op.Finalize(ls))
    {
      var i := 0;
      assert ls[0..] == ls;
      while i < |ls|
        invariant 0 <= i <= |ls|
        invariant SortEach(rules, ls[i..]) == SortEach(old(rules), ls)
      {
        assert ls[i..][1..] == ls[i + 1..];
        rules := rules[ls[i].canonical := SortRules(At(rules, ls[i].canonical, []))];
        i := i + 1;
      }
    }

    /** The closure of FindMatch. */
    method FindInList(lib: Lib, list: RuleList, domain: string) returns (v: Verdict)
      ensures v == FindIn(lib, Contents(), list, domain)
    {
      var names := DomainList(domain);
      if list.canonical !in rules {
        return NONE;
      }
      var table := rules[list.canonical];
      var i := 0;
      assert names[0..] == names;
      while i < |names|
        invariant 0 <= i <= |names|
        invariant MemoryLookup(list, table, names[i..]) == MemoryLookup(list, table, names)
      {
        assert names[i..][1..] == names[i + 1..];
        var found, rule := FoundInList(table, names[i]);
        if found {
          return Verdict(MatchOf(list.kind), Some(list), rule);
        }
        i := i + 1;
      }
      return NONE;
    }

    /** matchForEachOfTypeIn, with the loop over names as its closure. */
    method FirstOfType(lib: Lib, kind: ListType, query: seq<RuleList>, domain: string, ghost s: Store) returns (v: Verdict)
      requires s == Contents()
      ensures v == Pass(lib, s, kind, query, domain)
    {
      var i := 0;
      assert query[0..] == query;
      while i < |query|
        invariant 0 <= i <= |query|
        invariant Pass(lib, s, kind, query[i..], domain) == Pass(lib, s, kind, query, domain)
      {
        v := TryList(lib, kind, query, i, domain, s);
        if MatchNone != v.match_ {
          return v;
        }
        i := i + 1;
      }
      return NONE;
    }

    method TryList(lib: Lib, kind: ListType, query: seq<RuleList>, i: nat, domain: string, ghost s: Store) returns (v: Verdict)
      requires i < |query| && s == Contents()
      ensures Pass(lib, s, kind, query[i..], domain) == if v.match_ != MatchNone then v else Pass(lib, s, kind, query[i + 1..], domain)
    {
      var held := Held(lists, kind, query[i].short);
      if held.Some? {
        v := FindInList(lib, held.value, domain);
        PassHeld(lib, s, kind, query, i, domain, held.value, v);
      } else {
        PassNotHeld(lib, s, kind, query, i, domain);
        v := NONE;
      }
    }

    method FindMatch(lib: Lib, query: seq<RuleList>, domain: string) returns (v: Verdict)
      ensures v == Find(lib, Contents(), query, domain)
    {
      v := FirstOfType(lib, Allow, query, domain, Contents());
      if MatchNone != v.match_ {
        return v;
      }
      v := FirstOfType(lib, Block, query, domain, Contents());
    }
  }

  // ---- SQL ----

  class SqlStore {
    var lists: Lists
    var table: map<string, ListType>
    var committed: set<Row>
    var pending: set<Row>
    var tx: bool
    var stmt: Statement

    constructor (table: map<string, ListType>)
      ensures Contents() == Sql(map[], table, {}, {}, false, Absent)
    {
      this.lists, this.table, this.committed, this.pending, this.tx, this.stmt := map[], table, {}, {}, false, Absent;
    }

    ghost function Contents(): (s: Store)
      reads this
    {
      Sql(lists, table, committed, pending, tx, stmt)
    }

    method Load(list: RuleList, rule: string)
      modifies this
      ensures Contents() == SqlApply(old(Contents()), Op.Load(list, rule))
    {
      lists := AddList(lists, list);
      if !tx {
        pending, tx := {}, true;
      }
      if stmt == Absent {
        stmt := Live;
      }
      if stmt == Stale {
        pending, tx := {}, false;
      } else {
        pending := pending + {(list.short, rule)};
      }
    }

    /** The open transaction is committed, the delete runs in one of its own, and the prepared statement
        is left behind. */
    method Clear(list: RuleList)
      modifies this
      ensures Contents() == SqlApply(old(Contents()), Op.Clear(list))
    {
      if tx {
        committed := committed + pending;
      }
      committed := set row | row in committed && row.0 != list.short;
      pending, tx := {}, false;
      if stmt != Absent {
        stmt := Stale;
      }
      lists := RemoveList(lists, list);
    }

    method Finalize(ls: seq<RuleList>)
      modifies this
      ensures Contents() == SqlApply(old(Contents()), Op.Finalize(ls))
    {
      if stmt != Absent {
        stmt := Absent;
      }
      if tx {
        committed := committed + pending;
      }
      pending, tx := {}, false;
    }

    /** The short names bound to the query: those of the queried lists that the store knows. */
    method BindLists(query: seq<RuleList>) returns (vars: seq<string>)
      ensures forall short :: short in vars <==> Selected(Contents(), query, short)
    {
      vars := [];
      var i := 0;
      while i < |query|
        invariant 0 <= i <= |query|
        invariant forall short :: short in vars <==> Selected(Contents(), query[..i], short)
      {
        var found := GetList(lists, query[i].short);
        assert query[..i + 1] == query[..i] + [query[i]];
        SelectedMore(Contents(), query[..i], query[i]);
        if found.Some? {
          vars := vars + [found.value.short];
        }
        i := i + 1;
      }
      assert query[..i] == query;
    }

    method FindMatch(lib: Lib, query: seq<RuleList>, domain: string) returns (v: Verdict)
      ensures v == Find(lib, Contents(), query, domain)
    {
      var names := DomainList(domain);
      var vars := BindLists(query);
      var rows := set row | row in committed && row.0 in table && row.1 in names && row.0 in vars;
      assert rows == Rows(Contents(), query, names);
      var allow := set row | row in rows && row.0 in table && table[row.0] == Allow;
      if allow != {} {
        return Verdict(MatchAllow, GetList(lists, lib.pick(query, allow).0), lib.pick(query, allow).1);
      }
      if rows != {} {
        return Verdict(MatchBlock, GetList(lists, lib.pick(query, rows).0), lib.pick(query, rows).1);
      }
      return NONE;
    }
  }

  lemma SelectedMore(s: Store, query: seq<RuleList>, q: RuleList)
    ensures forall short :: Selected(s, query + [q], short) <==>
              Selected(s, query, short) || (GetList(s.lists, q.short).Some? && GetList(s.lists, q.short).value.short == short)
  {
    var more := query + [q];
    forall short ensures Selected(s, more, short) <==>
              Selected(s, query, short) || (GetList(s.lists, q.short).Some? && GetList(s.lists, q.short).value.short == short)
    {
      if Selected(s, query, short) {
        var i :| 0 <= i < |query| && GetList(s.lists, query[i].short).Some? && GetList(s.lists, query[i].short).value.short == short;
        assert more[i] == query[i];
      }
      assert more[|query|] == q;
      if Selected(s, more, short) {
        var i :| 0 <= i < |more| && GetList(s.lists, more[i].short).Some? && GetList(s.lists, more[i].short).value.short == short;
        assert i < |query| ==> query[i] == more[i];
      }
    }
  }

  // ---- hash ----

  class HashStore {
    var lists: Lists
    var hashes: map<string, set<nat>>
    const delegate: SqlStore?

    constructor (delegate: SqlStore?)
      ensures this.delegate == delegate && lists == map[] && hashes == map[]
    {
      this.lists, this.hashes, this.delegate := map[], map[], delegate;
    }

    ghost function Inner(): (s: Option<Store>)
      reads delegate
    {
      if delegate == null then None else Some(delegate.Contents())
    }

    ghost function Contents(): (s: Store)
      reads this, delegate
    {
      Hash(lists, hashes, Inner())
    }

    /** The same operation on the delegate, if there is one. */
    method Forward(lib: Lib, op: Op)
      modifies delegate
      ensures Inner() == if old(Inner()).Some? then Some(Apply(lib, old(Inner()).value, op)) else None
    {
      if delegate != null {
        match op
        case Load(list, rule) => delegate.Load(list, rule);
        case Clear(list) => delegate.Clear(list);
        case Finalize(ls) => delegate.Finalize(ls);
      }
    }

    method Load(lib: Lib, list: RuleList, rule: string)
      modifies this, delegate
      ensures Contents() == Apply(lib, old(Contents()), Op.Load(list, rule))
    {
      hashes := hashes[list.canonical := At(hashes, list.canonical, {}) + {lib.hash(Lower(rule))}];
      lists := AddList(lists, list);
      Forward(lib, Op.Load(list, rule));
    }

    method Clear(lib: Lib, list: RuleList)
      modifies this, delegate
      ensures Contents() == Apply(lib, old(Contents()), Op.Clear(list))
    {
      hashes := hashes[list.canonical := {}];
      lists := RemoveList(lists, list);
      Forward(lib, Op.Clear(list));
    }

    method Finalize(lib: Lib, ls: seq<RuleList>)
      modifies delegate
      ensures Contents() == Apply(lib, old(Contents()), Op.Finalize(ls))
    {
      Forward(lib, Op.Finalize(ls));
    }

    /** The closure of FindMatch: the first name whose hash is known decides, or hands over. */
    method FindInList(lib: Lib, list: RuleList, domain: string) returns (v: Verdict)
      ensures v == FindIn(lib, Contents(), list, domain)
    {
      var names := DomainList(domain);
      if list.canonical !in hashes {
        return NONE;
      }
      var known := hashes[list.canonical];
      var i := 0;
      assert names[0..] == names;
      while i < |names|
        invariant 0 <= i <= |names|
        invariant HashLookup(lib, list, known, names[i..]) == HashLookup(lib, list, known, names)
      {
        assert names[i..][1..] == names[i + 1..];
        if lib.hash(Lower(names[i])) in known {
          if delegate != null {
            v := delegate.FindMatch(lib, [list], domain);
            return v;
          }
          return Verdict(MatchOf(list.kind), Some(list), names[i]);
        }
        i := i + 1;
      }
      return NONE;
    }

    /** matchForEachOfTypeIn, with the loop over names as its closure. */
    method FirstOfType(lib: Lib, kind: ListType, query: seq<RuleList>, domain: string, ghost s: Store) returns (v: Verdict)
      requires s == Contents()
      ensures v == Pass(lib, s, kind, query, domain)
    {
      var i := 0;
      assert query[0..] == query;
      while i < |query|
        invariant 0 <= i <= |query|
        invariant Pass(lib, s, kind, query[i..], domain) == Pass(lib, s, kind, query, domain)
      {
        v := TryList(lib, kind, query, i, domain, s);
        if MatchNone != v.match_ {
          return v;
        }
        i := i + 1;
      }
      return NONE;
    }

    method TryList(lib: Lib, kind: ListType, query: seq<RuleList>, i: nat, domain: string, ghost s: Store) returns (v: Verdict)
      requires i < |query| && s == Contents()
      ensures Pass(lib, s, kind, query[i..], domain) == if v.match_ != MatchNone then v else Pass(lib, s, kind, query[i + 1..], domain)
    {
      var held := Held(lists, kind, query[i].short);
      if held.Some? {
        v := FindInList(lib, held.value, domain);
        PassHeld(lib, s, kind, query, i, domain, held.value, v);
      } else {
        PassNotHeld(lib, s, kind, query, i, domain);
        v := NONE;
      }
    }

    method FindMatch(lib: Lib, query: seq<RuleList>, domain: string) returns (v: Verdict)
      ensures v == Find(lib, Contents(), query, domain)
    {
      v := FirstOfType(lib, Allow, query, domain, Contents());
      if MatchNone != v.match_ {
        return v;
      }
      v := FirstOfType(lib, Block, query, domain, Contents());
    }
  }

  // ---- Bloom ----

  /** What a Bloom store is put in front of. */
  datatype Backing = Nothing | OnHash(hash: HashStore) | OnSql(sql: SqlStore)
  {
    function Footprint(): (r: set<object>) {
      match this
      case Nothing => {}
      case OnHash(hash) => {hash} + if hash.delegate == null then {} else {hash.delegate}
      case OnSql(sql) => {sql}
    }

    ghost function Contents(): (s: Option<Store>)
      reads Footprint()
    {
      match this
      case Nothing => None
      case OnHash(hash) => Some(hash.Contents())
      case OnSql(sql) => Some(sql.Contents())
    }
  }

  class BloomStore {
    var lists: Lists
    var blooms: map<string, set<nat>>
    const backing: Backing

    constructor (backing: Backing)
      ensures this.backing == backing && lists == map[] && blooms == map[]
    {
      this.lists, this.blooms, this.backing := map[], map[], backing;
    }

    ghost function Contents(): (s: Store)
      reads this, backing.Footprint()
    {
      Bloom(lists, blooms, backing.Contents())
    }

    /** The same operation on the backing store, if there is one. */
    method Forward(lib: Lib, op: Op)
      modifies backing.Footprint()
      ensures backing.Contents() == if old(backing.Contents()).Some? then Some(Apply(lib, old(backing.Contents()).value, op)) else None
    {
      match backing
      case Nothing =>
      case OnHash(hash) => {
        match op
        case Load(list, rule) => hash.Load(lib, list, rule);
        case Clear(list) => hash.Clear(lib, list);
        case Finalize(ls) => hash.Finalize(lib, ls);
      }
      case OnSql(sql) => {
        match op
        case Load(list, rule) => sql.Load(list, rule);
        case Clear(list) => sql.Clear(list);
        case Finalize(ls) => sql.Finalize(ls);
      }
    }

    method CreateBloom(list: RuleList)
      modifies this`blooms
      ensures blooms == old(blooms)[list.canonical := At(old(blooms), list.canonical, {})]
    {
      if list.canonical !in blooms {
        blooms := blooms[list.canonical := {}];
      }
    }

    /** Bits are set only for a rule that does not already test positive. */
    method AddRule(lib: Lib, list: RuleList, rule: string)
      modifies this`blooms
      ensures var bits := At(old(blooms), list.canonical, {});
              blooms == old(blooms)[list.canonical :=
                if lib.positions(list.canonical, rule) <= bits then bits else bits + lib.positions(list.canonical, rule)]
    {
      CreateBloom(list);
      if !(lib.positions(list.canonical, rule) <= blooms[list.canonical]) {
        blooms := blooms[list.canonical := blooms[list.canonical] + lib.positions(list.canonical, rule)];
      }
    }

    method Load(lib: Lib, list: RuleList, rule: string)
      modifies this, backing.Footprint()
      ensures Contents() == Apply(lib, old(Contents()), Op.Load(list, rule))
    {
      AddRule(lib, list, rule);
      lists := AddList(lists, list);
      Forward(lib, Op.Load(list, rule));
    }

    /** An existing filter keeps its bits. */
    method Clear(lib: Lib, list: RuleList)
      modifies this, backing.Footprint()
      ensures Contents() == Apply(lib, old(Contents()), Op.Clear(list))
    {
      CreateBloom(list);
      lists := RemoveList(lists, list);
      Forward(lib, Op.Clear(list));
    }

    method Finalize(lib: Lib, ls: seq<RuleList>)
      modifies backing.Footprint()
      ensures Contents() == Apply(lib, old(Contents()), Op.Finalize(ls))
    {
      Forward(lib, Op.Finalize(ls));
    }

    method FindInList(lib: Lib, list: RuleList, domain: string) returns (v: Verdict)
      ensures v == FindIn(lib, Contents(), list, domain)
    {
      var names := DomainList(domain);
      if list.canonical !in blooms {
        return NONE;
      }
      var bits := blooms[list.canonical];
      var i := 0;
      assert names[0..] == names;
      while i < |names|
        invariant 0 <= i <= |names|
        invariant Tests(lib, list, bits, names[i..]) == Tests(lib, list, bits, names)
      {
        assert names[i..][1..] == names[i + 1..];
        if lib.positions(list.canonical, names[i]) <= bits {
          match backing
          case Nothing => return Verdict(MatchOf(list.kind), Some(list), "");
          case OnHash(hash) =>
            v := hash.FindMatch(lib, [list], domain);
            return v;
          case OnSql(sql) =>
            v := sql.FindMatch(lib, [list], domain);
            return v;
        }
        i := i + 1;
      }
      return NONE;
    }

    /** matchForEachOfTypeIn, with the loop over names as its closure. */
    method FirstOfType(lib: Lib, kind: ListType, query: seq<RuleList>, domain: string, ghost s: Store) returns (v: Verdict)
      requires s == Contents()
      ensures v == Pass(lib, s, kind, query, domain)
    {
      var i := 0;
      assert query[0..] == query;
      while i < |query|
        invariant 0 <= i <= |query|
        invariant Pass(lib, s, kind, query[i..], domain) == Pass(lib, s, kind, query, domain)
      {
        v := TryList(lib, kind, query, i, domain, s);
        if MatchNone != v.match_ {
          return v;
        }
        i := i + 1;
      }
      return NONE;
    }

    method TryList(lib: Lib, kind: ListType, query: seq<RuleList>, i: nat, domain: string, ghost s: Store) returns (v: Verdict)
      requires i < |query| && s == Contents()
      ensures Pass(lib, s, kind, query[i..], domain) == if v.match_ != MatchNone then v else Pass(lib, s, kind, query[i + 1..], domain)
    {
      var held := Held(lists, kind, query[i].short);
      if held.Some? {
        v := FindInList(lib, held.value, domain);
        PassHeld(lib, s, kind, query, i, domain, held.value, v);
      } else {
        PassNotHeld(lib, s, kind, query, i, domain);
        v := NONE;
      }
    }

    method FindMatch(lib: Lib, query: seq<RuleList>, domain: string) returns (v: Verdict)
      ensures v == Find(lib, Contents(), query, domain)
    {
      v := FirstOfType(lib, Allow, query, domain, Contents());
      if MatchNone != v.match_ {
        return v;
      }
      v := FirstOfType(lib, Block, query, domain, Contents());
    }
  }

  // ---- wildcard and regular expression tier ----

  /** The store chosen by the configuration, below the complex tier. */
  datatype Chosen = InMemory(memory: MemoryStore) | InHash(hash: HashStore) | InBloom(bloom: BloomStore) | InSql(sql: SqlStore)
  {
    function Footprint(): (r: set<object>) {
      match this
      case InMemory(memory) => {memory}
      case InHash(hash) => {hash} + if hash.delegate == null then {} else {hash.delegate}
      case InBloom(bloom) => {bloom} + bloom.backing.Footprint()
      case InSql(sql) => {sql}
    }

    ghost function Contents(): (s: Store)
      reads Footprint()
    {
      match this
      case InMemory(memory) => memory.Contents()
      case InHash(hash) => hash.Contents()
      case InBloom(bloom) => bloom.Contents()
      case InSql(sql) => sql.Contents()
    }
  }

  function Extended(lib: Lib, rules: map<string, seq<ComplexRule>>, list: RuleList, rule: string): (r: map<string, seq<ComplexRule>>) {
    var made := MakeComplex(lib, list, rule);
    if made.None? then rules else rules[list.canonical := At(rules, list.canonical, []) + [made.value]]
  }

  /** A load into the complex store, part by part. */
  lemma Loaded(lib: Lib, lists: Lists, rules: map<string, seq<ComplexRule>>, backing: Store, list: RuleList, rule: string)
    ensures var op := Op.Load(list, rule);
            Apply(lib, Complex(lists, rules, Some(backing)), op) ==
            if Simple(op) then Complex(AddList(lists, list), rules, Some(Apply(lib, backing, op)))
            else Complex(AddList(lists, list), Extended(lib, rules, list, rule), Some(backing))
  {
  }

  /** A lookup in the complex store, tier by tier. */
  lemma TierByTier(lib: Lib, s: Store, inner: Store, query: seq<RuleList>, domain: string)
    requires s.Complex? && s.backing == Some(inner)
    ensures var allow, block := Pass(lib, s, Allow, query, domain), Pass(lib, s, Block, query, domain);
            Find(lib, s, query, domain) ==
            if allow.match_ != MatchNone then allow else if block.match_ != MatchNone then block else Find(lib, inner, query, domain)
  {
  }

  class ComplexStore {
    var lists: Lists
    var complexRules: map<string, seq<ComplexRule>>
    const backing: Chosen

    constructor (backing: Chosen)
      ensures this.backing == backing && lists == map[] && complexRules == map[]
    {
      this.lists, this.complexRules, this.backing := map[], map[], backing;
    }

    ghost function Contents(): (s: Store)
      reads this, backing.Footprint()
    {
      Complex(lists, complexRules, Some(backing.Contents()))
    }

    method ForwardLoad(lib: Lib, list: RuleList, rule: string)
      modifies backing.Footprint()
      ensures backing.Contents() == Apply(lib, old(backing.Contents()), Op.Load(list, rule))
    {
      match backing
      case InMemory(memory) => memory.Load(list, rule);
      case InHash(hash) => hash.Load(lib, list, rule);
      case InBloom(bloom) => bloom.Load(lib, list, rule);
      case InSql(sql) => sql.Load(list, rule);
    }

    method ForwardClear(lib: Lib, list: RuleList)
      modifies backing.Footprint()
      ensures backing.Contents() == Apply(lib, old(backing.Contents()), Op.Clear(list))
    {
      match backing
      case InMemory(memory) => memory.Clear(list);
      case InHash(hash) => hash.Clear(lib, list);
      case InBloom(bloom) => bloom.Clear(lib, list);
      case InSql(sql) => sql.Clear(list);
    }

    method AddRule(lib: Lib, list: RuleList, rule: string)
      modifies this`complexRules
      ensures complexRules == Extended(lib, old(complexRules), list, rule)
    {
      var made := MakeComplex(lib, list, rule);
      if made.Some? {
        complexRules := complexRules[list.canonical := At(complexRules, list.canonical, []) + [made.value]];
      }
    }

    method Route(lib: Lib, list: RuleList, rule: string)
      modifies this`complexRules, backing.Footprint()
      ensures Simple(Op.Load(list, rule)) ==>
        complexRules == old(complexRules) && backing.Contents() == Apply(lib, old(backing.Contents()), Op.Load(list, rule))
      ensures !Simple(Op.Load(list, rule)) ==>
        complexRules == Extended(lib, old(complexRules), list, rule) && backing.Contents() == old(backing.Contents())
    {
      if list.regex || IsComplex(rule) {
        AddRule(lib, list, rule);
      } else {
        ForwardLoad(lib, list, rule);
      }
    }

    method Load(lib: Lib, list: RuleList, rule: string)
      modifies this, backing.Footprint()
      ensures Contents() == Apply(lib, old(Contents()), Op.Load(list, rule))
    {
      Loaded(lib, lists, complexRules, backing.Contents(), list, rule);
      Route(lib, list, rule);
      lists := AddList(lists, list);
    }

    method Clear(lib: Lib, list: RuleList)
      modifies this, backing.Footprint()
      ensures Contents() == Apply(lib, old(Contents()), Op.Clear(list))
    {
      complexRules := complexRules[list.canonical := []];
      lists := RemoveList(lists, list);
      ForwardClear(lib, list);
    }

    method Finalize(lib: Lib, ls: seq<RuleList>)
      modifies backing.Footprint()
      ensures Contents() == Apply(lib, old(Contents()), Op.Finalize(ls))
    {
      match backing
      case InMemory(memory) => memory.Finalize(ls);
      case InHash(hash) => hash.Finalize(lib, ls);
      case InBloom(bloom) => bloom.Finalize(lib, ls);
      case InSql(sql) => sql.Finalize(ls);
    }

    method FindInList(lib: Lib, list: RuleList, domain: string) returns (v: Verdict)
      ensures v == FindIn(lib, Contents(), list, domain)
    {
      if list.canonical !in complexRules {
        return NONE;
      }
      var rules := complexRules[list.canonical];
      var i := 0;
      assert rules[0..] == rules;
      while i < |rules|
        invariant 0 <= i <= |rules|
        invariant ScanComplex(lib, list, rules[i..], domain) == ScanComplex(lib, list, rules, domain)
      {
        assert rules[i..][1..] == rules[i + 1..];
        if IsMatch(lib, rules[i], domain) {
          return Verdict(MatchOf(list.kind), Some(list), rules[i].text);
        }
        i := i + 1;
      }
      return NONE;
    }

    /** matchForEachOfTypeIn, with the loop over complex rules as its closure. */
    method FirstOfType(lib: Lib, kind: ListType, query: seq<RuleList>, domain: string, ghost s: Store) returns (v: Verdict)
      requires s == Contents()
      ensures v == Pass(lib, s, kind, query, domain)
    {
      var i := 0;
      assert query[0..] == query;
      while i < |query|
        invariant 0 <= i <= |query|
        invariant Pass(lib, s, kind, query[i..], domain) == Pass(lib, s, kind, query, domain)
      {
        v := TryList(lib, kind, query, i, domain, s);
        if MatchNone != v.match_ {
          return v;
        }
        i := i + 1;
      }
      return NONE;
    }

    method TryList(lib: Lib, kind: ListType, query: seq<RuleList>, i: nat, domain: string, ghost s: Store) returns (v: Verdict)
      requires i < |query| && s == Contents()
      ensures Pass(lib, s, kind, query[i..], domain) == if v.match_ != MatchNone then v else Pass(lib, s, kind, query[i + 1..], domain)
    {
      var held := Held(lists, kind, query[i].short);
      if held.Some? {
        v := FindInList(lib, held.value, domain);
        PassHeld(lib, s, kind, query, i, domain, held.value, v);
      } else {
        PassNotHeld(lib, s, kind, query, i, domain);
        v := NONE;
      }
    }

    method FindInBacking(lib: Lib, query: seq<RuleList>, domain: string, ghost inner: Store) returns (v: Verdict)
      requires inner == backing.Contents()
      ensures v == Find(lib, inner, query, domain)
    {
      match backing
      case InMemory(memory) => v := memory.FindMatch(lib, query, domain);
      case InHash(hash) => v := hash.FindMatch(lib, query, domain);
      case InBloom(bloom) => v := bloom.FindMatch(lib, query, domain);
      case InSql(sql) => v := sql.FindMatch(lib, query, domain);
    }

    method FindInTiers(lib: Lib, query: seq<RuleList>, domain: string, ghost s: Store, ghost inner: Store) returns (v: Verdict)
      requires s == Contents() && inner == backing.Contents()
      ensures v == Find(lib, s, query, domain)
    {
      TierByTier(lib, s, inner, query, domain);
      v := FirstOfType(lib, Allow, query, domain, s);
      if MatchNone != v.match_ {
        return v;
      }
      v := FirstOfType(lib, Block, query, domain, s);
      if MatchNone != v.match_ {
        return v;
      }
      v := FindInBacking(lib, query, domain, inner);
    }

    method FindMatch(lib: Lib, query: seq<RuleList>, domain: string) returns (v: Verdict)
      ensures v == Find(lib, Contents(), query, domain)
    {
      v := FindInTiers(lib, query, domain, Contents(), backing.Contents());
    }
  }
}
