/** The plain values a query is built from: operator tags, properties and models,
    the loosely-typed option values a caller passes, and normalised conditions. */
module Core {
  import opened Wrappers

  /** The closed vocabulary of condition operators (Symbol::Operator tags plus :raw). */
  datatype Operator = Eql | Like | Lt | Lte | Gt | Gte | Not | In | Raw

  /** The operators an option key can carry: every tag except :raw. */
  type KeyOperator = op: Operator | op != Raw witness Eql

  datatype SortDir = Asc | Desc

  /** A property of a model: its name, the storage field it reads from, and whether it
      belongs to the model's default field set. */
  datatype Property = Property(name: string, field: string, isDefault: bool)

  /** One element of an `order` list. */
  datatype Direction = Direction(property: Property, dir: SortDir)

  /** A resource model: a fixed list of properties and the order used when none is given. */
  datatype Model = Model(name: string, properties: seq<Property>, defaultOrder: seq<Direction>)

  datatype Repository = Repository(name: string)

  /** The values a caller may put into an options Hash. Times are whole seconds; a nested
      query used as a sub-select is an opaque token compared by identity. */
  datatype Value =
    | Nil
    | Bool(b: bool)
    | Int(i: int)
    | Str(s: string)
    | Sym(name: string)
    | Regexp(source: string)
    | Time(seconds: int)
    | DirectionRef(name: string, dir: SortDir)
    | List(items: seq<Value>)
    | SubQuery(id: nat)

  /** A normalised condition: an operator-tagged triple, or raw SQL text with its
      positional bind values (no bind values is the two-element form `[:raw, text]`). */
  datatype Condition =
    | Cond(op: KeyOperator, property: Property, value: Value)
    | RawSql(text: string, binds: seq<Value>)
  {
    function Operator(): Operator {
      if Cond? then op else Raw
    }
  }

  /** The first property of `m` with the given name. */
  function PropertyNamed(m: Model, name: string): (r: Option<Property>)
    ensures r.Some? ==> r.value in m.properties && r.value.name == name
    ensures r.Some? ==> exists i :: (0 <= i < |m.properties| && m.properties[i] == r.value &&
      forall j :: 0 <= j < i ==> m.properties[j].name != name)
    ensures r.None? ==> forall p :: p in m.properties ==> p.name != name
    decreases |m.properties|
  {
    if |m.properties| == 0 then None
    else if m.properties[0].name == name then Some(m.properties[0])
    else
      var tail := m.(properties := m.properties[1..]);
      var r := PropertyNamed(tail, name);
      assert r.Some? ==> exists i :: (1 <= i < |m.properties| && m.properties[i] == r.value &&
        forall j :: 0 <= j < i ==> m.properties[j].name != name) by {
        if r.Some? {
          var i :| 0 <= i < |tail.properties| && tail.properties[i] == r.value &&
            forall j :: 0 <= j < i ==> tail.properties[j].name != name;
          assert m.properties[i + 1] == r.value;
          forall j | 0 <= j < i + 1 ensures m.properties[j].name != name {
            if j > 0 {
              assert m.properties[j] == tail.properties[j - 1];
            }
          }
        }
      }
      r
  }

  /** A property whose name no earlier property has is the one found by that name. */
  lemma {:induction false} PropertyNamedAt(m: Model, i: nat)
    requires i < |m.properties|
    requires forall j :: 0 <= j < i ==> m.properties[j].name != m.properties[i].name
    ensures PropertyNamed(m, m.properties[i].name) == Some(m.properties[i])
    decreases i
  {
    if i > 0 {
      var tail := m.(properties := m.properties[1..]);
      assert tail.properties[i - 1] == m.properties[i];
      forall j | 0 <= j < i - 1 ensures tail.properties[j].name != tail.properties[i - 1].name {
        assert tail.properties[j] == m.properties[j + 1];
      }
      PropertyNamedAt(tail, i - 1);
    }
  }

  /** The model's default field set, in declaration order. */
  function Defaults(props: seq<Property>): (r: seq<Property>)
    ensures forall p :: p in r <==> p in props && p.isDefault
    ensures |r| <= |props|
  {
    if |props| == 0 then []
    else (if props[0].isDefault then [props[0]] else []) + Defaults(props[1..])
  }

  /** The default field set of a concatenation is the concatenation of the default field
      sets, so the properties come out in the order the model declares them. */
  lemma {:induction false} DefaultsAppend(a: seq<Property>, b: seq<Property>)
    ensures Defaults(a + b) == Defaults(a) + Defaults(b)
  {
    if |a| == 0 {
      assert a + b == b;
    } else {
      assert (a + b)[1..] == a[1..] + b;
      DefaultsAppend(a[1..], b);
    }
  }

  /** One property is its own default field set exactly when it is in the default set. */
  lemma DefaultsOfOne(p: Property)
    ensures Defaults([p]) == if p.isDefault then [p] else []
  {
    assert [p][1..] == [];
  }

  /** Lexicographic order on strings, as Ruby's String#<=>. */
  predicate StrLess(a: string, b: string) {
    if |a| == 0 then |b| > 0
    else if |b| == 0 then false
    else if a[0] != b[0] then a[0] < b[0]
    else StrLess(a[1..], b[1..])
  }

  /** The natural ordering of the comparable kinds: integers, times, strings. */
  predicate Less(a: Value, b: Value) {
    match (a, b)
    case (Int(x), Int(y)) => x < y
    case (Time(x), Time(y)) => x < y
    case (Str(x), Str(y)) => StrLess(x, y)
    case _ => false
  }

  /** Values of one comparable kind, which Ruby's `<` accepts. */
  predicate Comparable(a: Value, b: Value) {
    (a.Int? && b.Int?) || (a.Time? && b.Time?) || (a.Str? && b.Str?)
  }

  lemma {:induction false} StrLessIsStrictTotal(a: string, b: string)
    ensures !StrLess(a, a)
    ensures StrLess(a, b) ==> !StrLess(b, a)
    ensures a == b || StrLess(a, b) || StrLess(b, a)
  {
    if |a| > 0 && |b| > 0 {
      StrLessIsStrictTotal(a[1..], b[1..]);
      assert a == [a[0]] + a[1..] && b == [b[0]] + b[1..];
    } else if |a| > 0 {
      StrLessIsStrictTotal(a[1..], a[1..]);
    }
  }

  lemma {:induction false} StrLessIsTransitive(a: string, b: string, c: string)
    requires StrLess(a, b) && StrLess(b, c)
    ensures StrLess(a, c)
  {
    if |a| > 0 && a[0] == b[0] && b[0] == c[0] {
      StrLessIsTransitive(a[1..], b[1..], c[1..]);
    }
  }

  /** Less is transitive. */
  lemma LessIsTransitive(a: Value, b: Value, c: Value)
    requires Less(a, b) && Less(b, c)
    ensures Less(a, c)
  {
    if a.Str? {
      StrLessIsTransitive(a.s, b.s, c.s);
    }
  }

  /** Less is irreflexive and asymmetric, total on each comparable kind, and relates no
      other pair. */
  lemma LessIsStrictOrder(a: Value, b: Value)
    ensures !Less(a, a)
    ensures Less(a, b) ==> !Less(b, a) && Comparable(a, b)
    ensures Comparable(a, b) ==> a == b || Less(a, b) || Less(b, a)
  {
    if a.Str? {
      StrLessIsStrictTotal(a.s, a.s);
      if b.Str? {
        StrLessIsStrictTotal(a.s, b.s);
      }
    }
  }
}
