/** `Query.new(repository, model, options)`: validation of the arguments and of every
    recognised option, normalisation of order and fields, and translation of every other
    option into a condition. */
module Construction {
  import opened Wrappers
  import opened Core
  import opened Collections
  import opened Conditions
  import opened Descriptors

  /** The kinds of Hash key a caller can pass: a Symbol, a String, an operator-tagged
      Symbol such as `:author.like`, or anything else (nil, a number, ...). */
  datatype Key = SymbolKey(name: string) | StringKey(name: string) | OperatorKey(name: string, op: KeyOperator) | OtherKey

  /** The model argument: nil, a class that is not a resource, or a resource model. */
  datatype ModelArg = NoModel | PlainClass(name: string) | ResourceClass(model: Model)

  /** The options argument: a Hash (entries in insertion order) or anything else. */
  datatype OptionsArg = NotAHash | Hash(entries: seq<(Key, Value)>)

  datatype ErrorKind = TypeError | ArgumentError

  datatype Error =
    | NilRepository
    | NilModel
    | NotAResource
    | OptionsNotAHash
    | InvalidOption(option: string)
    | EmptyOption(option: string)
    | UnknownProperty(name: string)
    | InvalidKey
    | InvalidRawText
  {
    /** The Ruby exception class raised: only a nil repository is a TypeError. */
    function Kind(): ErrorKind {
      if NilRepository? then TypeError else ArgumentError
    }
  }

  /** The option names that are settings rather than conditions. */
  const OptionNames: set<string> := {"reload", "offset", "limit", "order", "fields", "links", "includes", "conditions"}

  /** A Ruby Hash never holds one key twice. */
  predicate DistinctKeys(es: seq<(Key, Value)>) {
    forall i, j :: 0 <= i < j < |es| ==> es[i].0 != es[j].0
  }

  /** The value stored under the Symbol key `name`, if any. */
  function OptionValue(es: seq<(Key, Value)>, name: string): (r: Option<Value>)
    ensures r.None? <==> forall i :: 0 <= i < |es| ==> es[i].0 != SymbolKey(name)
    ensures r.Some? ==> exists i :: 0 <= i < |es| && es[i] == (SymbolKey(name), r.value)
  {
    if |es| == 0 then None
    else if es[0].0 == SymbolKey(name) then Some(es[0].1)
    else
      var r := OptionValue(es[1..], name);
      assert r.Some? ==> exists i :: 0 <= i < |es[1..]| && es[1..][i] == (SymbolKey(name), r.value);
      assert forall i :: 1 <= i < |es| ==> es[i] == es[1..][i - 1];
      r
  }

  lemma OptionValueOfEntry(es: seq<(Key, Value)>, i: nat)
    requires DistinctKeys(es) && i < |es| && es[i].0.SymbolKey?
    ensures OptionValue(es, es[i].0.name) == Some(es[i].1)
  {
  }

  /** `reload` must be true or false; it defaults to false. */
  function ReloadOption(v: Option<Value>): (r: Result<bool, Error>)
    ensures r.Success? <==> v.None? || v.value.Bool?
    ensures r.Success? ==> r.value == (v.Some? && v.value.b)
    ensures r.Failure? ==> r.error == InvalidOption("reload")
  {
    match v
    case None => Success(false)
    case Some(Bool(b)) => Success(b)
    case Some(_) => Failure(InvalidOption("reload"))
  }

  /** `offset` must be an Integer of at least 0; it defaults to 0. */
  function OffsetOption(v: Option<Value>): (r: Result<nat, Error>)
    ensures r.Success? <==> v.None? || (v.value.Int? && v.value.i >= 0)
    ensures r.Success? ==> r.value == if v.Some? then v.value.i else 0
    ensures r.Failure? ==> r.error == InvalidOption("offset")
  {
    match v
    case None => Success(0)
    case Some(Int(i)) => if i >= 0 then Success(i) else Failure(InvalidOption("offset"))
    case Some(_) => Failure(InvalidOption("offset"))
  }

  /** `limit` must be an Integer of at least 1; it defaults to none. */
  function LimitOption(v: Option<Value>): (r: Result<Option<nat>, Error>)
    ensures r.Success? <==> v.None? || (v.value.Int? && v.value.i >= 1)
    ensures r.Success? ==> r.value == if v.Some? then Some(v.value.i as nat) else None
    ensures r.Failure? ==> r.error == InvalidOption("limit")
  {
    match v
    case None => Success(None)
    case Some(Int(i)) => if i >= 1 then Success(Some(i)) else Failure(InvalidOption("limit"))
    case Some(_) => Failure(InvalidOption("limit"))
  }

  /** The list options (order, fields, links, includes, conditions) must be non-empty
      Arrays when given. */
  function ListOption(name: string, v: Option<Value>): (r: Result<Option<seq<Value>>, Error>)
    ensures r.Success? <==> v.None? || (v.value.List? && |v.value.items| > 0)
    ensures r.Success? ==> r.value == if v.Some? then Some(v.value.items) else None
    ensures r.Failure? ==> r.error == (if v.value.List? then EmptyOption(name) else InvalidOption(name))
  {
    match v
    case None => Success(None)
    case Some(List(xs)) => if |xs| > 0 then Success(Some(xs)) else Failure(EmptyOption(name))
    case Some(_) => Failure(InvalidOption(name))
  }

  /** The property of the model with the given name, or the ArgumentError for an unknown name. */
  function Lookup(m: Model, name: string): (r: Result<Property, Error>)
    ensures r.Success? ==> r.value in m.properties && r.value.name == name
    ensures r.Failure? ==> r.error == UnknownProperty(name) && forall p :: p in m.properties ==> p.name != name
  {
    match PropertyNamed(m, name)
    case Some(p) => Success(p)
    case None => Failure(UnknownProperty(name))
  }

  /** The property name an `order` or `fields` element refers to: a direction's, a
      Symbol's or a String's; a Property or Direction object is passed by its name. */
  function RefName(x: Value): Option<string> {
    match x
    case DirectionRef(n, _) => Some(n)
    case Sym(n) => Some(n)
    case Str(n) => Some(n)
    case _ => None
  }

  /** One `order` element: a direction (`:name.desc`) or a bare name, which sorts ascending. */
  function ResolveDirection(m: Model, x: Value): (r: Result<Direction, Error>)
    ensures r.Success? <==> RefName(x).Some? && PropertyNamed(m, RefName(x).value).Some?
    ensures r.Success? ==> r.value.property == PropertyNamed(m, RefName(x).value).value
    ensures r.Success? ==> r.value.dir == if x.DirectionRef? then x.dir else Asc
    ensures r.Success? ==> r.value.property in m.properties
    ensures r.Failure? ==> r.error.Kind() == ArgumentError
  {
    match x
    case DirectionRef(n, dir) =>
      var p :- Lookup(m, n);
      Success(Direction(p, dir))
    case Sym(n) =>
      var p :- Lookup(m, n);
      Success(Direction(p, Asc))
    case Str(n) =>
      var p :- Lookup(m, n);
      Success(Direction(p, Asc))
    case _ => Failure(InvalidOption("order"))
  }

  /** Every element of an `order` list, position by position; the first that does not
      resolve is the error. */
  function ResolveDirections(m: Model, xs: seq<Value>): (r: Result<seq<Direction>, Error>)
    ensures r.Success? <==> forall i :: 0 <= i < |xs| ==> ResolveDirection(m, xs[i]).Success?
    ensures r.Success? ==> |r.value| == |xs|
    ensures r.Success? ==> forall i :: 0 <= i < |xs| ==> r.value[i] == ResolveDirection(m, xs[i]).value
    ensures r.Failure? ==> r.error.Kind() == ArgumentError
  {
    if |xs| == 0 then Success([])
    else
      assert forall i :: 1 <= i < |xs| ==> xs[1..][i - 1] == xs[i];
      var d :- ResolveDirection(m, xs[0]);
      var rest :- ResolveDirections(m, xs[1..]);
      Success([d] + rest)
  }

  /** One `fields` element: a property name as a Symbol or a String. */
  function ResolveField(m: Model, x: Value): (r: Result<Property, Error>)
    ensures r.Success? <==> (x.Sym? || x.Str?) && PropertyNamed(m, RefName(x).value).Some?
    ensures r.Success? ==> r.value == PropertyNamed(m, RefName(x).value).value
    ensures r.Success? ==> r.value in m.properties
    ensures r.Failure? ==> r.error.Kind() == ArgumentError
  {
    match x
    case Sym(n) => Lookup(m, n)
    case Str(n) => Lookup(m, n)
    case _ => Failure(InvalidOption("fields"))
  }

  /** Every element of a `fields` list, position by position; the first that does not
      resolve is the error. */
  function ResolveFields(m: Model, xs: seq<Value>): (r: Result<seq<Property>, Error>)
    ensures r.Success? <==> forall i :: 0 <= i < |xs| ==> ResolveField(m, xs[i]).Success?
    ensures r.Success? ==> |r.value| == |xs|
    ensures r.Success? ==> forall i :: 0 <= i < |xs| ==> r.value[i] == ResolveField(m, xs[i]).value
    ensures r.Failure? ==> r.error.Kind() == ArgumentError
  {
    if |xs| == 0 then Success([])
    else
      assert forall i :: 1 <= i < |xs| ==> xs[1..][i - 1] == xs[i];
      var p :- ResolveField(m, xs[0]);
      var rest :- ResolveFields(m, xs[1..]);
      Success([p] + rest)
  }

  /** `order`, normalised to directions on the model's properties, one per property (the
      first given for it, as `OrderKeepsFirsts` states); the model's default order when
      not given. */
  function OrderOption(m: Model, v: Option<Value>): (r: Result<seq<Direction>, Error>)
    ensures r.Success? <==>
      v.None? || (v.value.List? && |v.value.items| > 0 &&
                  forall i :: 0 <= i < |v.value.items| ==> ResolveDirection(m, v.value.items[i]).Success?)
    ensures r.Success? && v.None? ==> r.value == m.defaultOrder
    ensures r.Success? && v.Some? ==> DistinctBy(r.value, PropertyOf) && forall d :: d in r.value ==> d.property in m.properties
    ensures r.Success? && v.Some? ==> forall d :: d in r.value ==>
      exists i :: 0 <= i < |v.value.items| && d == ResolveDirection(m, v.value.items[i]).value
    ensures r.Success? && v.Some? ==> forall i :: 0 <= i < |v.value.items| ==>
      ResolveDirection(m, v.value.items[i]).value.property in KeysOf(r.value, PropertyOf)
    ensures r.Failure? ==> r.error.Kind() == ArgumentError
  {
    var items :- ListOption("order", v);
    match items
    case None => Success(m.defaultOrder)
    case Some(xs) =>
      var ds :- ResolveDirections(m, xs);
      DedupByContents(ds, PropertyOf);
      assert forall d :: d in ds ==> exists i :: 0 <= i < |xs| && d == ResolveDirection(m, xs[i]).value;
      Success(DedupBy(ds, PropertyOf))
  }

  /** `fields`, normalised to the model's property objects, each once, in the caller's
      order; the model's default field set when not given. */
  function FieldsOption(m: Model, v: Option<Value>): (r: Result<seq<Property>, Error>)
    ensures r.Success? <==>
      v.None? || (v.value.List? && |v.value.items| > 0 &&
                  forall i :: 0 <= i < |v.value.items| ==> ResolveField(m, v.value.items[i]).Success?)
    ensures r.Success? ==> DistinctBy(r.value, Identity) && forall p :: p in r.value ==> p in m.properties
    ensures r.Success? ==> (|r.value| > 0 <==> v.Some? || |Defaults(m.properties)| > 0)
    ensures r.Success? && v.None? ==> r.value == DedupBy(Defaults(m.properties), Identity)
    ensures r.Success? && v.Some? ==> forall p :: p in r.value <==>
      exists i :: 0 <= i < |v.value.items| && p == ResolveField(m, v.value.items[i]).value
    ensures r.Failure? ==> r.error.Kind() == ArgumentError
  {
    var items :- ListOption("fields", v);
    var ps :- match items
      case None => Success(Defaults(m.properties))
      case Some(xs) => ResolveFields(m, xs);
    DedupByContents(ps, Identity);
    DedupByIdentityMembers(ps);
    assert |ps| > 0 ==> ps[0] in ps;
    Success(DedupBy(ps, Identity))
  }

  /** An `order` whose elements resolve to directions on distinct properties gives exactly
      those directions, in the caller's order. */
  lemma OrderOfDistinct(m: Model, xs: seq<Value>)
    requires |xs| > 0 && forall i :: 0 <= i < |xs| ==> ResolveDirection(m, xs[i]).Success?
    requires forall i, j :: 0 <= i < j < |xs| ==>
      ResolveDirection(m, xs[i]).value.property != ResolveDirection(m, xs[j]).value.property
    ensures var r := OrderOption(m, Some(List(xs)));
      && r.Success? && |r.value| == |xs|
      && forall i :: 0 <= i < |xs| ==> r.value[i] == ResolveDirection(m, xs[i]).value
  {
    var ds := ResolveDirections(m, xs).value;
    assert DistinctBy(ds, PropertyOf);
    DedupByOfDistinct(ds, PropertyOf);
  }

  /** A `fields` list whose elements resolve to distinct properties gives exactly those
      properties, in the caller's order. */
  lemma FieldsOfDistinct(m: Model, xs: seq<Value>)
    requires |xs| > 0 && forall i :: 0 <= i < |xs| ==> ResolveField(m, xs[i]).Success?
    requires forall i, j :: 0 <= i < j < |xs| ==> ResolveField(m, xs[i]).value != ResolveField(m, xs[j]).value
    ensures var r := FieldsOption(m, Some(List(xs)));
      && r.Success? && |r.value| == |xs|
      && forall i :: 0 <= i < |xs| ==> r.value[i] == ResolveField(m, xs[i]).value
  {
    var ps := ResolveFields(m, xs).value;
    assert DistinctBy(ps, Identity);
    DedupByOfDistinct(ps, Identity);
  }

  /** When an `order` names a property more than once, the first direction given for it
      is kept: position `k` of the result is element `idx[k]` resolved, no earlier
      element is on its property, and the given order is kept. */
  lemma OrderKeepsFirsts(m: Model, xs: seq<Value>) returns (idx: seq<nat>)
    requires |xs| > 0 && forall i :: 0 <= i < |xs| ==> ResolveDirection(m, xs[i]).Success?
    ensures var r := OrderOption(m, Some(List(xs))).value;
      && |idx| == |r|
      && (forall k :: 0 <= k < |idx| ==> idx[k] < |xs| && r[k] == ResolveDirection(m, xs[idx[k]]).value)
      && (forall k, j :: 0 <= k < |idx| && 0 <= j < idx[k] ==>
            ResolveDirection(m, xs[j]).value.property != r[k].property)
      && (forall k, l :: 0 <= k < l < |idx| ==> idx[k] < idx[l])
  {
    var ds := ResolveDirections(m, xs).value;
    idx := DedupByFirsts(ds, PropertyOf);
  }

  /** When a `fields` list names a property more than once, it is kept at its first
      mention: position `k` of the result is element `idx[k]` resolved, no earlier
      element resolves to it, and the given order is kept. */
  lemma FieldsKeepsFirsts(m: Model, xs: seq<Value>) returns (idx: seq<nat>)
    requires |xs| > 0 && forall i :: 0 <= i < |xs| ==> ResolveField(m, xs[i]).Success?
    ensures var r := FieldsOption(m, Some(List(xs))).value;
      && |idx| == |r|
      && (forall k :: 0 <= k < |idx| ==> idx[k] < |xs| && r[k] == ResolveField(m, xs[idx[k]]).value)
      && (forall k, j :: 0 <= k < |idx| && 0 <= j < idx[k] ==> ResolveField(m, xs[j]).value != r[k])
      && (forall k, l :: 0 <= k < l < |idx| ==> idx[k] < idx[l])
  {
    var ps := ResolveFields(m, xs).value;
    idx := DedupByFirsts(ps, Identity);
  }

  /** A list of Direction objects as an `order` value: each by its property's name. */
  function DirectionRefs(ds: seq<Direction>): seq<Value> {
    seq(|ds|, i requires 0 <= i < |ds| => DirectionRef(ds[i].property.name, ds[i].dir))
  }

  /** A list of Property objects as a `fields` value: each by its name. */
  function FieldRefs(ps: seq<Property>): seq<Value> {
    seq(|ps|, i requires 0 <= i < |ps| => Sym(ps[i].name))
  }

  /** Directions on distinct properties of the model, each found by its name, are kept
      as given. */
  lemma OrderIsKept(m: Model, ds: seq<Direction>)
    requires |ds| > 0 && DistinctBy(ds, PropertyOf)
    requires forall i :: 0 <= i < |ds| ==> PropertyNamed(m, ds[i].property.name) == Some(ds[i].property)
    ensures OrderOption(m, Some(List(DirectionRefs(ds)))) == Success(ds)
  {
    var xs := DirectionRefs(ds);
    forall i | 0 <= i < |xs| ensures ResolveDirection(m, xs[i]) == Success(ds[i]) {
      assert xs[i] == DirectionRef(ds[i].property.name, ds[i].dir);
    }
    OrderOfDistinct(m, xs);
    var r := OrderOption(m, Some(List(xs))).value;
    assert |r| == |ds| && forall i :: 0 <= i < |ds| ==> r[i] == ds[i];
    assert r == ds;
  }

  /** Distinct properties of the model, each found by its name, are kept as given. */
  lemma FieldsAreKept(m: Model, ps: seq<Property>)
    requires |ps| > 0 && DistinctBy(ps, Identity)
    requires forall i :: 0 <= i < |ps| ==> PropertyNamed(m, ps[i].name) == Some(ps[i])
    ensures FieldsOption(m, Some(List(FieldRefs(ps)))) == Success(ps)
  {
    var xs := FieldRefs(ps);
    forall i | 0 <= i < |xs| ensures ResolveField(m, xs[i]) == Success(ps[i]) {
      assert xs[i] == Sym(ps[i].name);
    }
    FieldsOfDistinct(m, xs);
    var r := FieldsOption(m, Some(List(xs))).value;
    assert |r| == |ps| && forall i :: 0 <= i < |ps| ==> r[i] == ps[i];
    assert r == ps;
  }

  /** `links` and `includes` are passed through; they default to empty. */
  function PathsOption(name: string, v: Option<Value>): (r: Result<seq<Value>, Error>)
    ensures r.Success? <==> v.None? || (v.value.List? && |v.value.items| > 0)
    ensures r.Success? ==> r.value == if v.Some? then v.value.items else []
    ensures r.Failure? ==> r.error.Kind() == ArgumentError
  {
    var items :- ListOption(name, v);
    Success(if items.Some? then items.value else [])
  }

  /** `conditions => [text, *binds]` becomes one raw condition. */
  function RawConditions(v: Option<Value>): (r: Result<seq<Condition>, Error>)
    ensures r.Success? <==> v.None? || (v.value.List? && |v.value.items| > 0 && v.value.items[0].Str?)
    ensures r.Success? && v.None? ==> r.value == []
    ensures r.Success? && v.Some? ==> r.value == [RawSql(v.value.items[0].s, v.value.items[1..])]
    ensures r.Failure? ==> r.error.Kind() == ArgumentError
  {
    var items :- ListOption("conditions", v);
    match items
    case None => Success([])
    case Some(xs) =>
      if xs[0].Str? then Success([RawSql(xs[0].s, xs[1..])]) else Failure(InvalidRawText)
  }

  /** The condition one entry of the options stands for: none for a recognised option,
      equality for a plain property name, the tagged operator for `:name.op`. */
  function KeyCondition(m: Model, k: Key, v: Value): (r: Result<seq<Condition>, Error>)
    ensures k.SymbolKey? && k.name in OptionNames ==> r == Success([])
    ensures k.OtherKey? ==> r == Failure(InvalidKey)
    ensures r.Success? && r.value == [] ==> k.SymbolKey? && k.name in OptionNames
    ensures r.Success? && r.value != [] ==>
      && !k.OtherKey? && |r.value| == 1 && r.value[0].Cond?
      && r.value[0].op == (if k.OperatorKey? then k.op else Eql) && r.value[0].value == v
      && r.value[0].property in m.properties && r.value[0].property.name == k.name
    ensures r.Failure? ==> r.error.Kind() == ArgumentError
    ensures r.Failure? && !k.OtherKey? ==> forall p :: p in m.properties ==> p.name != k.name
  {
    match k
    case SymbolKey(n) =>
      if n in OptionNames then Success([])
      else
        var p :- Lookup(m, n);
        Success([Cond(Eql, p, v)])
    case StringKey(n) =>
      var p :- Lookup(m, n);
      Success([Cond(Eql, p, v)])
    case OperatorKey(n, op) =>
      var p :- Lookup(m, n);
      Success([Cond(op, p, v)])
    case OtherKey => Failure(InvalidKey)
  }

  /** The conditions of all non-option entries, in insertion order. */
  function KeyConditions(m: Model, es: seq<(Key, Value)>): (r: Result<seq<Condition>, Error>)
    ensures r.Success? <==> forall i :: 0 <= i < |es| ==> KeyCondition(m, es[i].0, es[i].1).Success?
    ensures r.Success? ==> |r.value| <= |es| && forall c :: c in r.value ==> c.Cond?
    ensures r.Failure? ==> r.error.Kind() == ArgumentError
  {
    if |es| == 0 then Success([])
    else
      assert forall i :: 1 <= i < |es| ==> es[1..][i - 1] == es[i];
      var first :- KeyCondition(m, es[0].0, es[0].1);
      var rest :- KeyConditions(m, es[1..]);
      Success(first + rest)
  }

  /** The descriptor for a resource model and a Hash of options. */
  function BuildFrom(repository: Repository, m: Model, es: seq<(Key, Value)>): (r: Result<Descriptor, Error>)
    ensures r.Failure? ==> r.error.Kind() == ArgumentError
    ensures r.Success? ==> r.value.repository == repository && r.value.model == m
    ensures r.Success? <==>
      && ReloadOption(OptionValue(es, "reload")).Success?
      && OffsetOption(OptionValue(es, "offset")).Success?
      && LimitOption(OptionValue(es, "limit")).Success?
      && OrderOption(m, OptionValue(es, "order")).Success?
      && FieldsOption(m, OptionValue(es, "fields")).Success?
      && PathsOption("links", OptionValue(es, "links")).Success?
      && PathsOption("includes", OptionValue(es, "includes")).Success?
      && KeyConditions(m, es).Success?
      && RawConditions(OptionValue(es, "conditions")).Success?
  {
    var reload :- ReloadOption(OptionValue(es, "reload"));
    var offset :- OffsetOption(OptionValue(es, "offset"));
    var limit :- LimitOption(OptionValue(es, "limit"));
    var order :- OrderOption(m, OptionValue(es, "order"));
    var fields :- FieldsOption(m, OptionValue(es, "fields"));
    var links :- PathsOption("links", OptionValue(es, "links"));
    var includes :- PathsOption("includes", OptionValue(es, "includes"));
    var keyed :- KeyConditions(m, es);
    var raw :- RawConditions(OptionValue(es, "conditions"));
    Success(Descriptor(repository, m, reload, offset, limit, order, fields, links, includes,
                       keyed + raw, Params(raw)))
  }

  /** On success every attribute is what its own option check makes of the value stored
      under its key, whatever else the Hash holds, and the conditions are those of the
      property keys, in insertion order, followed by the raw ones, whose binds are the
      parameters. */
  lemma BuildFromAttributes(repository: Repository, m: Model, es: seq<(Key, Value)>)
    ensures var r := BuildFrom(repository, m, es);
      var raw := RawConditions(OptionValue(es, "conditions"));
      r.Success? ==>
        && r.value.reload == ReloadOption(OptionValue(es, "reload")).value
        && r.value.offset == OffsetOption(OptionValue(es, "offset")).value
        && r.value.limit == LimitOption(OptionValue(es, "limit")).value
        && r.value.order == OrderOption(m, OptionValue(es, "order")).value
        && r.value.fields == FieldsOption(m, OptionValue(es, "fields")).value
        && r.value.links == PathsOption("links", OptionValue(es, "links")).value
        && r.value.includes == PathsOption("includes", OptionValue(es, "includes")).value
        && r.value.conditions == KeyConditions(m, es).value + raw.value
        && r.value.parameters == Params(raw.value)
  {
  }

  /** `Query.new(repository, model, options)`; absent options are the empty Hash. */
  function Build(repository: Option<Repository>, model: ModelArg, options: OptionsArg): (r: Result<Descriptor, Error>)
    ensures repository.None? ==> r == Failure(NilRepository)
    ensures repository.Some? && model.NoModel? ==> r == Failure(NilModel)
    ensures repository.Some? && model.PlainClass? ==> r == Failure(NotAResource)
    ensures repository.Some? && model.ResourceClass? && options.NotAHash? ==> r == Failure(OptionsNotAHash)
    ensures r.Failure? ==> (r.error.Kind() == TypeError <==> repository.None?)
    ensures r.Success? ==> r.value.repository == repository.value && r.value.model == model.model
  {
    if repository.None? then Failure(NilRepository)
    else if model.NoModel? then Failure(NilModel)
    else if model.PlainClass? then Failure(NotAResource)
    else if options.NotAHash? then Failure(OptionsNotAHash)
    else BuildFrom(repository.value, model.model, options.entries)
  }

  /** The descriptor `Query.new(repository, model)` gives: not reloading, no offset or
      limit, the model's default order and default fields, no links, includes or conditions. */
  function Default(repository: Repository, m: Model): (r: Descriptor)
    ensures forall p :: p in r.fields <==> p in m.properties && p.isDefault
    ensures DistinctBy(r.fields, Identity)
    ensures DistinctBy(m.properties, Identity) ==> r.fields == Defaults(m.properties)
  {
    DefaultFieldSet(m.properties);
    Descriptor(repository, m, false, 0, None, m.defaultOrder, DedupBy(Defaults(m.properties), Identity),
               [], [], [], [])
  }

  lemma DefaultFieldSet(ps: seq<Property>)
    ensures var f := DedupBy(Defaults(ps), Identity);
      && (forall p :: p in f <==> p in ps && p.isDefault)
      && DistinctBy(f, Identity)
      && (DistinctBy(ps, Identity) ==> f == Defaults(ps))
  {
    DedupByContents(Defaults(ps), Identity);
    DedupByIdentityMembers(Defaults(ps));
    if DistinctBy(ps, Identity) {
      DefaultsDistinct(ps);
      DedupByOfDistinct(Defaults(ps), Identity);
    }
  }

  /** The default field set of a duplicate-free property list is duplicate-free. */
  lemma {:induction false} DefaultsDistinct(ps: seq<Property>)
    requires DistinctBy(ps, Identity)
    ensures DistinctBy(Defaults(ps), Identity)
  {
    if |ps| > 0 {
      var tail := ps[1..];
      assert DistinctBy(tail, Identity) by {
        forall i, j | 0 <= i < j < |tail| ensures tail[i] != tail[j] {
          assert tail[i] == ps[i + 1] && tail[j] == ps[j + 1];
        }
      }
      DefaultsDistinct(tail);
      assert ps[0] !in tail by {
        forall i | 0 <= i < |tail| ensures tail[i] != ps[0] {
          assert tail[i] == ps[i + 1];
        }
      }
    }
  }

  /** A model whose default order is well-formed and which has a default field. */
  ghost predicate ValidModel(m: Model) {
    && |Defaults(m.properties)| > 0
    && DistinctBy(m.defaultOrder, PropertyOf)
    && forall d :: d in m.defaultOrder ==> d.property in m.properties
  }

  /** Options that are not recognised settings leave every setting at its default. */
  lemma NoSettings(es: seq<(Key, Value)>)
    requires forall i :: 0 <= i < |es| ==> !(es[i].0.SymbolKey? && es[i].0.name in OptionNames)
    ensures forall n :: n in OptionNames ==> OptionValue(es, n).None?
  {
  }

  lemma NoOtherSettings(es: seq<(Key, Value)>, name: string)
    requires |es| == 1 && es[0].0 == SymbolKey(name)
    ensures forall n :: n != name ==> OptionValue(es, n).None?
  {
  }

  /** A Hash of one recognised option leaves every other setting at its default and gives
      no conditions from keys. */
  lemma OneSetting(m: Model, name: string, v: Value)
    requires name in OptionNames
    ensures var es := [(SymbolKey(name), v)];
      && OptionValue(es, name) == Some(v)
      && (name != "reload" ==> ReloadOption(OptionValue(es, "reload")) == Success(false))
      && (name != "offset" ==> OffsetOption(OptionValue(es, "offset")) == Success(0))
      && (name != "limit" ==> LimitOption(OptionValue(es, "limit")) == Success(None))
      && (name != "order" ==> OrderOption(m, OptionValue(es, "order")) == Success(m.defaultOrder))
      && (name != "fields" ==>
            FieldsOption(m, OptionValue(es, "fields")) == Success(DedupBy(Defaults(m.properties), Identity)))
      && (name != "links" ==> PathsOption("links", OptionValue(es, "links")) == Success([]))
      && (name != "includes" ==> PathsOption("includes", OptionValue(es, "includes")) == Success([]))
      && (name != "conditions" ==> RawConditions(OptionValue(es, "conditions")) == Success([]))
      && KeyConditions(m, es) == Success([])
  {
    var es := [(SymbolKey(name), v)];
    NoOtherSettings(es, name);
    KeyConditionsOfOne(m, es[0].0, es[0].1);
  }

  lemma BuildWithoutOptions(repository: Repository, m: Model)
    ensures Build(Some(repository), ResourceClass(m), Hash([])) == Success(Default(repository, m))
  {
    var es: seq<(Key, Value)> := [];
    assert ReloadOption(OptionValue(es, "reload")) == Success(false);
    assert OffsetOption(OptionValue(es, "offset")) == Success(0);
    assert LimitOption(OptionValue(es, "limit")) == Success(None);
    assert OrderOption(m, OptionValue(es, "order")) == Success(m.defaultOrder);
    assert FieldsOption(m, OptionValue(es, "fields")) == Success(DedupBy(Defaults(m.properties), Identity));
    assert PathsOption("links", OptionValue(es, "links")) == Success([]);
    assert PathsOption("includes", OptionValue(es, "includes")) == Success([]);
    assert KeyConditions(m, es) == Success([]);
    assert RawConditions(OptionValue(es, "conditions")) == Success([]);
    var none: seq<Condition> := [];
    assert none + none == none;
    assert Params(none) == [];
    assert BuildFrom(repository, m, es) == Success(Default(repository, m));
  }

  /** Every query that construction accepts for a well-formed model satisfies the object
      invariant: a positive limit, distinct fields and order properties of the model,
      and bind parameters that are those of its raw conditions. */
  lemma BuildIsValid(repository: Option<Repository>, model: ModelArg, options: OptionsArg)
    requires model.ResourceClass? ==> ValidModel(model.model)
    requires Build(repository, model, options).Success?
    ensures Valid(Build(repository, model, options).value)
  {
    var m, es := model.model, options.entries;
    var keyed := KeyConditions(m, es).value;
    var raw := RawConditions(OptionValue(es, "conditions")).value;
    ParamsOfOperatorConditions(keyed);
    RawsAndParamsAppend(keyed, raw);
  }

  /** Which shape each recognised option's value must have. */
  predicate ShapeOk(name: string, v: Value) {
    if name == "reload" then v.Bool?
    else if name == "offset" then v.Int? && v.i >= 0
    else if name == "limit" then v.Int? && v.i >= 1
    else if name == "conditions" then v.List? && |v.items| > 0 && v.items[0].Str?
    else v.List? && |v.items| > 0
  }

  /** A recognised option whose value has the wrong shape (nil, `'true'` for reload, -1
      for offset, 0 for limit, an empty Array ...) makes construction raise ArgumentError. */
  lemma {:induction false} BadOptionRejected(repository: Repository, m: Model, es: seq<(Key, Value)>, i: nat)
    requires DistinctKeys(es) && i < |es|
    requires es[i].0.SymbolKey? && es[i].0.name in OptionNames && !ShapeOk(es[i].0.name, es[i].1)
    ensures var r := Build(Some(repository), ResourceClass(m), Hash(es));
      r.Failure? && r.error.Kind() == ArgumentError
  {
    OptionValueOfEntry(es, i);
    var name := es[i].0.name;
    BadValueFails(m, name, OptionValue(es, name));
    if name == "reload" {
      assert ReloadOption(OptionValue(es, "reload")).Failure?;
    } else if name == "offset" {
      assert OffsetOption(OptionValue(es, "offset")).Failure?;
    } else if name == "limit" {
      assert LimitOption(OptionValue(es, "limit")).Failure?;
    } else if name == "order" {
      assert OrderOption(m, OptionValue(es, "order")).Failure?;
    } else if name == "fields" {
      assert FieldsOption(m, OptionValue(es, "fields")).Failure?;
    } else if name == "links" {
      assert PathsOption("links", OptionValue(es, "links")).Failure?;
    } else if name == "includes" {
      assert PathsOption("includes", OptionValue(es, "includes")).Failure?;
    } else {
      assert RawConditions(OptionValue(es, "conditions")).Failure?;
    }
  }

  /** The validator of a recognised option rejects a value of the wrong shape. */
  lemma BadValueFails(m: Model, name: string, v: Option<Value>)
    requires name in OptionNames && v.Some? && !ShapeOk(name, v.value)
    ensures name == "reload" ==> ReloadOption(v).Failure?
    ensures name == "offset" ==> OffsetOption(v).Failure?
    ensures name == "limit" ==> LimitOption(v).Failure?
    ensures name == "order" ==> OrderOption(m, v).Failure?
    ensures name == "fields" ==> FieldsOption(m, v).Failure?
    ensures name == "links" || name == "includes" ==> PathsOption(name, v).Failure?
    ensures name == "conditions" ==> RawConditions(v).Failure?
  {
    if name == "order" || name == "fields" {
      assert ListOption(name, v).Failure?;
    }
  }

  lemma KeyConditionsOfOne(m: Model, k: Key, v: Value)
    ensures KeyConditions(m, [(k, v)]) == KeyCondition(m, k, v)
  {
    var es := [(k, v)];
    assert es[1..] == [];
    var none: seq<Condition> := [];
    assert KeyConditions(m, es[1..]) == Success(none);
    if KeyCondition(m, k, v).Success? {
      assert KeyCondition(m, k, v).value + none == KeyCondition(m, k, v).value;
    }
  }

  /** The conditions of a Hash are those of its first entries followed by those of the
      rest; it fails exactly when either part does. With `KeyConditionsOfOne` this fixes
      the conditions of every Hash, entry by entry, in insertion order. */
  lemma {:induction false} KeyConditionsAppend(m: Model, a: seq<(Key, Value)>, b: seq<(Key, Value)>)
    ensures KeyConditions(m, a + b).Success? <==> KeyConditions(m, a).Success? && KeyConditions(m, b).Success?
    ensures KeyConditions(m, a + b).Success? ==>
      KeyConditions(m, a + b).value == KeyConditions(m, a).value + KeyConditions(m, b).value
  {
    if |a| == 0 {
      assert a + b == b;
    } else {
      assert (a + b)[0] == a[0];
      assert (a + b)[1..] == a[1..] + b;
      KeyConditionsAppend(m, a[1..], b);
      var first := KeyCondition(m, a[0].0, a[0].1);
      if first.Success? && KeyConditions(m, a[1..] + b).Success? {
        assert first.value + (KeyConditions(m, a[1..]).value + KeyConditions(m, b).value)
          == (first.value + KeyConditions(m, a[1..]).value) + KeyConditions(m, b).value;
      }
    }
  }

  /** A key that is neither a recognised option nor a (possibly operator-tagged) name of a
      property of the model, such as nil, makes construction raise ArgumentError. */
  lemma BadKeyRejected(repository: Repository, m: Model, es: seq<(Key, Value)>, i: nat)
    requires i < |es|
    requires es[i].0.OtherKey? || (!(es[i].0.SymbolKey? && es[i].0.name in OptionNames) && PropertyNamed(m, es[i].0.name).None?)
    ensures var r := Build(Some(repository), ResourceClass(m), Hash(es));
      r.Failure? && r.error.Kind() == ArgumentError
  {
    assert KeyCondition(m, es[i].0, es[i].1).Failure?;
  }

  /** A plain property key gives an equality condition and an operator-tagged key gives a
      condition with that operator, on the property looked up in the model, with the value
      as given (a nested query included); nothing else changes. */
  lemma KeyGivesCondition(repository: Repository, m: Model, k: Key, v: Value)
    requires !k.OtherKey? && !(k.SymbolKey? && k.name in OptionNames)
    requires PropertyNamed(m, k.name).Some?
    ensures Build(Some(repository), ResourceClass(m), Hash([(k, v)])) ==
      Success(Default(repository, m).(conditions := [Cond(if k.OperatorKey? then k.op else Eql, PropertyNamed(m, k.name).value, v)]))
  {
    NoSettings([(k, v)]);
    KeyConditionsOfOne(m, k, v);
    var c := Cond(if k.OperatorKey? then k.op else Eql, PropertyNamed(m, k.name).value, v);
    assert KeyConditions(m, [(k, v)]) == Success([c]);
    var none: seq<Condition> := [];
    assert [c] + none == [c];
    assert Params(none) == [];
  }

  /** `conditions => [text]` gives the raw condition `[:raw, text]` and no parameters;
      `conditions => [text, *binds]` gives `[:raw, text, binds]` and the binds, in order,
      as parameters. */
  lemma RawConditionsGiveParameters(repository: Repository, m: Model, text: string, binds: seq<Value>)
    ensures Build(Some(repository), ResourceClass(m), Hash([(SymbolKey("conditions"), List([Str(text)] + binds))])) ==
      Success(Default(repository, m).(conditions := [RawSql(text, binds)], parameters := binds))
  {
    var es := [(SymbolKey("conditions"), List([Str(text)] + binds))];
    assert OptionValue(es, "conditions") == Some(List([Str(text)] + binds));
    NoOtherSettings(es, "conditions");
    assert ([Str(text)] + binds)[1..] == binds;
    KeyConditionsOfOne(m, es[0].0, es[0].1);
    var none: seq<Condition> := [];
    assert KeyConditions(m, es) == Success(none);
    var raw := [RawSql(text, binds)];
    assert raw[..0] == none;
    assert Params(raw) == Params(none) + binds;
    assert Params(none) == [];
    assert Params(raw) == binds;
    assert none + raw == raw;
    assert RawConditions(OptionValue(es, "conditions")) == Success(raw);
    assert ReloadOption(OptionValue(es, "reload")) == Success(false);
    assert OffsetOption(OptionValue(es, "offset")) == Success(0);
    assert LimitOption(OptionValue(es, "limit")) == Success(None);
    assert OrderOption(m, OptionValue(es, "order")) == Success(m.defaultOrder);
    assert FieldsOption(m, OptionValue(es, "fields")) == Success(DedupBy(Defaults(m.properties), Identity));
    assert PathsOption("links", OptionValue(es, "links")) == Success([]);
    assert PathsOption("includes", OptionValue(es, "includes")) == Success([]);
    assert BuildFrom(repository, m, es) == Success(Default(repository, m).(conditions := raw, parameters := binds));
  }

  /** A single well-formed reload, offset, limit, links or includes option sets that
      attribute to the given value and leaves the query otherwise at its defaults. */
  lemma SettingIsKept(repository: Repository, m: Model, name: string, v: Value)
    requires name in {"reload", "offset", "limit", "links", "includes"} && ShapeOk(name, v)
    ensures var r := Build(Some(repository), ResourceClass(m), Hash([(SymbolKey(name), v)]));
      var d := Default(repository, m);
      r.Success? &&
      r.value == (if name == "reload" then d.(reload := v.b)
                  else if name == "offset" then d.(offset := v.i)
                  else if name == "limit" then d.(limit := Some(v.i as nat))
                  else if name == "links" then d.(links := v.items)
                  else d.(includes := v.items))
  {
    OneSetting(m, name, v);
    var none: seq<Condition> := [];
    assert none + none == none;
    assert Params(none) == [];
  }

  /** `order => directions` on distinct properties of the model sets exactly the order,
      to those directions, and leaves the query otherwise at its defaults. */
  lemma OrderSettingIsKept(repository: Repository, m: Model, ds: seq<Direction>)
    requires |ds| > 0 && DistinctBy(ds, PropertyOf)
    requires forall i :: 0 <= i < |ds| ==> PropertyNamed(m, ds[i].property.name) == Some(ds[i].property)
    ensures Build(Some(repository), ResourceClass(m), Hash([(SymbolKey("order"), List(DirectionRefs(ds)))])) ==
      Success(Default(repository, m).(order := ds))
  {
    var es := [(SymbolKey("order"), List(DirectionRefs(ds)))];
    OneSetting(m, "order", es[0].1);
    OrderIsKept(m, ds);
    var none: seq<Condition> := [];
    assert none + none == none;
    assert Params(none) == [];
  }

  /** `fields => properties` of distinct properties of the model sets exactly the fields,
      to those properties in that order, and leaves the query otherwise at its defaults. */
  lemma FieldsSettingIsKept(repository: Repository, m: Model, ps: seq<Property>)
    requires |ps| > 0 && DistinctBy(ps, Identity)
    requires forall i :: 0 <= i < |ps| ==> PropertyNamed(m, ps[i].name) == Some(ps[i])
    ensures Build(Some(repository), ResourceClass(m), Hash([(SymbolKey("fields"), List(FieldRefs(ps)))])) ==
      Success(Default(repository, m).(fields := ps))
  {
    var es := [(SymbolKey("fields"), List(FieldRefs(ps)))];
    OneSetting(m, "fields", es[0].1);
    FieldsAreKept(m, ps);
    var none: seq<Condition> := [];
    assert none + none == none;
    assert Params(none) == [];
  }

  /** Updating with a query built from no options keeps the receiver's offset, limit and
      conditions: a 0 offset and a missing limit never overwrite. */
  lemma UpdateWithDefaultsKeepsPaging(a: Descriptor, m: Model)
    ensures Build(Some(a.repository), ResourceClass(m), Hash([])).Success?
    ensures var u := Merged(a, Build(Some(a.repository), ResourceClass(m), Hash([])).value);
      && u.offset == a.offset && u.limit == a.limit
      && u.conditions == a.conditions && u.parameters == a.parameters
      && u.model == m && !u.reload
  {
    BuildWithoutOptions(a.repository, m);
    var d := Default(a.repository, m);
    assert d.offset == 0 && d.limit.None? && d.model == m && !d.reload;
    var none: seq<Condition> := [];
    assert d.conditions == none && d.parameters == [];
    assert MergeConditions(a.conditions, none) == a.conditions;
    assert a.parameters + [] == a.parameters;
  }
}
