/** The fixtures of the query specification, an `Article` model on a `:mock` repository,
    and the concrete outcomes its examples assert. */
module Examples {
  import opened Wrappers
  import opened Core
  import opened Collections
  import opened Conditions
  import opened Descriptors
  import opened Construction
  import opened QueryObject

  const Mock := Repository("mock")

  const Id := Property("id", "id", true)
  const BlogId := Property("blog_id", "blog_id", true)
  const CreatedAt := Property("created_at", "created_at", true)
  const Author := Property("author", "author", true)
  const Title := Property("title", "title", true)

  const Article := Model("Article", [Id, BlogId, CreatedAt, Author, Title], [])
  const Comment := Model("Comment", [Id, Author], [])

  /** The attributes the `#update` examples start from: reload, offset 1, limit 2, order
      by creation time descending, fields id and author, includes `[:stub]`. */
  const UpdatedOptions: seq<(Key, Value)> := [
    (SymbolKey("reload"), Bool(true)),
    (SymbolKey("offset"), Int(1)),
    (SymbolKey("limit"), Int(2)),
    (SymbolKey("order"), List([DirectionRef("created_at", Desc)])),
    (SymbolKey("fields"), List([Sym("id"), Sym("author")])),
    (SymbolKey("includes"), List([Sym("stub")]))]

  function Updated(m: Model): Descriptor {
    Descriptor(Mock, m, true, 1, Some(2), [Direction(CreatedAt, Desc)], [Id, Author],
               [], [Sym("stub")], [], [])
  }

  /** A property list whose every member is in the default set is its own default set. */
  lemma {:induction false} AllDefault(ps: seq<Property>)
    requires forall i :: 0 <= i < |ps| ==> ps[i].isDefault
    ensures Defaults(ps) == ps
  {
    if |ps| > 0 {
      AllDefault(ps[1..]);
      assert [ps[0]] + ps[1..] == ps;
    }
  }

  lemma ArticlePropertiesDistinct()
    ensures DistinctBy(Article.properties, Identity)
    ensures forall i, j :: 0 <= i < j < |Article.properties| ==> Article.properties[i].name != Article.properties[j].name
  {
    var ps := Article.properties;
    forall i, j | 0 <= i < j < |ps| ensures ps[i].name != ps[j].name {
    }
  }

  /** The default field set of `Article` is all five properties, in declaration order. */
  lemma ArticleDefaultFields()
    ensures Default(Mock, Article).fields == Article.properties
  {
    AllDefault(Article.properties);
    ArticlePropertiesDistinct();
    DedupByOfDistinct(Article.properties, Identity);
  }

  lemma OrderByCreatedAt(m: Model, v: Option<Value>)
    requires PropertyNamed(m, "created_at") == Some(CreatedAt)
    requires v == Some(List([DirectionRef("created_at", Desc)]))
    ensures OrderOption(m, v) == Success([Direction(CreatedAt, Desc)])
  {
    var ds := [Direction(CreatedAt, Desc)];
    assert DirectionRefs(ds) == [DirectionRef("created_at", Desc)];
    OrderIsKept(m, ds);
  }

  /** `Article` after `property :plank, String, :field => 'real_plank'`. */
  const Plank := Property("plank", "real_plank", true)

  /** `order => [:plank.desc]` gives one descending direction on `plank`, whose storage
      field is `real_plank`; the query is otherwise the default one. */
  lemma OrderByPlank(m: Model)
    requires PropertyNamed(m, "plank") == Some(Plank)
    ensures var r := Build(Some(Mock), ResourceClass(m), Hash([(SymbolKey("order"), List([DirectionRef("plank", Desc)]))]));
      && r.Success? && |r.value.order| == 1
      && r.value.order[0].property == Plank && r.value.order[0].property.field == "real_plank"
      && r.value.order[0].dir == Desc
      && r.value == Default(Mock, m).(order := [Direction(Plank, Desc)])
  {
    var ds := [Direction(Plank, Desc)];
    assert DirectionRefs(ds) == [DirectionRef("plank", Desc)];
    OrderSettingIsKept(Mock, m, ds);
  }

  lemma FieldsIdAuthor(m: Model, v: Option<Value>)
    requires PropertyNamed(m, "id") == Some(Id) && PropertyNamed(m, "author") == Some(Author)
    requires v == Some(List([Sym("id"), Sym("author")]))
    ensures FieldsOption(m, v) == Success([Id, Author])
  {
    var ps := [Id, Author];
    assert DistinctBy(ps, Identity) by {
      assert Id.name != Author.name;
    }
    assert PropertyNamed(m, ps[0].name) == Some(ps[0]) && PropertyNamed(m, ps[1].name) == Some(ps[1]);
    assert FieldRefs(ps) == [Sym("id"), Sym("author")];
    FieldsAreKept(m, ps);
  }

  lemma UpdatedPaging()
    ensures OptionValue(UpdatedOptions, "reload") == Some(Bool(true))
    ensures OptionValue(UpdatedOptions, "offset") == Some(Int(1))
    ensures OptionValue(UpdatedOptions, "limit") == Some(Int(2))
  {
  }

  lemma UpdatedLists()
    ensures OptionValue(UpdatedOptions, "order") == Some(List([DirectionRef("created_at", Desc)]))
    ensures OptionValue(UpdatedOptions, "fields") == Some(List([Sym("id"), Sym("author")]))
  {
  }

  lemma UpdatedPaths()
    ensures OptionValue(UpdatedOptions, "includes") == Some(List([Sym("stub")]))
  {
  }

  lemma UpdatedAbsent()
    ensures OptionValue(UpdatedOptions, "links") == None
    ensures OptionValue(UpdatedOptions, "conditions") == None
  {
  }

  /** The settings of the `#update` examples, over a model whose lookups find the
      properties they name. */
  predicate UpdatedGiven(m: Model, es: seq<(Key, Value)>) {
    && PropertyNamed(m, "id") == Some(Id) && PropertyNamed(m, "author") == Some(Author)
    && PropertyNamed(m, "created_at") == Some(CreatedAt)
    && OptionValue(es, "reload") == Some(Bool(true))
    && OptionValue(es, "offset") == Some(Int(1))
    && OptionValue(es, "limit") == Some(Int(2))
    && OptionValue(es, "order") == Some(List([DirectionRef("created_at", Desc)]))
    && OptionValue(es, "fields") == Some(List([Sym("id"), Sym("author")]))
    && OptionValue(es, "links") == None
    && OptionValue(es, "includes") == Some(List([Sym("stub")]))
    && OptionValue(es, "conditions") == None
  }

  /** The settings of the `#update` examples that name no property are accepted with
      the value stated. */
  lemma UpdatedSettings(es: seq<(Key, Value)>)
    requires OptionValue(es, "reload") == Some(Bool(true))
    requires OptionValue(es, "offset") == Some(Int(1))
    requires OptionValue(es, "limit") == Some(Int(2))
    requires OptionValue(es, "links") == None
    requires OptionValue(es, "includes") == Some(List([Sym("stub")]))
    requires OptionValue(es, "conditions") == None
    ensures ReloadOption(OptionValue(es, "reload")) == Success(true)
    ensures OffsetOption(OptionValue(es, "offset")) == Success(1)
    ensures LimitOption(OptionValue(es, "limit")) == Success(Some(2))
    ensures PathsOption("links", OptionValue(es, "links")) == Success([])
    ensures PathsOption("includes", OptionValue(es, "includes")) == Success([Sym("stub")])
    ensures RawConditions(OptionValue(es, "conditions")) == Success([])
  {
  }

  /** Any options with the settings of the `#update` examples and no other keys build
      the `Updated` descriptor. */
  lemma BuildUpdated(m: Model, es: seq<(Key, Value)>)
    requires UpdatedGiven(m, es)
    requires forall i :: 0 <= i < |es| ==> es[i].0.SymbolKey? && es[i].0.name in OptionNames
    ensures Build(Some(Mock), ResourceClass(m), Hash(es)) == Success(Updated(m))
  {
    UpdatedIsAccepted(m, es);
    AcceptedBuildsUpdated(m, es);
  }

  /** What each option check makes of the settings of the `#update` examples. */
  predicate UpdatedAccepted(m: Model, es: seq<(Key, Value)>) {
    && ReloadOption(OptionValue(es, "reload")) == Success(true)
    && OffsetOption(OptionValue(es, "offset")) == Success(1)
    && LimitOption(OptionValue(es, "limit")) == Success(Some(2))
    && OrderOption(m, OptionValue(es, "order")) == Success([Direction(CreatedAt, Desc)])
    && FieldsOption(m, OptionValue(es, "fields")) == Success([Id, Author])
    && PathsOption("links", OptionValue(es, "links")) == Success([])
    && PathsOption("includes", OptionValue(es, "includes")) == Success([Sym("stub")])
    && KeyConditions(m, es) == Success([])
    && RawConditions(OptionValue(es, "conditions")) == Success([])
  }

  lemma UpdatedIsAccepted(m: Model, es: seq<(Key, Value)>)
    requires UpdatedGiven(m, es)
    requires forall i :: 0 <= i < |es| ==> es[i].0.SymbolKey? && es[i].0.name in OptionNames
    ensures UpdatedAccepted(m, es)
  {
    UpdatedSettings(es);
    OrderByCreatedAt(m, OptionValue(es, "order"));
    FieldsIdAuthor(m, OptionValue(es, "fields"));
    OptionKeysGiveNoConditions(m, es);
  }

  lemma AcceptedBuildsUpdated(m: Model, es: seq<(Key, Value)>)
    requires UpdatedAccepted(m, es)
    ensures BuildFrom(Mock, m, es) == Success(Updated(m))
  {
    BuildFromSettings(Mock, m, es, true, 1, Some(2), [Direction(CreatedAt, Desc)], [Id, Author],
                      [], [Sym("stub")]);
  }

  /** Options whose every setting is accepted, and which give no conditions, build the
      descriptor holding those settings. */
  lemma BuildFromSettings(repository: Repository, m: Model, es: seq<(Key, Value)>, reload: bool,
                          offset: nat, limit: Option<nat>, order: seq<Direction>,
                          fields: seq<Property>, links: seq<Value>, includes: seq<Value>)
    requires ReloadOption(OptionValue(es, "reload")) == Success(reload)
    requires OffsetOption(OptionValue(es, "offset")) == Success(offset)
    requires LimitOption(OptionValue(es, "limit")) == Success(limit)
    requires OrderOption(m, OptionValue(es, "order")) == Success(order)
    requires FieldsOption(m, OptionValue(es, "fields")) == Success(fields)
    requires PathsOption("links", OptionValue(es, "links")) == Success(links)
    requires PathsOption("includes", OptionValue(es, "includes")) == Success(includes)
    requires KeyConditions(m, es) == Success([])
    requires RawConditions(OptionValue(es, "conditions")) == Success([])
    ensures BuildFrom(repository, m, es)
      == Success(Descriptor(repository, m, reload, offset, limit, order, fields, links, includes, [], []))
  {
    var none: seq<Condition> := [];
    assert none + none == none;
    assert Params(none) == [];
  }

  lemma UpdatedKeys()
    ensures forall i :: 0 <= i < |UpdatedOptions| ==> UpdatedOptions[i].0.SymbolKey? && UpdatedOptions[i].0.name in OptionNames
  {
  }

  /** The options of the `#update` examples build the `Updated` descriptor. */
  lemma UpdatedOptionsBuild()
    ensures Build(Some(Mock), ResourceClass(Article), Hash(UpdatedOptions)) == Success(Updated(Article))
  {
    UpdatedPaging();
    UpdatedLists();
    UpdatedPaths();
    UpdatedAbsent();
    UpdatedKeys();
    ArticleLookups();
    BuildUpdated(Article, UpdatedOptions);
  }

  /** Entries whose keys are all recognised options give no conditions. */
  lemma {:induction false} OptionKeysGiveNoConditions(m: Model, es: seq<(Key, Value)>)
    requires forall i :: 0 <= i < |es| ==> es[i].0.SymbolKey? && es[i].0.name in OptionNames
    ensures KeyConditions(m, es) == Success([])
  {
    if |es| > 0 {
      assert forall i :: 0 <= i < |es[1..]| ==> es[1..][i] == es[i + 1];
      OptionKeysGiveNoConditions(m, es[1..]);
      var none: seq<Condition> := [];
      assert none + none == none;
    }
  }

  /** `fields => [:id]` is normalised to the `id` property. */
  lemma FieldsAreNormalised(m: Model)
    requires PropertyNamed(m, "id") == Some(Id)
    ensures var r := Build(Some(Mock), ResourceClass(m), Hash([(SymbolKey("fields"), List([Sym("id")]))]));
      r.Success? && r.value.fields == [Id]
  {
    assert FieldRefs([Id]) == [Sym("id")];
    FieldsSettingIsKept(Mock, m, [Id]);
  }

  lemma ArticleLookups()
    ensures PropertyNamed(Article, "id") == Some(Id)
    ensures PropertyNamed(Article, "blog_id") == Some(BlogId)
    ensures PropertyNamed(Article, "created_at") == Some(CreatedAt)
    ensures PropertyNamed(Article, "author") == Some(Author)
    ensures PropertyNamed(Article, "title") == Some(Title)
  {
    ArticleFindsEach();
    assert Article.properties[0] == Id && Article.properties[1] == BlogId;
    assert Article.properties[2] == CreatedAt && Article.properties[3] == Author && Article.properties[4] == Title;
  }

  /** Each property of `Article` is the one found by its name. */
  lemma ArticleFindsEach()
    ensures forall i :: 0 <= i < |Article.properties| ==>
      PropertyNamed(Article, Article.properties[i].name) == Some(Article.properties[i])
  {
    ArticlePropertiesDistinct();
    forall i | 0 <= i < |Article.properties|
      ensures PropertyNamed(Article, Article.properties[i].name) == Some(Article.properties[i])
    {
      PropertyNamedAt(Article, i);
    }
  }

  /** GOOD_OPTIONS `order => [Direction.new(created_at, :desc)]` sets exactly that order. */
  lemma GoodOrderIsKept(m: Model)
    requires PropertyNamed(m, "created_at") == Some(CreatedAt)
    ensures Build(Some(Mock), ResourceClass(m), Hash([(SymbolKey("order"), List([DirectionRef("created_at", Desc)]))])) ==
      Success(Default(Mock, m).(order := [Direction(CreatedAt, Desc)]))
  {
    var ds := [Direction(CreatedAt, Desc)];
    assert DirectionRefs(ds) == [DirectionRef("created_at", Desc)];
    OrderSettingIsKept(Mock, m, ds);
  }

  /** GOOD_OPTIONS `fields => Article.properties(:default).defaults.to_a` gives the
      default query back: its fields are that set, in that order. */
  lemma GoodFieldsAreKept()
    ensures var ps := Default(Mock, Article).fields;
      Build(Some(Mock), ResourceClass(Article), Hash([(SymbolKey("fields"), List(FieldRefs(ps)))])) ==
        Success(Default(Mock, Article))
  {
    var ps := Article.properties;
    ArticleDefaultFields();
    ArticlePropertiesDistinct();
    ArticleFindsEach();
    FieldsSettingIsKept(Mock, Article, ps);
  }

  /** `:author => 'dkubb'` gives `[[:eql, author, 'dkubb']]` on any model whose
      `author` is the `Article` one. */
  lemma SymbolKeyGivesEquality(m: Model)
    requires PropertyNamed(m, "author") == Some(Author)
    ensures Build(Some(Mock), ResourceClass(m), Hash([(SymbolKey("author"), Str("dkubb"))])) ==
      Success(Default(Mock, m).(conditions := [Cond(Eql, Author, Str("dkubb"))]))
  {
    KeyGivesCondition(Mock, m, SymbolKey("author"), Str("dkubb"));
  }

  /** A property key beside paging options: `:author => 'dkubb', :offset => 5, :limit => 1`. */
  const KeyBesideOptions: seq<(Key, Value)> := [
    (SymbolKey("author"), Str("dkubb")), (SymbolKey("offset"), Int(5)), (SymbolKey("limit"), Int(1))]

  /** A property key beside paging options keeps the condition and both settings. */
  lemma KeyBesideSettings(m: Model)
    requires PropertyNamed(m, "author") == Some(Author)
    ensures Build(Some(Mock), ResourceClass(m), Hash(KeyBesideOptions)) ==
      Success(Default(Mock, m).(offset := 5, limit := Some(1), conditions := [Cond(Eql, Author, Str("dkubb"))]))
  {
    KeyBesideValues();
    KeyBesideConditions(m);
    PagingBesideKey(m, KeyBesideOptions, [Cond(Eql, Author, Str("dkubb"))]);
  }

  lemma KeyBesideValues()
    ensures OptionValue(KeyBesideOptions, "offset") == Some(Int(5))
    ensures OptionValue(KeyBesideOptions, "limit") == Some(Int(1))
    ensures OptionValue(KeyBesideOptions, "reload") == None
    ensures OptionValue(KeyBesideOptions, "order") == None
    ensures OptionValue(KeyBesideOptions, "fields") == None
    ensures OptionValue(KeyBesideOptions, "links") == None
    ensures OptionValue(KeyBesideOptions, "includes") == None
    ensures OptionValue(KeyBesideOptions, "conditions") == None
  {
  }

  lemma KeyBesideConditions(m: Model)
    requires PropertyNamed(m, "author") == Some(Author)
    ensures KeyConditions(m, KeyBesideOptions) == Success([Cond(Eql, Author, Str("dkubb"))])
  {
    var head: seq<(Key, Value)> := [(SymbolKey("author"), Str("dkubb"))];
    var tail: seq<(Key, Value)> := [(SymbolKey("offset"), Int(5)), (SymbolKey("limit"), Int(1))];
    var c := Cond(Eql, Author, Str("dkubb"));
    assert KeyBesideOptions == head + tail;
    KeyConditionsAppend(m, head, tail);
    KeyConditionsOfOne(m, SymbolKey("author"), Str("dkubb"));
    assert KeyCondition(m, SymbolKey("author"), Str("dkubb")) == Success([c]);
    assert KeyConditions(m, tail) == Success([]) by {
      OptionKeysGiveNoConditions(m, tail);
    }
    assert [c] + [] == [c];
  }

  /** Options holding only an offset, a limit and property keys build the default query
      with that paging and the keys' conditions. */
  lemma PagingBesideKey(m: Model, es: seq<(Key, Value)>, cs: seq<Condition>)
    requires OptionValue(es, "offset") == Some(Int(5)) && OptionValue(es, "limit") == Some(Int(1))
    requires OptionValue(es, "reload") == None && OptionValue(es, "order") == None
    requires OptionValue(es, "fields") == None && OptionValue(es, "links") == None
    requires OptionValue(es, "includes") == None && OptionValue(es, "conditions") == None
    requires KeyConditions(m, es) == Success(cs)
    ensures Build(Some(Mock), ResourceClass(m), Hash(es)) ==
      Success(Default(Mock, m).(offset := 5, limit := Some(1), conditions := cs))
  {
    BuildFromAttributes(Mock, m, es);
    assert cs + [] == cs;
  }

  /** `:author.like => regexp` gives `[[:like, author, regexp]]`. */
  lemma OperatorKeyGivesOperator(m: Model)
    requires PropertyNamed(m, "author") == Some(Author)
    ensures Build(Some(Mock), ResourceClass(m), Hash([(OperatorKey("author", Like), Regexp(@"\Ad(?:an\.)kubb\z"))])) ==
      Success(Default(Mock, m).(conditions := [Cond(Like, Author, Regexp(@"\Ad(?:an\.)kubb\z"))]))
  {
    KeyGivesCondition(Mock, m, OperatorKey("author", Like), Regexp(@"\Ad(?:an\.)kubb\z"));
  }

  /** `:id.in => other_query` gives one `in` condition on `id` holding that query. */
  lemma SubSelect(m: Model, acl: nat)
    requires PropertyNamed(m, "id") == Some(Id)
    ensures Build(Some(Mock), ResourceClass(m), Hash([(OperatorKey("id", In), SubQuery(acl))])) ==
      Success(Default(Mock, m).(conditions := [Cond(In, Id, SubQuery(acl))]))
  {
    KeyGivesCondition(Mock, m, OperatorKey("id", In), SubQuery(acl));
  }

  /** `nil => nil`, `:offset => -1` and `:limit => 0` raise ArgumentError; a nil
      repository raises TypeError. */
  lemma BadArgumentsRejected()
    ensures Build(Some(Mock), ResourceClass(Article), Hash([(OtherKey, Nil)])).Failure?
    ensures Build(Some(Mock), ResourceClass(Article), Hash([(SymbolKey("offset"), Int(-1))])).Failure?
    ensures Build(Some(Mock), ResourceClass(Article), Hash([(SymbolKey("limit"), Int(0))])).Failure?
    ensures Build(None, PlainClass("NormalClass"), Hash([])).error.Kind() == TypeError
  {
    BadKeyRejected(Mock, Article, [(OtherKey, Nil)], 0);
    BadOptionRejected(Mock, Article, [(SymbolKey("offset"), Int(-1))], 0);
    BadOptionRejected(Mock, Article, [(SymbolKey("limit"), Int(0))], 0);
  }

  /** A single condition of the other query on the pair the receiver already holds
      leaves one condition, with the resolved value. */
  lemma OneOnOne(q: Descriptor, b: Descriptor, op: KeyOperator, p: Property, mine: Value, theirs: Value)
    requires q.conditions == [Cond(op, p, mine)] && b.conditions == [Cond(op, p, theirs)]
    ensures Merged(q, b).conditions == [Cond(op, p, Resolve(op, mine, theirs))]
  {
    var none: seq<Condition> := [];
    assert b.conditions[..0] == none;
    assert MergeConditions(q.conditions, none) == q.conditions;
    assert FindMatch(q.conditions, op, p) == Some(0);
    assert MergeConditions(q.conditions, b.conditions) == MergeCondition(q.conditions, b.conditions[0]);
  }

  /** eql and like take the other query's value. */
  lemma EqualityIsOverwritten(q: Descriptor, b: Descriptor, op: KeyOperator)
    requires op == Eql || op == Like
    requires q.conditions == [Cond(op, Author, Str("ssmoot"))] && b.conditions == [Cond(op, Author, Str("dkubb"))]
    ensures Merged(q, b).conditions == [Cond(op, Author, Str("dkubb"))]
  {
    OneOnOne(q, b, op, Author, Str("ssmoot"), Str("dkubb"));
  }

  /** gt and gte keep `Time.at(0)` whichever side holds it. */
  lemma LowerBoundKeepsSmaller(q: Descriptor, b: Descriptor, op: KeyOperator, t: int)
    requires op == Gt || op == Gte
    requires t == 0 || t == 1
    requires q.conditions == [Cond(op, CreatedAt, Time(t))] && b.conditions == [Cond(op, CreatedAt, Time(1 - t))]
    ensures Merged(q, b).conditions == [Cond(op, CreatedAt, Time(0))]
  {
    OneOnOne(q, b, op, CreatedAt, Time(t), Time(1 - t));
  }

  /** lt and lte keep `Time.at(1)` whichever side holds it. */
  lemma UpperBoundKeepsLarger(q: Descriptor, b: Descriptor, op: KeyOperator, t: int)
    requires op == Lt || op == Lte
    requires t == 0 || t == 1
    requires q.conditions == [Cond(op, CreatedAt, Time(t))] && b.conditions == [Cond(op, CreatedAt, Time(1 - t))]
    ensures Merged(q, b).conditions == [Cond(op, CreatedAt, Time(1))]
  {
    OneOnOne(q, b, op, CreatedAt, Time(t), Time(1 - t));
  }

  /** not and in concatenate `[Time.at(0)]` and `[Time.at(1)]`. */
  lemma ListsAreJoined(q: Descriptor, b: Descriptor, op: KeyOperator)
    requires op == Not || op == In
    requires q.conditions == [Cond(op, CreatedAt, List([Time(0)]))] && b.conditions == [Cond(op, CreatedAt, List([Time(1)]))]
    ensures Merged(q, b).conditions == [Cond(op, CreatedAt, List([Time(0), Time(1)]))]
  {
    OneOnOne(q, b, op, CreatedAt, List([Time(0)]), List([Time(1)]));
    assert [Time(0)] + [Time(1)] == [Time(0), Time(1)];
  }

  /** A condition on a new pair, or a raw condition of one or two elements, is appended
      after the title condition. */
  lemma NewConditionsAreAppended(q: Descriptor, b: Descriptor)
    requires q.conditions == [Cond(Eql, Title, Str("On DataMapper"))]
    requires || b.conditions == [Cond(Eql, Author, Str("dkubb"))]
             || b.conditions == [RawSql("author = \"dkubb\"", [])]
             || b.conditions == [RawSql("author = ?", [Str("dkubb")])]
    ensures Merged(q, b).conditions == q.conditions + b.conditions
  {
    var c := b.conditions[0];
    assert b.conditions == [c];
    if c.Cond? {
      assert FindMatch(q.conditions, c.op, c.property).None?;
      MergeFresh(q.conditions, c);
    } else {
      var none: seq<Condition> := [];
      assert b.conditions[..0] == none;
      assert MergeConditions(q.conditions, none) == q.conditions;
    }
  }

  /** Order `[created_at desc, author desc, title desc]` merged into `[created_at desc]`
      is exactly the former; fields `[blog_id]` merged into `[id, author]` give
      `[id, author, blog_id]`. */
  lemma OrderAndFieldsAreAppended(a: Descriptor, b: Descriptor)
    requires a.order == [Direction(CreatedAt, Desc)] && a.fields == [Id, Author]
    requires b.order == [Direction(CreatedAt, Desc), Direction(Author, Desc), Direction(Title, Desc)]
    requires b.fields == [BlogId]
    ensures Merged(a, b).order == b.order
    ensures Merged(a, b).fields == [Id, Author, BlogId]
  {
    assert Merged(a, b).order == b.order by {
      assert DistinctBy(b.order, PropertyOf);
      assert a.order + b.order == b.order[..1] + b.order;
      DedupByPrefixUnion(b.order, 1, PropertyOf);
    }
    assert Merged(a, b).fields == [Id, Author, BlogId] by {
      var fs := [Id, Author, BlogId];
      assert DistinctBy(fs, Identity);
      DedupByOfDistinct(fs, Identity);
      assert a.fields + b.fields == fs;
    }
  }

  /** The append rule of `#order` when the receiver's order is not the start of the
      other's: the other's new direction follows the receiver's. */
  lemma NewDirectionIsAppended(a: Descriptor, b: Descriptor)
    requires a.order == [Direction(Author, Desc)] && b.order == [Direction(Title, Desc)]
    ensures Merged(a, b).order == [Direction(Author, Desc), Direction(Title, Desc)]
  {
    var s := a.order + b.order;
    assert s == [Direction(Author, Desc), Direction(Title, Desc)];
    assert Author.name != Title.name;
    assert DistinctBy(s, PropertyOf);
    DedupByOfDistinct(s, PropertyOf);
  }

  /** The append rule of `#fields` with several new fields: they follow the receiver's in
      the other's order. */
  lemma NewFieldsAreAppendedInOrder(a: Descriptor, b: Descriptor)
    requires a.fields == [Id] && b.fields == [BlogId, Title]
    ensures Merged(a, b).fields == [Id, BlogId, Title]
  {
    var s := a.fields + b.fields;
    assert s == [Id, BlogId, Title];
    assert Id.name != BlogId.name && Id.name != Title.name && BlogId.name != Title.name;
    assert DistinctBy(s, Identity);
    DedupByOfDistinct(s, Identity);
  }

  /** An other query with offset 0 and no limit keeps offset 1 and limit 2. */
  lemma PagingIsKept(a: Descriptor, b: Descriptor)
    requires a.offset == 1 && a.limit == Some(2) && b.offset == 0 && b.limit.None?
    ensures Merged(a, b).offset == 1 && Merged(a, b).limit == Some(2)
  {
  }

  /** The default query differs from a query on another model, from one built with any
      single option the `#update` examples use, and from one with a condition. */
  lemma DefaultIsDifferent()
    ensures var d := Default(Mock, Article);
      && !Same(d, Default(Mock, Comment))
      && !Same(d, d.(reload := true))
      && !Same(d, d.(offset := 1))
      && !Same(d, d.(limit := Some(2)))
      && !Same(d, d.(order := [Direction(CreatedAt, Desc)]))
      && !Same(d, d.(fields := [Id, Author]))
      && !Same(d, d.(includes := [Sym("stub")]))
      && !Same(d, d.(conditions := [Cond(Eql, Author, Str("dkubb"))]))
  {
    ArticleDefaultFields();
    var c := Cond(Eql, Author, Str("dkubb"));
    assert c in multiset([c]);
  }

  /** `merge` twice with the same options gives two new, equal queries and leaves the
      receiver as it was (`@query.merge(:author => 'dkubb') == dupe_query`). */
  method MergeTwice(q: Query) returns (a: Result<Query, Error>, b: Result<Query, Error>)
    ensures unchanged(q)
    ensures a.Success? <==> b.Success?
    ensures a.Success? ==> fresh(a.value) && fresh(b.value) && a.value != q && b.value != q
    ensures a.Success? ==> a.value.Equals(b.value)
  {
    var options := Hash([(SymbolKey("author"), Str("dkubb"))]);
    a := q.Merge(options);
    b := q.Merge(options);
    if a.Success? {
      SameIsEquivalence(a.value.Snapshot(), b.value.Snapshot(), b.value.Snapshot());
    }
  }
}
