# DataMapper::Query, modelled in Dafny

This project models `DataMapper::Query`, the query descriptor of the DataMapper ORM,
as the unit examples in `spec/unit/query_spec.rb` describe it:

- **Construction** (`Query.new(repository, model, options)`). The repository and model
  arguments are validated, and so is each recognised option (`reload`, `offset`,
  `limit`, `order`, `fields`, `links`, `includes`, `conditions`). Every other Hash key
  becomes a condition: a plain property name gives `:eql`, and an operator-tagged key
  such as `:author.like` gives that operator. `:conditions => [text, *binds]` gives one
  raw condition, and its binds become the query's `parameters`. Construction is the pure
  function `Construction.Build`. Every rejection is an `Error` value whose `Kind()` is
  the Ruby exception class raised (only a nil repository is a `TypeError`).
- **`update`**. This is an in-place merge, `QueryObject.Query.Update`, on a class with
  one mutable field per attribute. The rules:
  - `model` and `reload` are always taken from the other query;
  - `offset` is taken only when the other's is not 0, and `limit` only when the other
    has one;
  - `order` is a union keyed by property;
  - `fields`, `links` and `includes` are unions;
  - the other's conditions are folded in one at a time. For a pair (operator, property)
    the receiver already holds, eql/like take the other's value, gt/gte keep the
    SMALLER value, and lt/lte keep the LARGER one, as the examples assert; not/in
    concatenate the value lists. Other conditions, raw ones included, are appended.

  The pure function `Descriptors.Merged` states the result, and the lemmas about it
  state what the examples promise.
- **`update(Hash)` and `merge`**. `update` with a Hash first builds a query on the
  receiver's repository and model, then updates the receiver with it. `merge` is `dup`
  followed by `update`, and leaves the receiver unchanged.
- **`==`**, the predicate `Descriptors.Same`. Every attribute must be equal, but the
  conditions are compared as multisets (their order does not matter). The bind
  parameters follow from the conditions and are not compared.

Modules:
- `Wrappers`: Option and Result.
- `Core`: operators, properties, models, option values and conditions.
- `Collections`: Ruby's `Array#|` with a key function.
- `Conditions`: the condition fold.
- `Descriptors`: the descriptor value, `Merged` and `Same`.
- `Construction`: `Query.new`.
- `QueryObject`: the mutable `Query` class.
- `Examples`: the examples' `Article` fixture and their concrete outcomes.

Two rules of `update` come straight from the examples:
- gt/gte keep the smaller value and lt/lte the larger, whichever side holds it, as
  `spec/unit/query_spec.rb:227-247` and `362-382` assert.
- Merged fields keep the receiver's order and append the other's new fields, so
  `[id, author]` updated with `[blog_id]` is `id, author, blog_id`
  (`spec/unit/query_spec.rb:305-308`).

Option values name model objects by name. A `Property` object passed in `:fields`
(`Article.properties(:default).defaults.to_a`) is the Symbol of its name,
`Sym(name)`, which `Construction.FieldRefs` writes. A `Direction` object passed in
`:order` (`Direction.new(created_at, :desc)`) is `DirectionRef(name, dir)`, which
`Construction.DirectionRefs` writes. `:name.desc` is written the same way.

## Model

| member | source | states |
|---|---|---|
| Core.PropertyNamed | spec/unit/query_spec.rb:93-101 | the property found belongs to the model, has the name looked up and is the first with that name; none is found exactly when no property has that name |
| Core.Defaults | spec/unit/query_spec.rb:154-156 | the default field set holds exactly the model's properties that are in the default set, none more |
| Core.DefaultsAppend | spec/unit/query_spec.rb:282 | the default field set of a concatenation is the concatenation of the default field sets, so the result keeps declaration order |
| Core.DefaultsOfOne | spec/unit/query_spec.rb:305-308 | one property is its own default field set exactly when it is in the default set, and otherwise gives none |
| Core.LessIsStrictOrder | spec/unit/query_spec.rb:227-247 | the ordering used by the inequality merges is irreflexive and asymmetric, total on integers, on times and on strings, and relates no mixed pair |
| Core.LessIsTransitive | spec/unit/query_spec.rb:227-247 | the ordering used by the inequality merges is transitive, so with the row above it is a strict total order on each comparable kind |
| Conditions.FindMatch | spec/unit/query_spec.rb:216-225 | the position found is the first condition with the same operator and property; no condition has that pair when none is found |
| Conditions.Items | spec/unit/query_spec.rb:319-328 | the value list of a not/in condition: an Array's elements, or a single value on its own |
| Conditions.Resolve | spec/unit/query_spec.rb:216-247 | eql/like take the other's value; gt/gte keep a value neither side is below (for times, the smaller); lt/lte keep a value neither side is above (for times, the larger); not/in give the receiver's items followed by the other's |
| Conditions.ResolveIsMinOrMax | spec/unit/query_spec.rb:362-382 | for comparable values gt/gte give exactly the minimum and lt/lte exactly the maximum, whichever side holds it |
| Conditions.MergeCondition | spec/unit/query_spec.rb:216-247 | one step of the condition fold: a raw condition or a condition on a new pair is appended; otherwise the first condition on that pair gets the resolved value (stated by the MergeIntoExisting, MergeFresh and MergeConditionKeepsSlots rows) |
| Conditions.MergeConditions | spec/unit/query_spec.rb:310-346 | the condition fold of `update`: the other's conditions, first to last, folded into the receiver's (stated by the MergeConditions* rows) |
| Conditions.MergeIntoExisting | spec/unit/query_spec.rb:216-247 | folding a condition whose pair the receiver holds changes only that slot, to the resolved value |
| Conditions.MergeConditionKeepsSlots | spec/unit/query_spec.rb:310-346 | one fold step keeps every existing condition in its slot with its pair, adds at most the folded condition itself, at the end, and leaves a condition on the folded pair |
| Conditions.MergeLeavesOne | spec/unit/query_spec.rb:227-236 | after the fold exactly one condition holds the folded condition's pair |
| Conditions.MergeConditionsKeepsUnique | spec/unit/query_spec.rb:216-247 | folding a whole list keeps the (operator, property) pairs unique |
| Conditions.MergeFresh | spec/unit/query_spec.rb:310-317 | a condition on a pair the receiver does not hold is appended at the end |
| Conditions.MergeConditionsKeepsSlots | spec/unit/query_spec.rb:310-346 | every existing condition stays in its slot with its pair, and at most one condition is added per folded condition |
| Conditions.MergeConditionsAppendsFresh | spec/unit/query_spec.rb:310-346 | raw conditions, and conditions on pairs the receiver does not hold and that differ from each other, are all appended after the receiver's conditions, in order |
| Conditions.MergeConditionsAppendsRaws | spec/unit/query_spec.rb:330-346 | the raw conditions of the result are the receiver's followed by the other's, and so are the bind parameters |
| Conditions.ParamsOfOperatorConditions | spec/unit/query_spec.rb:93-101 | operator conditions carry no bind parameters |
| Descriptors.Merged | spec/unit/query_spec.rb:190-383 | the attributes after `update`: model and reload from the other query, offset when the other's is not 0, limit when the other has one, unions of order (by property), fields, links and includes, and the folded conditions (stated by the Merged* rows) |
| Descriptors.Same | spec/unit/query_spec.rb:405-450 | `==`: every attribute equal, with the conditions compared as multisets (stated by SameIsEquivalence, SameAfterSwap and DefaultIsDifferent) |
| Descriptors.SameIsEquivalence | spec/unit/query_spec.rb:410-419 | `==` is reflexive, symmetric and transitive |
| Descriptors.SameAfterSwap | spec/unit/query_spec.rb:421-433 | exchanging two conditions does not change what a query equals |
| Descriptors.UpdateOrderIrrelevant | spec/unit/query_spec.rb:421-433 | two updates adding conditions on different pairs give equal queries in either order, and the conditions end up in update order |
| Descriptors.MergedKeepsValid | spec/unit/query_spec.rb:195-214 | updating a well-formed query with a well-formed query on the same model keeps the invariant (positive limit, distinct fields and order properties of the model, parameters of the raw conditions) |
| Descriptors.MergedKeepsUniqueConditions | spec/unit/query_spec.rb:216-247 | an update keeps the condition pairs unique |
| Collections.Fresh | spec/unit/query_spec.rb:251-260 | the other list's elements whose keys the first list lacks: an element is kept exactly when its key is new, and a duplicate-free list gives a duplicate-free result (their order is stated by FreshAppend and FreshOfOne) |
| Collections.FreshAppend | spec/unit/query_spec.rb:251-260 | filtering a concatenation filters each part and concatenates the results, so the kept elements stay in the other list's order |
| Collections.FreshOfOne | spec/unit/query_spec.rb:251-260 | one element is kept exactly when the first list lacks its key |
| Collections.DedupByAppend | spec/unit/query_spec.rb:305-308 | the union of a duplicate-free list with another is the first list followed by the deduplicated new elements of the other, as Ruby's `Array#\|` |
| Collections.DedupByFirsts | spec/unit/query_spec.rb:305-308 | what deduplication keeps is, in order, the first element with each key: each kept element sits at an increasing position of the input with no earlier element of its key |
| Descriptors.MergedOrder | spec/unit/query_spec.rb:251-260 | the merged order is the receiver's followed by the other's directions on new properties, in the other's order and the first for each property (`a.order + DedupBy(Fresh(a.order, b.order))`); every property ordered by either side is ordered by, none twice; a duplicate-free other order contributes exactly its new directions; if the receiver's order starts the other's, the result is the other's order |
| Descriptors.MergedFields | spec/unit/query_spec.rb:305-308 | the merged fields are the receiver's followed by the other's new fields in the other's order, each at its first mention (`a.fields + DedupBy(Fresh(a.fields, b.fields))`), none twice; a field is in the result exactly when it is on either side |
| Construction.OptionValue | spec/unit/query_spec.rb:44-49 | the value found is stored under that key; none is found exactly when the key is absent |
| Construction.ReloadOption | spec/unit/query_spec.rb:3-25 | reload succeeds exactly for a missing option or a boolean, defaults to false, and otherwise rejects the option |
| Construction.OffsetOption | spec/unit/query_spec.rb:3-25 | offset succeeds exactly for a missing option or an integer of at least 0, defaults to 0, and otherwise rejects the option |
| Construction.LimitOption | spec/unit/query_spec.rb:3-25 | limit succeeds exactly for a missing option or an integer of at least 1, defaults to none, and otherwise rejects the option |
| Construction.ListOption | spec/unit/query_spec.rb:16-25 | a list option succeeds exactly when missing or a non-empty Array; an empty Array and a non-Array (nil included) are rejected |
| Construction.Lookup | spec/unit/query_spec.rb:93-101 | a name resolves to the model's property of that name, or is rejected when the model has none |
| Construction.ResolveDirection | spec/unit/query_spec.rb:262-273 | an order element resolves exactly when it is a direction, Symbol or String naming a property of the model; the result is on that property, with the given direction (ascending for a bare name); anything else is an ArgumentError |
| Construction.ResolveDirections | spec/unit/query_spec.rb:251-260 | an order list resolves exactly when every element does, and position i of the result is element i resolved |
| Construction.OrderOption | spec/unit/query_spec.rb:10 | a given order is accepted exactly when it is a non-empty Array whose every element resolves; the result holds one resolved direction per property named, each the resolution of a given element, and no property twice; a missing order is the model's default order |
| Construction.ResolveField | spec/unit/query_spec.rb:153-156 | a fields element resolves exactly when it is a Symbol or String naming a property of the model, and gives that property |
| Construction.ResolveFields | spec/unit/query_spec.rb:153-156 | a fields list resolves exactly when every element does, and position i of the result is element i resolved |
| Construction.FieldsOption | spec/unit/query_spec.rb:153-156 | given fields are accepted exactly when a non-empty Array whose every element resolves; the result holds exactly the resolved properties, none twice; without the option it is the default field set |
| Construction.OrderOfDistinct | spec/unit/query_spec.rb:251-260 | an order whose elements resolve to directions on distinct properties gives exactly those directions, in the caller's order |
| Construction.FieldsOfDistinct | spec/unit/query_spec.rb:153-156 | a fields list whose elements resolve to distinct properties gives exactly those properties, in the caller's order |
| Construction.OrderKeepsFirsts | spec/unit/query_spec.rb:10 | when an order names a property twice, the first direction given for it is kept, and the kept directions are in the caller's order |
| Construction.FieldsKeepsFirsts | spec/unit/query_spec.rb:153-156 | when a fields list names a property twice, it is kept at its first mention, and the kept properties are in the caller's order |
| Construction.OrderIsKept | spec/unit/query_spec.rb:10 | Direction objects on distinct properties of the model, passed as an order, come back as given |
| Construction.FieldsAreKept | spec/unit/query_spec.rb:11 | Property objects of the model, distinct and passed as fields, come back as given, in that order |
| Construction.PathsOption | spec/unit/query_spec.rb:13 | links and includes succeed exactly for a missing option or a non-empty Array, are passed through as given, and default to empty |
| Construction.RawConditions | spec/unit/query_spec.rb:51-73 | `conditions` succeeds exactly for a missing option or a non-empty Array starting with a String, and gives the one raw condition of that text and the remaining binds |
| Construction.KeyCondition | spec/unit/query_spec.rb:92-101 | an option key gives no condition; a property key gives one condition with the key's operator (eql by default), the model's property of that name and the value as given; an unknown name or a key that is not a Symbol, operator or String is an ArgumentError |
| Construction.KeyConditions | spec/unit/query_spec.rb:92-101 | the keys give conditions exactly when every entry is accepted; at most one per entry, all operator conditions |
| Construction.KeyConditionsAppend | spec/unit/query_spec.rb:92-101 | the conditions of a Hash are those of its first entries followed by those of the rest, and it fails exactly when either part fails; with `KeyConditionsOfOne` every entry contributes its own condition, in insertion order |
| Construction.KeyConditionsOfOne | spec/unit/query_spec.rb:92-101 | a one-entry Hash gives exactly that entry's condition, or its error |
| Construction.BuildFrom | spec/unit/query_spec.rb:132-150 | construction from a Hash succeeds exactly when every option and every key is accepted, keeps repository and model, and raises only ArgumentError (the attributes it builds are stated by BuildFromAttributes) |
| Construction.BuildFromAttributes | spec/unit/query_spec.rb:37-49 | on success each attribute is what its own option check makes of the value under its key, whatever else the Hash holds; the conditions are the property keys' conditions in insertion order followed by the raw ones, whose binds are the parameters |
| Construction.Build | spec/unit/query_spec.rb:105-130 | a nil repository is a TypeError; a nil model, a class that is not a resource, or options that are not a Hash are ArgumentErrors; a success keeps repository and model |
| Construction.Default | spec/unit/query_spec.rb:39-42 | the default query's fields are exactly the model's default properties, none twice, in declaration order when the model lists each property once |
| Construction.BuildWithoutOptions | spec/unit/query_spec.rb:39-42 | `Query.new(repository, model)` is the default query of that model |
| Construction.BuildIsValid | spec/unit/query_spec.rb:44-49 | every accepted query on a well-formed model satisfies the object invariant |
| Construction.BadOptionRejected | spec/unit/query_spec.rb:132-144 | a recognised option whose value has the wrong shape (nil, `'true'`, -1, 0, an empty Array) makes construction raise ArgumentError |
| Construction.BadKeyRejected | spec/unit/query_spec.rb:146-150 | a key that is neither an option nor a property of the model makes construction raise ArgumentError |
| Construction.KeyGivesCondition | spec/unit/query_spec.rb:93-101 | one property key gives the default query with exactly one condition, with the key's operator and the looked-up property |
| Construction.RawConditionsGiveParameters | spec/unit/query_spec.rb:52-73 | `conditions => [text, *binds]` gives exactly the raw condition of that text and binds, and the binds in order as parameters (none for a one-element Array) |
| Construction.SettingIsKept | spec/unit/query_spec.rb:44-49 | one well-formed reload, offset, limit, links or includes option sets exactly that attribute of the default query |
| Construction.OrderSettingIsKept | spec/unit/query_spec.rb:44-49 | one `order` option of Direction objects on distinct properties sets exactly the order, to those directions, and leaves the rest at the defaults |
| Construction.FieldsSettingIsKept | spec/unit/query_spec.rb:44-49 | one `fields` option of distinct Property objects sets exactly the fields, to those properties in that order, and leaves the rest at the defaults |
| Construction.UpdateWithDefaultsKeepsPaging | spec/unit/query_spec.rb:349-360 | updating with a query built from no options keeps offset, limit, conditions and parameters and takes model and reload |
| QueryObject.Query.New | spec/unit/query_spec.rb:37-49 | the new query's attributes are those construction gives, and it raises exactly what construction raises |
| QueryObject.Query.Update | spec/unit/query_spec.rb:190-214 | `update` returns the receiver, and its attributes afterwards are the merge of its old attributes with the other's; the conditions are folded once, in place, and the other attributes are assigned from `MergedAttributes` |
| QueryObject.Query.Assign | spec/unit/query_spec.rb:194-214 | every attribute but the conditions takes the given value, and the conditions are left alone |
| QueryObject.Query.FoldConditions | spec/unit/query_spec.rb:310-346 | the loop folds the other's conditions, first to last, into the receiver's |
| QueryObject.Query.FoldCondition | spec/unit/query_spec.rb:216-225 | the search loop finds the first condition on the same pair and updates it in place, or appends |
| QueryObject.Query.UpdateWith | spec/unit/query_spec.rb:180-188 | `update(Hash)` builds a query on the receiver's repository and model and merges it in; a rejected Hash leaves the receiver as it was |
| QueryObject.Query.Dup | spec/unit/query_spec.rb:391-396 | `dup` gives a new query with the same attributes |
| QueryObject.Query.Merge | spec/unit/query_spec.rb:386-402 | `merge` leaves the receiver unchanged and returns a new query holding the merge of the receiver with the query built from the options |
| QueryObject.Query.Equals | spec/unit/query_spec.rb:405-450 | `==` between two query objects is `Same` of their attributes |
| Examples.MergeTwice | spec/unit/query_spec.rb:398-402 | two merges with the same options give two new queries, neither the receiver, that are equal |
| Examples.ArticleDefaultFields | spec/unit/query_spec.rb:282 | the default fields of `Article` are its five properties in declaration order |
| Examples.UpdatedOptionsBuild | spec/unit/query_spec.rb:27-33 | the options of the `#update` examples build the query with reload, offset 1, limit 2, order by creation time descending, fields id and author, and includes `[:stub]` |
| Examples.GoodOrderIsKept | spec/unit/query_spec.rb:10 | `order => [Direction.new(created_at, :desc)]` gives exactly that order |
| Examples.GoodFieldsAreKept | spec/unit/query_spec.rb:11 | `fields => Article.properties(:default).defaults.to_a` gives exactly those fields, so the default query |
| Examples.FieldsAreNormalised | spec/unit/query_spec.rb:154-156 | `fields => [:id]` is the `id` property |
| Examples.SymbolKeyGivesEquality | spec/unit/query_spec.rb:93-96 | `:author => 'dkubb'` gives `[[:eql, author, 'dkubb']]` |
| Examples.KeyBesideSettings | spec/unit/query_spec.rb:93-96 | `:author => 'dkubb', :offset => 5, :limit => 1` gives the default query with offset 5, limit 1 and the eql condition on author |
| Examples.OperatorKeyGivesOperator | spec/unit/query_spec.rb:98-101 | `:author.like => regexp` gives `[[:like, author, regexp]]` |
| Examples.SubSelect | spec/unit/query_spec.rb:75-89 | `:id.in => query` gives one `in` condition on `id` whose value is that query |
| Examples.BadArgumentsRejected | spec/unit/query_spec.rb:105-150 | `nil => nil`, `offset => -1` and `limit => 0` are rejected, and a nil repository is a TypeError |
| Examples.OrderByPlank | spec/unit/query_spec.rb:262-273 | `order => [:plank.desc]` gives one descending direction on `plank`, whose field is `real_plank` |
| Examples.EqualityIsOverwritten | spec/unit/query_spec.rb:216-225 | eql/like `'ssmoot'` updated with `'dkubb'` leaves only `'dkubb'` |
| Examples.LowerBoundKeepsSmaller | spec/unit/query_spec.rb:227-236 | gt/gte on `Time.at(0)` and `Time.at(1)` leave `Time.at(0)` whichever side holds it |
| Examples.UpperBoundKeepsLarger | spec/unit/query_spec.rb:238-247 | lt/lte on `Time.at(0)` and `Time.at(1)` leave `Time.at(1)` whichever side holds it |
| Examples.ListsAreJoined | spec/unit/query_spec.rb:319-328 | not/in `[Time.at(0)]` updated with `[Time.at(1)]` give `[Time.at(0), Time.at(1)]` |
| Examples.NewConditionsAreAppended | spec/unit/query_spec.rb:310-346 | an author condition, a one-element raw condition or a raw condition with binds is appended after the title condition |
| Examples.OrderAndFieldsAreAppended | spec/unit/query_spec.rb:251-260 | the three-direction order merged into `[created_at desc]` is the three-direction order, and `[blog_id]` merged into `[id, author]` is `[id, author, blog_id]` |
| Examples.NewDirectionIsAppended | spec/unit/query_spec.rb:250-260 | updating `[author desc]` with `[title desc]` appends the new direction: `[author desc, title desc]` |
| Examples.NewFieldsAreAppendedInOrder | spec/unit/query_spec.rb:305-308 | updating `[id]` with `[blog_id, title]` appends both new fields in the other's order: `[id, blog_id, title]` |
| Examples.PagingIsKept | spec/unit/query_spec.rb:349-360 | an other query with offset 0 and no limit keeps offset 1 and limit 2 |
| Examples.DefaultIsDifferent | spec/unit/query_spec.rb:436-450 | the default query differs from one on `Comment`, from one with any single updated option, and from one with a condition |

## Left out

- `lib/data_mapper/types/paranoid_boolean.rb` is not part of this model. It installs a `destroy` method at run time and pushes onto a model's scope stack. The model represents neither run-time method definition nor a scope stack.
- The adapter and SQL execution (`read_set`, `with_connection`, `create_command`, the generated SELECT). They are I/O. Only the fact that the order holds a descending direction on `plank` is kept.
- Message expectations on mocks (`should_receive(:class)`, `:new`, `:dup`). `update(Hash)` and `merge` are modelled as the calls they describe.
- Custom-type `dump` coercion of condition values. It calls into a type library that is not part of this model, so values are kept as given.
- Sub-select queries are opaque values (`SubQuery(id)`). A nested query is never decomposed.
- Conditions.Resolve: when gt/gte/lt/lte compare values of different kinds (a time with a string, say), Ruby raises; the model keeps the receiver's value instead.
- Descriptors.Merged: `links` and `includes` are merged as unions. The examples for them are marked pending, so nothing confirms this rule.
- Descriptors.Merged: `model` is taken from the other query without re-resolving the receiver's properties against the new model.
- Construction.BuildFrom: a scalar given for `not`/`in` is not wrapped into a list at construction; the merge treats a scalar as a one-element list (`Conditions.Items`).
- Construction.BuildFrom: String keys are only property names, never option names, and a condition value may be nil.
- Construction.BuildFrom: conditions from keys come in Hash order, followed by the raw condition; construction does not merge two keys on the same pair.
- Construction.FieldsOption: fields keep the caller's order and are not re-sorted into the model's declaration order.
- Property and Direction objects in `:fields` and `:order` are passed by name, so an object of another model with the same name is not told apart.
- Descriptors.Same: repository is compared by name; the bind parameters are not compared.
- Times are whole seconds and regular expressions are their source text. There is no real-time or floating-point arithmetic.
