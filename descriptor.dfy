/** The query descriptor as a value: its fields, the object invariant a well-formed
    query keeps, the merge that `update` performs, and structural equality. */
module Descriptors {
  import opened Wrappers
  import opened Core
  import opened Collections
  import opened Conditions

  datatype Descriptor = Descriptor(
    repository: Repository,
    model: Model,
    reload: bool,
    offset: nat,
    limit: Option<nat>,
    order: seq<Direction>,
    fields: seq<Property>,
    links: seq<Value>,
    includes: seq<Value>,
    conditions: seq<Condition>,
    parameters: seq<Value>)

  function PropertyOf(d: Direction): Property {
    d.property
  }

  function Identity<T>(x: T): T {
    x
  }

  /** Removing duplicates keeps exactly the elements that were there. */
  lemma DedupByIdentityMembers<T>(s: seq<T>)
    ensures forall x :: x in DedupBy(s, Identity) <==> x in s
  {
    var d := DedupBy(s, Identity);
    DedupByContents(s, Identity);
    KeysOfIdentity(d);
    forall x | x in s ensures x in d {
      var i :| 0 <= i < |s| && s[i] == x;
      assert Identity(s[i]) in KeysOf(d, Identity);
    }
  }

  /** Keyed by identity, a list is its own list of keys. */
  lemma KeysOfIdentity<T>(s: seq<T>)
    ensures KeysOf(s, Identity) == s
  {
    var k := KeysOf(s, Identity);
    forall i | 0 <= i < |s| ensures k[i] == s[i] {
      assert k[i] == Identity(s[i]);
    }
    assert k == s;
  }

  /** Ruby's `Array#|`: the elements of `xs` and then those of `ys`, each kept once. */
  function Union<T(==)>(xs: seq<T>, ys: seq<T>): seq<T> {
    DedupBy(xs + ys, Identity)
  }

  /** What every query built from valid options satisfies. */
  ghost predicate Valid(d: Descriptor) {
    && (d.limit.Some? ==> d.limit.value >= 1)
    && |d.fields| > 0
    && DistinctBy(d.fields, Identity)
    && (forall p :: p in d.fields ==> p in d.model.properties)
    && DistinctBy(d.order, PropertyOf)
    && (forall x :: x in d.order ==> x.property in d.model.properties)
    && d.parameters == Params(d.conditions)
  }

  /** The receiver `a` after `a.update(b)`: model and reload are taken from `b`; offset
      only when `b`'s is not 0 and limit only when `b` has one; order, fields, links and
      includes are unions (order by property); `b`'s conditions are folded in. The
      repository is the receiver's. */
  function Merged(a: Descriptor, b: Descriptor): Descriptor {
    MergedAttributes(a, b).(conditions := MergeConditions(a.conditions, b.conditions))
  }

  /** Every attribute of `Merged(a, b)` but the conditions, which stay the receiver's. */
  function MergedAttributes(a: Descriptor, b: Descriptor): Descriptor {
    a.(model := b.model,
       reload := b.reload,
       offset := if b.offset != 0 then b.offset else a.offset,
       limit := if b.limit.Some? then b.limit else a.limit,
       order := DedupBy(a.order + b.order, PropertyOf),
       fields := Union(a.fields, b.fields),
       links := Union(a.links, b.links),
       includes := Union(a.includes, b.includes),
       parameters := a.parameters + b.parameters)
  }

  /** Structural equality (`==`): every attribute equal, conditions compared regardless
      of their order. Bind parameters follow from the conditions and are not compared. */
  predicate Same(a: Descriptor, b: Descriptor) {
    && a.repository == b.repository
    && a.model == b.model
    && a.reload == b.reload
    && a.offset == b.offset
    && a.limit == b.limit
    && a.order == b.order
    && a.fields == b.fields
    && a.links == b.links
    && a.includes == b.includes
    && multiset(a.conditions) == multiset(b.conditions)
  }

  lemma SameIsEquivalence(a: Descriptor, b: Descriptor, c: Descriptor)
    ensures Same(a, a)
    ensures Same(a, b) ==> Same(b, a)
    ensures Same(a, b) && Same(b, c) ==> Same(a, c)
  {
  }

  /** Exchanging two conditions does not change what a query equals. */
  lemma {:induction false} SameAfterSwap(d: Descriptor, i: nat, j: nat)
    requires i < |d.conditions| && j < |d.conditions|
    ensures Same(d, d.(conditions := d.conditions[i := d.conditions[j]][j := d.conditions[i]]))
  {
    SwapKeepsMultiset(d.conditions, i, j);
  }

  /** Merging two queries on the same model keeps the object invariant. */
  lemma MergedKeepsValid(a: Descriptor, b: Descriptor)
    requires Valid(a) && Valid(b) && a.model == b.model
    ensures Valid(Merged(a, b))
  {
    var m := Merged(a, b);
    DedupByContents(a.order + b.order, PropertyOf);
    DedupByContents(a.fields + b.fields, Identity);
    DedupByKeepsPrefix(a.fields, b.fields, Identity);
    MergeConditionsAppendsRaws(a.conditions, b.conditions);
    forall p | p in m.fields ensures p in m.model.properties {
      assert p in a.fields + b.fields;
    }
    forall x | x in m.order ensures x.property in m.model.properties {
      assert x in a.order + b.order;
    }
  }

  /** Merging never introduces two conditions on one (operator, property) pair. */
  lemma MergedKeepsUniqueConditions(a: Descriptor, b: Descriptor)
    requires UniqueKeys(a.conditions)
    ensures UniqueKeys(Merged(a, b).conditions)
  {
    MergeConditionsKeepsUnique(a.conditions, b.conditions);
  }

  /** The merged order is the receiver's, followed by the other's directions on
      properties the receiver does not order by, in the other's order and the first for
      each property (see `DedupByFirsts`); every property of either order is ordered by.
      If the receiver's order is the start of the other's, the result is the other's
      order. */
  lemma MergedOrder(a: Descriptor, b: Descriptor)
    requires DistinctBy(a.order, PropertyOf)
    ensures var o := Merged(a, b).order;
      && |a.order| <= |o| && o[..|a.order|] == a.order
      && (forall i :: |a.order| <= i < |o| ==>
            o[i] in b.order && o[i].property !in KeysOf(a.order, PropertyOf))
      && DistinctBy(o, PropertyOf)
      && (forall i :: 0 <= i < |b.order| ==> b.order[i].property in KeysOf(o, PropertyOf))
    ensures Merged(a, b).order == a.order + DedupBy(Fresh(a.order, b.order, PropertyOf), PropertyOf)
    ensures DistinctBy(b.order, PropertyOf) ==>
      Merged(a, b).order == a.order + Fresh(a.order, b.order, PropertyOf)
    ensures DistinctBy(b.order, PropertyOf) && |a.order| <= |b.order| && b.order[..|a.order|] == a.order ==>
      Merged(a, b).order == b.order
  {
    OrderUnionContents(a.order, b.order);
    DedupByAppend(a.order, b.order, PropertyOf);
    if DistinctBy(b.order, PropertyOf) {
      DedupByOfDistinct(Fresh(a.order, b.order, PropertyOf), PropertyOf);
    }
    if DistinctBy(b.order, PropertyOf) && |a.order| <= |b.order| && b.order[..|a.order|] == a.order {
      DedupByPrefixUnion(b.order, |a.order|, PropertyOf);
    }
  }

  lemma OrderUnionContents(xs: seq<Direction>, ys: seq<Direction>)
    requires DistinctBy(xs, PropertyOf)
    ensures var o := DedupBy(xs + ys, PropertyOf);
      && |xs| <= |o| && o[..|xs|] == xs
      && (forall i :: |xs| <= i < |o| ==> o[i] in ys && o[i].property !in KeysOf(xs, PropertyOf))
      && DistinctBy(o, PropertyOf)
      && (forall i :: 0 <= i < |ys| ==> ys[i].property in KeysOf(o, PropertyOf))
  {
    DedupByKeepsPrefix(xs, ys, PropertyOf);
    DedupByContents(xs + ys, PropertyOf);
    forall i | 0 <= i < |ys| ensures ys[i].property in KeysOf(DedupBy(xs + ys, PropertyOf), PropertyOf) {
      assert ys[i] == (xs + ys)[|xs| + i];
    }
  }

  /** The merged field list is the receiver's, followed by the other's new fields in the
      other's order, each once; no field is listed twice and no field of either side is
      lost. */
  lemma MergedFields(a: Descriptor, b: Descriptor)
    requires DistinctBy(a.fields, Identity)
    ensures var f := Merged(a, b).fields;
      && |a.fields| <= |f| && f[..|a.fields|] == a.fields
      && (forall i :: |a.fields| <= i < |f| ==> f[i] in b.fields && f[i] !in a.fields)
      && DistinctBy(f, Identity)
      && (forall p :: p in f <==> p in a.fields || p in b.fields)
    ensures Merged(a, b).fields == a.fields + DedupBy(Fresh(a.fields, b.fields, Identity), Identity)
    ensures DistinctBy(b.fields, Identity) ==>
      Merged(a, b).fields == a.fields + Fresh(a.fields, b.fields, Identity)
  {
    UnionContents(a.fields, b.fields);
    DedupByAppend(a.fields, b.fields, Identity);
    if DistinctBy(b.fields, Identity) {
      DedupByOfDistinct(Fresh(a.fields, b.fields, Identity), Identity);
    }
  }

  lemma UnionContents<T>(xs: seq<T>, ys: seq<T>)
    requires DistinctBy(xs, Identity)
    ensures var u := Union(xs, ys);
      && |xs| <= |u| && u[..|xs|] == xs
      && (forall i :: |xs| <= i < |u| ==> u[i] in ys && u[i] !in xs)
      && DistinctBy(u, Identity)
      && (forall p :: p in u <==> p in xs || p in ys)
  {
    var u := Union(xs, ys);
    DedupByKeepsPrefix(xs, ys, Identity);
    DedupByContents(xs + ys, Identity);
    forall i | |xs| <= i < |u| ensures u[i] !in xs {
      forall j | 0 <= j < |xs| ensures xs[j] != u[i] {
        assert KeysOf(xs, Identity)[j] == xs[j];
      }
    }
    DedupByIdentityMembers(xs + ys);
  }

  /** Two updates by queries that differ only in their conditions agree, in either order,
      on every attribute but the conditions and parameters. */
  lemma UpdatesAgreeBesideConditions(q: Descriptor, x: Descriptor, y: Descriptor)
    requires y == x.(conditions := y.conditions, parameters := y.parameters)
    ensures var xy, yx := Merged(Merged(q, x), y), Merged(Merged(q, y), x);
      xy.(conditions := [], parameters := []) == yx.(conditions := [], parameters := [])
  {
  }

  /** Two conditions on different pairs, added to a query by two updates from queries
      that differ only in those conditions, give equal queries in either order. */
  lemma {:induction false} UpdateOrderIrrelevant(q: Descriptor, x: Descriptor, y: Descriptor)
    requires |x.conditions| == 1 && x.conditions[0].Cond?
    requires |y.conditions| == 1 && y.conditions[0].Cond?
    requires var cx, cy := x.conditions[0], y.conditions[0];
      cx.op != cy.op || cx.property != cy.property
    requires y == x.(conditions := y.conditions, parameters := y.parameters)
    requires FindMatch(q.conditions, x.conditions[0].op, x.conditions[0].property).None?
    requires FindMatch(q.conditions, y.conditions[0].op, y.conditions[0].property).None?
    ensures Same(Merged(Merged(q, x), y), Merged(Merged(q, y), x))
    ensures Merged(Merged(q, x), y).conditions == q.conditions + x.conditions + y.conditions
  {
    var cx, cy := x.conditions[0], y.conditions[0];
    var cs := q.conditions;
    var xy := Merged(Merged(q, x), y);
    var yx := Merged(Merged(q, y), x);
    FreshPairsCommute(cs, cx, cy);
    UpdatesAgreeBesideConditions(q, x, y);
    assert x.conditions == [cx] && y.conditions == [cy];
    assert xy.conditions == cs + [cx] + [cy];
    assert yx.conditions == cs + [cy] + [cx];
    assert multiset(xy.conditions) == multiset(yx.conditions);
  }

  /** Folding two conditions on different pairs the receiver does not hold appends them
      in folding order. */
  lemma FreshPairsCommute(cs: seq<Condition>, cx: Condition, cy: Condition)
    requires cx.Cond? && cy.Cond? && (cx.op != cy.op || cx.property != cy.property)
    requires FindMatch(cs, cx.op, cx.property).None? && FindMatch(cs, cy.op, cy.property).None?
    ensures MergeConditions(MergeConditions(cs, [cx]), [cy]) == cs + [cx] + [cy]
    ensures MergeConditions(MergeConditions(cs, [cy]), [cx]) == cs + [cy] + [cx]
  {
    MergeFresh(cs, cx);
    MergeFresh(cs, cy);
    FindMatchAppend(cs, cx, cy.op, cy.property);
    FindMatchAppend(cs, cy, cx.op, cx.property);
    MergeFresh(cs + [cx], cy);
    MergeFresh(cs + [cy], cx);
  }
}
