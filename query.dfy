/** `DataMapper::Query` as an object: construction, the in-place merge `update`, the
    copying merge `merge`, and `==`. */
module QueryObject {
  import opened Wrappers
  import opened Core
  import opened Collections
  import opened Conditions
  import opened Descriptors
  import opened Construction

  class Query {
    var repository: Repository
    var model: Model
    var reload: bool
    var offset: nat
    var limit: Option<nat>
    var order: seq<Direction>
    var fields: seq<Property>
    var links: seq<Value>
    var includes: seq<Value>
    var conditions: seq<Condition>
    var parameters: seq<Value>

    /** The query's attributes as one value. */
    function Snapshot(): Descriptor
      reads this
    {
      Descriptor(repository, model, reload, offset, limit, order, fields, links, includes, conditions, parameters)
    }

    constructor FromDescriptor(d: Descriptor)
      ensures Snapshot() == d
    {
      repository, model, reload := d.repository, d.model, d.reload;
      offset, limit := d.offset, d.limit;
      order, fields, links, includes := d.order, d.fields, d.links, d.includes;
      conditions, parameters := d.conditions, d.parameters;
    }

    /** `Query.new(repository, model, options)`: a fresh query, or the error raised. */
    static method New(repository: Option<Repository>, model: ModelArg, options: OptionsArg)
      returns (r: Result<Query, Error>)
      ensures var b := Build(repository, model, options);
        && (r.Failure? <==> b.Failure?)
        && (r.Failure? ==> r.error == b.error)
        && (r.Success? ==> fresh(r.value) && r.value.Snapshot() == b.value)
    {
      var b := Build(repository, model, options);
      if b.Failure? {
        return Failure(b.error);
      }
      var q := new Query.FromDescriptor(b.value);
      return Success(q);
    }

    /** `update(other)`: merges `other` into this query in place and returns this query. */
    method Update(other: Query) returns (r: Query)
      modifies this
      ensures r == this
      ensures Snapshot() == Merged(old(Snapshot()), old(other.Snapshot()))
    {
      var mine := Snapshot();
      var theirs := other.Snapshot();
      FoldConditions(theirs.conditions);
      Assign(MergedAttributes(mine, theirs));
      r := this;
    }

    /** Sets every attribute but the conditions from `d`. */
    method Assign(d: Descriptor)
      modifies this
      ensures Snapshot() == d.(conditions := old(conditions))
    {
      repository, model, reload := d.repository, d.model, d.reload;
      offset, limit := d.offset, d.limit;
      order, fields, links, includes := d.order, d.fields, d.links, d.includes;
      parameters := d.parameters;
    }

    /** Folds the other query's conditions, in order, into this query's conditions. */
    method FoldConditions(others: seq<Condition>)
      modifies this`conditions
      ensures conditions == MergeConditions(old(conditions), others)
    {
      var i := 0;
      while i < |others|
        invariant 0 <= i <= |others|
        invariant conditions == MergeConditions(old(conditions), others[..i])
      {
        FoldCondition(others[i]);
        assert others[..i + 1][..i] == others[..i];
        i := i + 1;
      }
      assert others[..i] == others;
    }

    /** Folds one of the other query's conditions into this query's conditions. */
    method FoldCondition(c: Condition)
      modifies this`conditions
      ensures conditions == MergeCondition(old(conditions), c)
    {
      if c.RawSql? {
        conditions := conditions + [c];
      } else {
        // look for a condition on the same (operator, property) pair
        var j := 0;
        while j < |conditions| && !Matches(conditions[j], c.op, c.property)
          invariant 0 <= j <= |conditions|
          invariant forall k :: 0 <= k < j ==> !Matches(conditions[k], c.op, c.property)
        {
          j := j + 1;
        }
        if j < |conditions| {
          assert FindMatch(conditions, c.op, c.property) == Some(j);
          conditions := conditions[j := Cond(c.op, c.property, Resolve(c.op, conditions[j].value, c.value))];
        } else {
          conditions := conditions + [c];
        }
      }
    }

    /** `update(options)` with a Hash: builds a query from the options on this query's
        repository and model, then merges it in; a rejected Hash leaves this query as it was. */
    method UpdateWith(options: OptionsArg) returns (r: Result<Query, Error>)
      modifies this
      ensures var b := Build(Some(old(repository)), ResourceClass(old(model)), options);
        && (r.Failure? <==> b.Failure?)
        && (b.Failure? ==> r.error == b.error && Snapshot() == old(Snapshot()))
        && (b.Success? ==> r.value == this && Snapshot() == Merged(old(Snapshot()), b.value))
    {
      var other := New(Some(repository), ResourceClass(model), options);
      if other.Failure? {
        return Failure(other.error);
      }
      var q := Update(other.value);
      return Success(q);
    }

    /** `dup`: a new query with the same attributes. */
    method Dup() returns (q: Query)
      ensures fresh(q) && q.Snapshot() == Snapshot()
    {
      q := new Query.FromDescriptor(Snapshot());
    }

    /** `merge(options)`: `dup.update(options)`; this query is not changed. */
    method Merge(options: OptionsArg) returns (r: Result<Query, Error>)
      ensures unchanged(this)
      ensures var b := Build(Some(repository), ResourceClass(model), options);
        && (r.Failure? <==> b.Failure?)
        && (r.Failure? ==> r.error == b.error)
        && (r.Success? ==> fresh(r.value) && r.value.Snapshot() == Merged(Snapshot(), b.value))
    {
      var dupe := Dup();
      r := dupe.UpdateWith(options);
    }

    /** `==`: structural equality, ignoring the order of the conditions. */
    predicate Equals(other: Query)
      reads this, other
    {
      Same(Snapshot(), other.Snapshot())
    }
  }
}
