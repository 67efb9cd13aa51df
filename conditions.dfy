/** The condition list of a query and the rule by which `update` folds another
    query's conditions into it, one condition at a time. */
module Conditions {
  import opened Wrappers
  import opened Core

  /** `c` is an operator condition on property `p` with operator `op`. */
  predicate Matches(c: Condition, op: Operator, p: Property) {
    c.Cond? && c.op == op && c.property == p
  }

  /** The position of the first condition with the given (operator, property) pair. */
  function FindMatch(cs: seq<Condition>, op: Operator, p: Property): (r: Option<nat>)
    ensures r.Some? ==> r.value < |cs| && Matches(cs[r.value], op, p)
    ensures r.Some? ==> forall k :: 0 <= k < r.value ==> !Matches(cs[k], op, p)
    ensures r.None? ==> forall k :: 0 <= k < |cs| ==> !Matches(cs[k], op, p)
  {
    if |cs| == 0 then None
    else if Matches(cs[0], op, p) then Some(0)
    else match FindMatch(cs[1..], op, p)
      case None => None
      case Some(k) => Some(k + 1)
  }

  /** The values of a not/in condition as a list; a single value stands for itself. */
  function Items(v: Value): seq<Value> {
    if v.List? then v.items else [v]
  }

  /** The value kept when both sides hold a condition for the same (operator, property):
      eql/like take the other's value, gt/gte keep the smaller, lt/lte the larger, and
      not/in concatenate the two lists, the receiver's first. */
  function Resolve(op: KeyOperator, mine: Value, theirs: Value): (r: Value)
    ensures (op == Eql || op == Like) ==> r == theirs
    ensures (op == Gt || op == Gte || op == Lt || op == Lte) ==> r == mine || r == theirs
    ensures (op == Gt || op == Gte) ==> !Less(mine, r) && !Less(theirs, r)
    ensures (op == Lt || op == Lte) ==> !Less(r, mine) && !Less(r, theirs)
    ensures (op == Gt || op == Gte) && mine.Time? && theirs.Time? ==>
      r.Time? && r.seconds == if theirs.seconds < mine.seconds then theirs.seconds else mine.seconds
    ensures (op == Lt || op == Lte) && mine.Time? && theirs.Time? ==>
      r.Time? && r.seconds == if theirs.seconds > mine.seconds then theirs.seconds else mine.seconds
    ensures (op == Gt || op == Gte || op == Lt || op == Lte) && !Comparable(mine, theirs) ==> r == mine
    ensures (op == Not || op == In) ==> r.List? && r.items == Items(mine) + Items(theirs)
  {
    LessIsStrictOrder(mine, theirs);
    LessIsStrictOrder(theirs, mine);
    if op == Eql || op == Like then theirs
    else if op == Gt || op == Gte then (if Less(theirs, mine) then theirs else mine)
    else if op == Lt || op == Lte then (if Less(mine, theirs) then theirs else mine)
    else List(Items(mine) + Items(theirs))
  }

  /** For comparable values the inequality merges are exactly min and max. */
  lemma ResolveIsMinOrMax(op: KeyOperator, mine: Value, theirs: Value)
    requires Comparable(mine, theirs)
    ensures var r := Resolve(op, mine, theirs);
      (op == Gt || op == Gte) ==> (r == mine || Less(r, mine)) && (r == theirs || Less(r, theirs))
    ensures var r := Resolve(op, mine, theirs);
      (op == Lt || op == Lte) ==> (r == mine || Less(mine, r)) && (r == theirs || Less(theirs, r))
  {
    LessIsStrictOrder(mine, theirs);
  }

  /** Fold one of the other query's conditions into `cs`: raw conditions and conditions
      on a new (operator, property) pair are appended; otherwise the existing condition's
      value is resolved in place. */
  function MergeCondition(cs: seq<Condition>, c: Condition): seq<Condition> {
    if c.RawSql? then cs + [c]
    else match FindMatch(cs, c.op, c.property)
      case None => cs + [c]
      case Some(j) => cs[j := Cond(c.op, c.property, Resolve(c.op, cs[j].value, c.value))]
  }

  /** Fold all of `others` into `cs`, first to last. */
  function MergeConditions(cs: seq<Condition>, others: seq<Condition>): seq<Condition>
    decreases |others|
  {
    if |others| == 0 then cs
    else MergeCondition(MergeConditions(cs, others[..|others| - 1]), others[|others| - 1])
  }

  /** No two operator conditions share an (operator, property) pair. */
  predicate UniqueKeys(cs: seq<Condition>) {
    forall i, j :: 0 <= i < j < |cs| && cs[i].Cond? && cs[j].Cond? ==>
      cs[i].op != cs[j].op || cs[i].property != cs[j].property
  }

  /** The raw conditions of `cs`, in order. */
  function Raws(cs: seq<Condition>): seq<Condition> {
    if |cs| == 0 then []
    else Raws(cs[..|cs| - 1]) + (if cs[|cs| - 1].RawSql? then [cs[|cs| - 1]] else [])
  }

  /** The bind values of the raw conditions of `cs`, flattened in order. */
  function Params(cs: seq<Condition>): seq<Value> {
    if |cs| == 0 then []
    else Params(cs[..|cs| - 1]) + (if cs[|cs| - 1].RawSql? then cs[|cs| - 1].binds else [])
  }

  /** Operator conditions carry no bind values. */
  lemma {:induction false} ParamsOfOperatorConditions(cs: seq<Condition>)
    requires forall c :: c in cs ==> c.Cond?
    ensures Params(cs) == [] && Raws(cs) == []
  {
    if |cs| > 0 {
      assert cs[|cs| - 1] in cs;
      ParamsOfOperatorConditions(cs[..|cs| - 1]);
    }
  }

  /** `b` sits where `a` sat: the same raw condition, or an operator condition with the
      same (operator, property) pair and possibly another value. */
  predicate SameSlot(a: Condition, b: Condition) {
    if a.RawSql? then b == a else b.Cond? && b.op == a.op && b.property == a.property
  }

  lemma {:induction false} RawsAndParamsAppend(a: seq<Condition>, b: seq<Condition>)
    ensures Raws(a + b) == Raws(a) + Raws(b)
    ensures Params(a + b) == Params(a) + Params(b)
  {
    if |b| == 0 {
      assert a + b == a;
    } else {
      var init := b[..|b| - 1];
      assert (a + b)[..|a + b| - 1] == a + init;
      RawsAndParamsAppend(a, init);
    }
  }

  lemma {:induction false} RawsAndParamsReplaceCond(cs: seq<Condition>, j: nat, c: Condition)
    requires j < |cs| && cs[j].Cond? && c.Cond?
    ensures Raws(cs[j := c]) == Raws(cs)
    ensures Params(cs[j := c]) == Params(cs)
  {
    var n := |cs|;
    if j == n - 1 {
      assert cs[j := c][..n - 1] == cs[..n - 1];
    } else {
      assert cs[j := c][..n - 1] == cs[..n - 1][j := c];
      RawsAndParamsReplaceCond(cs[..n - 1], j, c);
    }
  }

  /** One fold step keeps the (operator, property) pairs unique. */
  lemma MergeConditionKeepsUnique(cs: seq<Condition>, c: Condition)
    requires UniqueKeys(cs)
    ensures UniqueKeys(MergeCondition(cs, c))
  {
  }

  /** One fold step appends a raw condition to the raw part and leaves it alone otherwise. */
  lemma MergeConditionRaws(cs: seq<Condition>, c: Condition)
    ensures Raws(MergeCondition(cs, c)) == Raws(cs) + Raws([c])
    ensures Params(MergeCondition(cs, c)) == Params(cs) + Params([c])
  {
    assert [] + [c] == [c];
    assert Raws([c]) == Raws([]) + (if c.RawSql? then [c] else []);
    assert Params([c]) == Params([]) + (if c.RawSql? then c.binds else []);
    if c.RawSql? || FindMatch(cs, c.op, c.property).None? {
      RawsAndParamsAppend(cs, [c]);
    } else {
      var j := FindMatch(cs, c.op, c.property).value;
      RawsAndParamsReplaceCond(cs, j, MergeCondition(cs, c)[j]);
    }
  }

  /** One fold step keeps every existing condition in its slot, adds at most the folded
      condition itself, and leaves a condition holding the folded condition's pair. */
  lemma MergeConditionKeepsSlots(cs: seq<Condition>, c: Condition)
    ensures var r := MergeCondition(cs, c);
      && |cs| <= |r| <= |cs| + 1
      && (forall k :: 0 <= k < |cs| ==> SameSlot(cs[k], r[k]))
      && (|r| == |cs| + 1 ==> r[|cs|] == c)
      && (c.Cond? ==> exists k :: 0 <= k < |r| && Matches(r[k], c.op, c.property))
  {
    var r := MergeCondition(cs, c);
    if c.RawSql? || FindMatch(cs, c.op, c.property).None? {
      assert r[|cs|] == c;
    } else {
      assert Matches(r[FindMatch(cs, c.op, c.property).value], c.op, c.property);
    }
  }

  /** Folding a whole list keeps the (operator, property) pairs unique. */
  lemma {:induction false} MergeConditionsKeepsUnique(cs: seq<Condition>, others: seq<Condition>)
    requires UniqueKeys(cs)
    ensures UniqueKeys(MergeConditions(cs, others))
    decreases |others|
  {
    if |others| > 0 {
      MergeConditionsKeepsUnique(cs, others[..|others| - 1]);
      MergeConditionKeepsUnique(MergeConditions(cs, others[..|others| - 1]), others[|others| - 1]);
    }
  }

  /** Folding a whole list appends the other's raw conditions, and so its bind values,
      after the receiver's, in order. */
  lemma MergeConditionsAppendsRaws(cs: seq<Condition>, others: seq<Condition>)
    ensures Raws(MergeConditions(cs, others)) == Raws(cs) + Raws(others)
    ensures Params(MergeConditions(cs, others)) == Params(cs) + Params(others)
  {
    RawsOfFold(cs, others);
    ParamsOfFold(cs, others);
  }

  lemma {:induction false} RawsOfFold(cs: seq<Condition>, others: seq<Condition>)
    ensures Raws(MergeConditions(cs, others)) == Raws(cs) + Raws(others)
    decreases |others|
  {
    if |others| > 0 {
      var init, last := others[..|others| - 1], others[|others| - 1];
      RawsOfFold(cs, init);
      FoldStepRaws(cs, others);
      assert Raws([last]) == Raws([]) + (if last.RawSql? then [last] else []) by {
        assert [last][..0] == [];
      }
      assert Raws(others) == Raws(init) + (if last.RawSql? then [last] else []);
    }
  }

  lemma {:induction false} ParamsOfFold(cs: seq<Condition>, others: seq<Condition>)
    ensures Params(MergeConditions(cs, others)) == Params(cs) + Params(others)
    decreases |others|
  {
    if |others| > 0 {
      var init, last := others[..|others| - 1], others[|others| - 1];
      ParamsOfFold(cs, init);
      FoldStepRaws(cs, others);
      assert Params([last]) == Params([]) + (if last.RawSql? then last.binds else []) by {
        assert [last][..0] == [];
      }
      assert Params(others) == Params(init) + (if last.RawSql? then last.binds else []);
    }
  }

  /** The last fold step adds the last condition's raw part and bind values. */
  lemma FoldStepRaws(cs: seq<Condition>, others: seq<Condition>)
    requires |others| > 0
    ensures var init, last := others[..|others| - 1], others[|others| - 1];
      && Raws(MergeConditions(cs, others)) == Raws(MergeConditions(cs, init)) + Raws([last])
      && Params(MergeConditions(cs, others)) == Params(MergeConditions(cs, init)) + Params([last])
  {
    var init, last := others[..|others| - 1], others[|others| - 1];
    MergeConditionRaws(MergeConditions(cs, init), last);
  }

  /** Folding a whole list keeps every existing condition in its slot and adds at most
      one condition per folded condition. */
  lemma {:induction false} MergeConditionsKeepsSlots(cs: seq<Condition>, others: seq<Condition>)
    ensures var r := MergeConditions(cs, others);
      && |cs| <= |r| <= |cs| + |others|
      && (forall k :: 0 <= k < |cs| ==> SameSlot(cs[k], r[k]))
    decreases |others|
  {
    if |others| > 0 {
      var init := others[..|others| - 1];
      MergeConditionsKeepsSlots(cs, init);
      var mid := MergeConditions(cs, init);
      MergeConditionKeepsSlots(mid, others[|others| - 1]);
      forall k | 0 <= k < |cs| ensures SameSlot(cs[k], MergeConditions(cs, others)[k]) {
        assert SameSlot(cs[k], mid[k]);
      }
    }
  }

  /** Folding raw conditions, and operator conditions on pairs the receiver does not hold
      and that are distinct among themselves, appends them all, in order. */
  lemma {:induction false} MergeConditionsAppendsFresh(cs: seq<Condition>, others: seq<Condition>)
    requires UniqueKeys(others)
    requires forall i :: 0 <= i < |others| && others[i].Cond? ==>
      FindMatch(cs, others[i].op, others[i].property).None?
    ensures MergeConditions(cs, others) == cs + others
    decreases |others|
  {
    if |others| == 0 {
      assert cs + others == cs;
    } else {
      var init := others[..|others| - 1];
      var last := others[|others| - 1];
      assert forall i :: 0 <= i < |init| ==> init[i] == others[i];
      MergeConditionsAppendsFresh(cs, init);
      if last.Cond? {
        var s := cs + init;
        forall k | 0 <= k < |s| ensures !Matches(s[k], last.op, last.property) {
          if k < |cs| {
            assert s[k] == cs[k];
          } else {
            assert s[k] == others[k - |cs|];
          }
        }
      }
      assert cs + init + [last] == cs + others;
    }
  }

  /** A condition on a pair the receiver does not hold is appended. */
  lemma MergeFresh(cs: seq<Condition>, c: Condition)
    requires c.Cond? && FindMatch(cs, c.op, c.property).None?
    ensures MergeConditions(cs, [c]) == cs + [c]
  {
    assert [c][..0] == [];
  }

  lemma FindMatchAppend(cs: seq<Condition>, c: Condition, op: Operator, p: Property)
    ensures FindMatch(cs + [c], op, p).None? <==> FindMatch(cs, op, p).None? && !Matches(c, op, p)
  {
    var s := cs + [c];
    assert s[|cs|] == c;
    if FindMatch(cs, op, p).None? && !Matches(c, op, p) {
      forall k | 0 <= k < |s| ensures !Matches(s[k], op, p) {
        if k < |cs| {
          assert s[k] == cs[k];
        }
      }
    } else if FindMatch(cs, op, p).Some? {
      assert s[FindMatch(cs, op, p).value] == cs[FindMatch(cs, op, p).value];
    }
  }

  /** A condition whose pair the receiver already holds replaces nothing else: only that
      slot changes, to the resolved value. */
  lemma MergeIntoExisting(cs: seq<Condition>, c: Condition, j: nat)
    requires UniqueKeys(cs) && c.Cond?
    requires j < |cs| && Matches(cs[j], c.op, c.property)
    ensures MergeCondition(cs, c) == cs[j := Cond(c.op, c.property, Resolve(c.op, cs[j].value, c.value))]
  {
    assert FindMatch(cs, c.op, c.property).Some?;
  }

  /** After folding an operator condition into a list with unique pairs, exactly one
      condition holds that pair. */
  lemma MergeLeavesOne(cs: seq<Condition>, c: Condition)
    requires UniqueKeys(cs) && c.Cond?
    ensures var r := MergeCondition(cs, c);
      && (exists k :: 0 <= k < |r| && Matches(r[k], c.op, c.property))
      && (forall k, l ::
            0 <= k < |r| && 0 <= l < |r| && Matches(r[k], c.op, c.property) && Matches(r[l], c.op, c.property)
            ==> k == l)
  {
    MergeConditionKeepsUnique(cs, c);
    MergeConditionKeepsSlots(cs, c);
  }
}
