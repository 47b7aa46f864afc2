/**
 * The update-expression builder of the update handler: from the fields an
 * update payload supplies it builds the SET actions, the attribute-name map
 * and the attribute-value map, always ending with `updatedAt`.
 *
 * The specification is declarative: `Assignments` lists what the update
 * writes, and `Actions`, `AttributeNames` and `AttributeValues` give the
 * command parts for such a list. `Merge` is the record the update is meant
 * to produce; `ExecuteBuiltUpdate` proves that the store, executing the
 * built command, produces exactly that record.
 */
module UpdateExpression {
  import opened Wrappers
  import opened PortfolioModel
  import opened DocumentTable

  /** One attribute the update writes, with its new value. */
  datatype Assignment =
    | AssignName(name: string)
    | AssignDescription(description: string)
    | AssignSkills(skills: seq<string>)
    | AssignUpdatedAt(updatedAt: string)

  /** The attribute an assignment writes. */
  function Attribute(a: Assignment): string {
    match a
    case AssignName(_) => "name"
    case AssignDescription(_) => "description"
    case AssignSkills(_) => "skills"
    case AssignUpdatedAt(_) => "updatedAt"
  }

  /** The attribute-name placeholder of an assignment. */
  function NameRef(a: Assignment): string {
    match a
    case AssignName(_) => "#name"
    case AssignDescription(_) => "#description"
    case AssignSkills(_) => "#skills"
    case AssignUpdatedAt(_) => "#updatedAt"
  }

  /** The attribute-value placeholder of an assignment. */
  function ValueRef(a: Assignment): string {
    match a
    case AssignName(_) => ":name"
    case AssignDescription(_) => ":description"
    case AssignSkills(_) => ":skills"
    case AssignUpdatedAt(_) => ":updatedAt"
  }

  /** The value an assignment sends. */
  function Value(a: Assignment): AttributeValue {
    match a
    case AssignName(v) => S(v)
    case AssignDescription(v) => S(v)
    case AssignSkills(v) => L(v)
    case AssignUpdatedAt(v) => S(v)
  }

  /** The record with the one attribute an assignment writes replaced. */
  function Assigned(item: Portfolio, a: Assignment): Portfolio {
    match a
    case AssignName(v) => item.(name := Some(v))
    case AssignDescription(v) => item.(description := Some(v))
    case AssignSkills(v) => item.(skills := Some(v))
    case AssignUpdatedAt(v) => item.(updatedAt := v)
  }

  /** The record after the assignments, in order. */
  function Assign(item: Portfolio, asg: seq<Assignment>): Portfolio
    decreases |asg|
  {
    if asg == [] then item else Assign(Assigned(item, asg[0]), asg[1..])
  }

  /** What an update with payload `p` at time `now` writes: each supplied field, then `updatedAt`. */
  function Assignments(p: UpdatePayload, now: string): seq<Assignment> {
    (if p.name.Some? then [AssignName(p.name.value)] else [])
    + (if p.description.Some? then [AssignDescription(p.description.value)] else [])
    + (if p.skills.Some? then [AssignSkills(p.skills.value)] else [])
    + [AssignUpdatedAt(now)]
  }

  /** The number of fields a payload supplies. */
  function SuppliedCount(p: UpdatePayload): nat {
    (if p.name.Some? then 1 else 0)
    + (if p.description.Some? then 1 else 0)
    + (if p.skills.Some? then 1 else 0)
  }

  /** The SET action of an assignment, `#x = :x`. */
  function ActionFor(a: Assignment): SetAction {
    SetAction(NameRef(a), ValueRef(a))
  }

  /** The SET actions of a list of assignments, one per assignment, in order. */
  function Actions(asg: seq<Assignment>): seq<SetAction> {
    seq(|asg|, i requires 0 <= i < |asg| => ActionFor(asg[i]))
  }

  /** The ExpressionAttributeNames map after recording each assignment in turn. */
  function AttributeNames(asg: seq<Assignment>): map<string, string>
    decreases |asg|
  {
    if asg == [] then map[]
    else AttributeNames(asg[..|asg| - 1])[NameRef(asg[|asg| - 1]) := Attribute(asg[|asg| - 1])]
  }

  /** The ExpressionAttributeValues map after recording each assignment in turn. */
  function AttributeValues(asg: seq<Assignment>): map<string, AttributeValue>
    decreases |asg|
  {
    if asg == [] then map[]
    else AttributeValues(asg[..|asg| - 1])[ValueRef(asg[|asg| - 1]) := Value(asg[|asg| - 1])]
  }

  /** The position of an action's attribute in the fixed order name, description, skills, updatedAt. */
  function PathRank(path: string): nat {
    if path == "#name" then 0
    else if path == "#description" then 1
    else if path == "#skills" then 2
    else if path == "#updatedAt" then 3
    else 4
  }

  /**
   * The record an update is meant to produce: name, description and skills
   * replaced exactly when the payload supplies them, `updatedAt` set to the
   * new timestamp, `id` and `createdAt` kept.
   */
  function Merge(item: Portfolio, p: UpdatePayload, now: string): Portfolio {
    Portfolio(
      item.id,
      if p.name.Some? then p.name else item.name,
      if p.description.Some? then p.description else item.description,
      if p.skills.Some? then p.skills else item.skills,
      item.createdAt,
      now)
  }

  /**
   * Builds the parts of the UpdateCommand: pushes one action per supplied
   * field and records its name and value placeholders, then does the same
   * for `updatedAt`.
   */
  method BuildUpdateExpression(payload: UpdatePayload, now: string)
    returns (actions: seq<SetAction>, names: map<string, string>, values: map<string, AttributeValue>)
    ensures actions == Actions(Assignments(payload, now))
    ensures names == AttributeNames(Assignments(payload, now))
    ensures values == AttributeValues(Assignments(payload, now))
  {
    ghost var n := if payload.name.Some? then [AssignName(payload.name.value)] else [];
    ghost var d := if payload.description.Some? then [AssignDescription(payload.description.value)] else [];
    ghost var s := if payload.skills.Some? then [AssignSkills(payload.skills.value)] else [];
    ghost var u := [AssignUpdatedAt(now)];
    assert Assignments(payload, now) == n + d + s + u;
    actions, names, values := [], map[], map[];
    if payload.name.Some? {
      actions := actions + [SetAction("#name", ":name")];
      names := names["#name" := "name"];
      values := values[":name" := S(payload.name.value)];
      AppendAssignment([], AssignName(payload.name.value));
    }
    assert actions == Actions(n) && names == AttributeNames(n) && values == AttributeValues(n);
    if payload.description.Some? {
      actions := actions + [SetAction("#description", ":description")];
      names := names["#description" := "description"];
      values := values[":description" := S(payload.description.value)];
      AppendAssignment(n, AssignDescription(payload.description.value));
    } else {
      assert n + d == n;
    }
    assert actions == Actions(n + d) && names == AttributeNames(n + d) && values == AttributeValues(n + d);
    if payload.skills.Some? {
      actions := actions + [SetAction("#skills", ":skills")];
      names := names["#skills" := "skills"];
      values := values[":skills" := L(payload.skills.value)];
      AppendAssignment(n + d, AssignSkills(payload.skills.value));
    } else {
      assert n + d + s == n + d;
    }
    assert actions == Actions(n + d + s) && names == AttributeNames(n + d + s) && values == AttributeValues(n + d + s);
    actions := actions + [SetAction("#updatedAt", ":updatedAt")];
    names := names["#updatedAt" := "updatedAt"];
    values := values[":updatedAt" := S(now)];
    AppendAssignment(n + d + s, AssignUpdatedAt(now));
  }

  /** Recording one more assignment pushes one action and adds one entry to each map. */
  lemma AppendAssignment(asg: seq<Assignment>, a: Assignment)
    ensures Actions(asg + [a]) == Actions(asg) + [ActionFor(a)]
    ensures AttributeNames(asg + [a]) == AttributeNames(asg)[NameRef(a) := Attribute(a)]
    ensures AttributeValues(asg + [a]) == AttributeValues(asg)[ValueRef(a) := Value(a)]
  {
    assert (asg + [a])[..|asg|] == asg;
  }

  /** An action is in `Actions(asg)` exactly when it is the action of one of the assignments. */
  lemma ActionsMembership(asg: seq<Assignment>, x: SetAction)
    ensures x in Actions(asg) <==> exists a :: a in asg && ActionFor(a) == x
  {
    if x in Actions(asg) {
      var i :| 0 <= i < |asg| && Actions(asg)[i] == x;
      assert asg[i] in asg;
    }
    if exists a :: a in asg && ActionFor(a) == x {
      var a :| a in asg && ActionFor(a) == x;
      var i :| 0 <= i < |asg| && asg[i] == a;
      assert Actions(asg)[i] == x;
    }
  }

  /** The positions of the assignments' attributes strictly increase along the list. */
  ghost predicate RankIncreasing(asg: seq<Assignment>) {
    forall i, j | 0 <= i < j < |asg| :: PathRank(NameRef(asg[i])) < PathRank(NameRef(asg[j]))
  }

  ghost predicate RanksBelow(xs: seq<Assignment>, k: nat) {
    forall x | x in xs :: PathRank(NameRef(x)) < k
  }

  ghost predicate RanksFrom(xs: seq<Assignment>, k: nat) {
    forall x | x in xs :: k <= PathRank(NameRef(x))
  }

  lemma RankIncreasingConcat(xs: seq<Assignment>, ys: seq<Assignment>, k: nat)
    requires RankIncreasing(xs) && RankIncreasing(ys) && RanksBelow(xs, k) && RanksFrom(ys, k)
    ensures RankIncreasing(xs + ys)
  {
    forall i, j | 0 <= i < j < |xs + ys|
      ensures PathRank(NameRef((xs + ys)[i])) < PathRank(NameRef((xs + ys)[j]))
    {
      if j < |xs| {
        assert (xs + ys)[i] == xs[i] && (xs + ys)[j] == xs[j];
      } else if i < |xs| {
        assert (xs + ys)[i] == xs[i] && xs[i] in xs;
        assert (xs + ys)[j] == ys[j - |xs|] && ys[j - |xs|] in ys;
      } else {
        assert (xs + ys)[i] == ys[i - |xs|] && (xs + ys)[j] == ys[j - |xs|];
      }
    }
  }

  lemma RanksBelowConcat(xs: seq<Assignment>, ys: seq<Assignment>, k: nat)
    requires RanksBelow(xs, k) && RanksBelow(ys, k)
    ensures RanksBelow(xs + ys, k)
  {
  }

  /**
   * The actions come in the fixed order name, description, skills,
   * updatedAt.
   */
  lemma ClauseOrder(p: UpdatePayload, now: string)
    ensures var actions := Actions(Assignments(p, now));
      forall i, j | 0 <= i < j < |actions| :: PathRank(actions[i].path) < PathRank(actions[j].path)
  {
    AssignmentsRankIncreasing(p, now);
    RankIncreasingActions(Assignments(p, now));
  }

  lemma AssignmentsRankIncreasing(p: UpdatePayload, now: string)
    ensures RankIncreasing(Assignments(p, now))
  {
    var n := if p.name.Some? then [AssignName(p.name.value)] else [];
    var d := if p.description.Some? then [AssignDescription(p.description.value)] else [];
    var s := if p.skills.Some? then [AssignSkills(p.skills.value)] else [];
    var u := [AssignUpdatedAt(now)];
    assert RankIncreasing(n) && RankIncreasing(d) && RankIncreasing(s) && RankIncreasing(u);
    assert RanksBelow(n, 1) && RanksFrom(d, 1) && RanksBelow(d, 2) && RanksFrom(s, 2);
    assert RanksBelow(s, 3) && RanksFrom(u, 3);
    assert RankIncreasing(n + d) by { RankIncreasingConcat(n, d, 1); }
    assert RanksBelow(n + d, 2) by { RanksBelowConcat(n, d, 2); }
    assert RankIncreasing(n + d + s) by { RankIncreasingConcat(n + d, s, 2); }
    assert RanksBelow(n + d + s, 3) by { RanksBelowConcat(n + d, s, 3); }
    assert RankIncreasing(n + d + s + u) by { RankIncreasingConcat(n + d + s, u, 3); }
    assert Assignments(p, now) == n + d + s + u;
  }

  lemma RankIncreasingActions(asg: seq<Assignment>)
    requires RankIncreasing(asg)
    ensures var actions := Actions(asg);
      forall i, j | 0 <= i < j < |actions| :: PathRank(actions[i].path) < PathRank(actions[j].path)
  {
    var actions := Actions(asg);
    assert forall i | 0 <= i < |actions| :: actions[i].path == NameRef(asg[i]);
  }

  /**
   * There is one action per supplied field plus one, so the expression is
   * never a bare `SET `, and the last action writes `updatedAt`.
   */
  lemma ClauseCount(p: UpdatePayload, now: string)
    ensures var actions := Actions(Assignments(p, now));
      && |actions| == SuppliedCount(p) + 1
      && actions[|actions| - 1] == SetAction("#updatedAt", ":updatedAt")
      && UpdateExpressionText(actions) != "SET "
  {
  }

  /** The expression text for a payload that supplies no field: only `updatedAt` is set. */
  lemma EmptyExpressionText(p: UpdatePayload, now: string)
    requires p.name.None? && p.description.None? && p.skills.None?
    ensures UpdateExpressionText(Actions(Assignments(p, now))) == "SET #updatedAt = :updatedAt"
  {
    assert Actions(Assignments(p, now)) == [SetAction("#updatedAt", ":updatedAt")];
  }

  /** A field's action is present exactly when the payload supplies the field. */
  lemma ClausePresence(p: UpdatePayload, now: string)
    ensures var actions := Actions(Assignments(p, now));
      && (SetAction("#name", ":name") in actions <==> p.name.Some?)
      && (SetAction("#description", ":description") in actions <==> p.description.Some?)
      && (SetAction("#skills", ":skills") in actions <==> p.skills.Some?)
  {
    var asg := Assignments(p, now);
    ActionsMembership(asg, SetAction("#name", ":name"));
    ActionsMembership(asg, SetAction("#description", ":description"));
    ActionsMembership(asg, SetAction("#skills", ":skills"));
    assert forall a | a in asg ::
      && (a.AssignName? ==> p.name.Some?)
      && (a.AssignDescription? ==> p.description.Some?)
      && (a.AssignSkills? ==> p.skills.Some?);
    if p.name.Some? { assert AssignName(p.name.value) in asg; }
    if p.description.Some? { assert AssignDescription(p.description.value) in asg; }
    if p.skills.Some? { assert AssignSkills(p.skills.value) in asg; }
  }

  /**
   * Every placeholder the actions use has an entry in the name map and in
   * the value map, and every entry is used by some action.
   */
  lemma {:induction false} PlaceholdersDefined(asg: seq<Assignment>)
    ensures AttributeNames(asg).Keys == Paths(Actions(asg))
    ensures AttributeValues(asg).Keys == Operands(Actions(asg))
    decreases |asg|
  {
    if asg != [] {
      var init, last := asg[..|asg| - 1], asg[|asg| - 1];
      assert asg == init + [last];
      PlaceholdersDefined(init);
      AppendAssignment(init, last);
      PlaceholdersAppend(Actions(init), ActionFor(last));
    }
  }

  lemma {:induction false} PlaceholdersAppend(xs: seq<SetAction>, y: SetAction)
    ensures Paths(xs + [y]) == Paths(xs) + {y.path}
    ensures Operands(xs + [y]) == Operands(xs) + {y.operand}
    decreases |xs|
  {
    if xs == [] {
      assert [y][1..] == [];
    } else {
      assert (xs + [y])[1..] == xs[1..] + [y];
      PlaceholdersAppend(xs[1..], y);
    }
  }

  /** No two assignments write the same attribute. */
  ghost predicate DistinctAttributes(asg: seq<Assignment>) {
    forall i, j | 0 <= i < j < |asg| :: Attribute(asg[i]) != Attribute(asg[j])
  }

  /** The name map resolves each assignment's placeholder to its attribute. */
  lemma {:induction false} NamesResolve(asg: seq<Assignment>, a: Assignment)
    requires a in asg
    ensures NameRef(a) in AttributeNames(asg) && AttributeNames(asg)[NameRef(a)] == Attribute(a)
    decreases |asg|
  {
    var init, last := asg[..|asg| - 1], asg[|asg| - 1];
    assert asg == init + [last];
    if a != last {
      NamesResolve(init, a);
    }
  }

  /** When no attribute is written twice, the value map resolves each assignment's placeholder to its value. */
  lemma {:induction false} ValuesResolve(asg: seq<Assignment>, a: Assignment)
    requires DistinctAttributes(asg) && a in asg
    ensures ValueRef(a) in AttributeValues(asg) && AttributeValues(asg)[ValueRef(a)] == Value(a)
    decreases |asg|
  {
    var init, last := asg[..|asg| - 1], asg[|asg| - 1];
    assert asg == init + [last];
    if a != last {
      var k :| 0 <= k < |init| && init[k] == a;
      assert asg[k] == a;
      assert Attribute(a) != Attribute(last);
      assert DistinctAttributes(init) by {
        forall i, j | 0 <= i < j < |init| ensures Attribute(init[i]) != Attribute(init[j]) {
          assert init[i] == asg[i] && init[j] == asg[j];
        }
      }
      ValuesResolve(init, a);
    }
  }

  /** The store writes an assignment's attribute exactly as the assignment says. */
  lemma SetAttributeAssigned(item: Portfolio, a: Assignment)
    ensures SetAttribute(item, Attribute(a), Value(a)) == Ok(Assigned(item, a))
  {
  }

  /**
   * With maps that resolve every placeholder as the assignments say,
   * performing the actions performs the assignments.
   */
  lemma {:induction false} ApplyAssignments(item: Portfolio, asg: seq<Assignment>,
                                            names: map<string, string>, values: map<string, AttributeValue>)
    requires forall a | a in asg ::
      && NameRef(a) in names && names[NameRef(a)] == Attribute(a)
      && ValueRef(a) in values && values[ValueRef(a)] == Value(a)
    ensures Paths(Actions(asg)) <= names.Keys && Operands(Actions(asg)) <= values.Keys
    ensures ApplyActions(item, Actions(asg), names, values) == Ok(Assign(item, asg))
    decreases |asg|
  {
    if asg != [] {
      var actions := Actions(asg);
      assert actions[0] == ActionFor(asg[0]) && asg[0] in asg;
      assert actions[1..] == Actions(asg[1..]);
      SetAttributeAssigned(item, asg[0]);
      ApplyAssignments(Assigned(item, asg[0]), asg[1..], names, values);
    }
  }

  lemma {:induction false} AssignAppend(item: Portfolio, xs: seq<Assignment>, ys: seq<Assignment>)
    ensures Assign(item, xs + ys) == Assign(Assign(item, xs), ys)
    decreases |xs|
  {
    if xs != [] {
      assert (xs + ys)[0] == xs[0] && (xs + ys)[1..] == xs[1..] + ys;
      AssignAppend(Assigned(item, xs[0]), xs[1..], ys);
    } else {
      assert xs + ys == ys;
    }
  }

  /** Performing what the update writes gives the intended merged record. */
  lemma AssignmentsMerge(item: Portfolio, p: UpdatePayload, now: string)
    ensures Assign(item, Assignments(p, now)) == Merge(item, p, now)
  {
    var n := if p.name.Some? then [AssignName(p.name.value)] else [];
    var d := if p.description.Some? then [AssignDescription(p.description.value)] else [];
    var s := if p.skills.Some? then [AssignSkills(p.skills.value)] else [];
    var u := [AssignUpdatedAt(now)];
    assert Assignments(p, now) == n + d + s + u;
    AssignAppend(item, n + d + s, u);
    AssignAppend(item, n + d, s);
    AssignAppend(item, n, d);
  }

  lemma RankDistinct(asg: seq<Assignment>)
    requires RankIncreasing(asg)
    ensures DistinctAttributes(asg)
  {
    forall i, j | 0 <= i < j < |asg| ensures Attribute(asg[i]) != Attribute(asg[j]) {
      assert PathRank(NameRef(asg[i])) < PathRank(NameRef(asg[j]));
    }
  }

  /** With no attribute written twice, the maps resolve every placeholder as the assignments say. */
  lemma MapsResolve(asg: seq<Assignment>)
    requires DistinctAttributes(asg)
    ensures forall a | a in asg ::
      && NameRef(a) in AttributeNames(asg) && AttributeNames(asg)[NameRef(a)] == Attribute(a)
      && ValueRef(a) in AttributeValues(asg) && AttributeValues(asg)[ValueRef(a)] == Value(a)
  {
    forall a | a in asg
      ensures NameRef(a) in AttributeNames(asg) && AttributeNames(asg)[NameRef(a)] == Attribute(a)
      ensures ValueRef(a) in AttributeValues(asg) && AttributeValues(asg)[ValueRef(a)] == Value(a)
    {
      NamesResolve(asg, a);
      ValuesResolve(asg, a);
    }
  }

  /** With no attribute written twice, no two actions target the same attribute. */
  lemma TargetsDistinct(asg: seq<Assignment>)
    requires DistinctAttributes(asg)
    ensures DistinctTargets(Actions(asg), AttributeNames(asg))
  {
    var actions, names := Actions(asg), AttributeNames(asg);
    forall i, j | 0 <= i < j < |actions| && actions[i].path in names && actions[j].path in names
      ensures names[actions[i].path] != names[actions[j].path]
    {
      NamesResolve(asg, asg[i]);
      NamesResolve(asg, asg[j]);
    }
  }

  /** A non-empty list of assignments, no attribute twice, is executed by the store as the assignments say. */
  lemma ExecuteAssignments(item: Portfolio, asg: seq<Assignment>)
    requires |asg| > 0 && DistinctAttributes(asg)
    ensures Execute(item, Actions(asg), AttributeNames(asg), AttributeValues(asg)) == Ok(Assign(item, asg))
  {
    MapsResolve(asg);
    ApplyAssignments(item, asg, AttributeNames(asg), AttributeValues(asg));
    PlaceholdersDefined(asg);
    TargetsDistinct(asg);
  }

  /**
   * The command the builder produces, executed by the store against any
   * stored item, succeeds and yields the merged record: each of name,
   * description and skills is replaced exactly when supplied, `updatedAt`
   * becomes `now`, and `id` and `createdAt` are kept.
   */
  lemma ExecuteBuiltUpdate(item: Portfolio, p: UpdatePayload, now: string)
    ensures var asg := Assignments(p, now);
      Execute(item, Actions(asg), AttributeNames(asg), AttributeValues(asg)) == Ok(Merge(item, p, now))
  {
    var asg := Assignments(p, now);
    AssignmentsRankIncreasing(p, now);
    RankDistinct(asg);
    ExecuteAssignments(item, asg);
    AssignmentsMerge(item, p, now);
  }
}
