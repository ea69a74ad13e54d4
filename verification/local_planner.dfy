/**
  The local planner: on every pose it picks the primitive of the global plan
  nearest to the vehicle, turns it to the vehicle's heading and publishes it
  as a one-primitive local plan. A primitive is reduced to an identity and two
  flags; the squared distances from the vehicle to the primitives, the tangent
  angles at the vehicle and the vehicle's heading are supplied as given reals.
 */
module LocalPlanning {
  import opened Wrappers
  import opened Geometry

  /** `Plan::Type`: only whether a plan is `OnlyLines` matters here. */
  datatype PlanType = OnlyLines | OtherType

  /** A path primitive: which line it is, whether it may be followed either
      way, and whether its direction is flipped from the generated one. */
  datatype Primitive = Primitive(id: nat, anyDirection: bool, reversed: bool)

  datatype Plan = Plan(kind: PlanType, primitives: seq<Primitive>)

  /** `createReverse()`: a new primitive, the same line in the other direction. */
  function CreateReverse(p: Primitive): (r: Primitive)
    ensures r.id == p.id && r.anyDirection == p.anyDirection && r.reversed != p.reversed
  {
    p.(reversed := !p.reversed)
  }

  lemma CreateReverseInvolution(p: Primitive)
    ensures CreateReverse(CreateReverse(p)) == p
  {
  }

  /** The heading difference, in degrees, beyond which the primitive is reversed. */
  const ReverseThreshold: real := 95.0

  function Abs(x: real): real
  {
    if x < 0.0 then -x else x
  }

  /** The primitive as handed to the controller: reversed exactly when the
      vehicle's heading differs from the primitive's angle by more than 95 degrees. */
  function Orient(p: Primitive, heading: real, angle: real): (r: Primitive)
    ensures r.id == p.id && r.anyDirection == p.anyDirection
    ensures r.reversed == (p.reversed != (Abs(heading - angle) > ReverseThreshold))
  {
    if Abs(heading - angle) > ReverseThreshold then CreateReverse(p) else p
  }

  // ---------------------------------------------------------------------------
  // The nearest-primitive scan

  /** The exhaustive scan's answer: the first index of a minimal distance. */
  function FirstMinimum(d: seq<real>): (k: nat)
    requires |d| > 0
    ensures k < |d|
    ensures forall j :: 0 <= j < |d| ==> d[k] <= d[j]
    ensures forall j :: 0 <= j < k ==> d[k] < d[j]
  {
    if |d| == 1 then 0
    else
      var k := FirstMinimum(d[..|d| - 1]);
      if d[|d| - 1] < d[k] then |d| - 1 else k
  }

  /** The early-exit scan's answer: the end of the strictly falling prefix. */
  function DescentEnd(d: seq<real>): (k: nat)
    requires |d| > 0
    ensures k < |d|
    ensures forall j :: 0 <= j < k ==> d[j + 1] < d[j]
    ensures k + 1 < |d| ==> d[k] <= d[k + 1]
  {
    if |d| == 1 then 0
    else
      var k := DescentEnd(d[..|d| - 1]);
      if k == |d| - 2 && d[|d| - 1] < d[|d| - 2] then |d| - 1 else k
  }

  /** The primitive the scan selects, early exit for `OnlyLines` plans. */
  function Nearest(d: seq<real>, onlyLines: bool): (k: nat)
    requires |d| > 0
    ensures k < |d|
  {
    if onlyLines then DescentEnd(d) else FirstMinimum(d)
  }

  /** The scan of `setPose`: keeps the running minimum, starting from infinity
      (`None`), with a strict comparison; an `OnlyLines` plan stops at the
      first distance that does not improve. */
  method ScanNearest(d: seq<real>, onlyLines: bool) returns (nearest: nat)
    requires |d| > 0
    ensures nearest < |d|
    ensures nearest == Nearest(d, onlyLines)
  {
    var distanceSquared: Option<real> := None;
    var found: Option<nat> := None;
    var i := 0;
    while i < |d|
      invariant 0 <= i <= |d|
      invariant i == 0 <==> found.None?
      invariant distanceSquared.None? <==> found.None?
      invariant found.Some? ==> found.value < i && distanceSquared.value == d[found.value]
      invariant found.Some? && !onlyLines ==> found.value == FirstMinimum(d[..i])
      invariant found.Some? && onlyLines ==> found.value == DescentEnd(d[..i]) == i - 1
    {
      if distanceSquared.None? || d[i] < distanceSquared.value {
        found := Some(i);
        distanceSquared := Some(d[i]);
      } else if onlyLines {
        break;
      }
      assert d[..i + 1][..i] == d[..i];
      i := i + 1;
    }
    nearest := found.value;
  }

  /** Distances that fall strictly and, once they stop falling, never fall
      again: the shape of the distances to lines stored in offset order. */
  ghost predicate Valley(d: seq<real>)
  {
    forall i, j :: 0 <= i < j < |d| - 1 && d[i] <= d[i + 1] ==> d[j] <= d[j + 1]
  }

  lemma {:induction false} RisingFrom(d: seq<real>, m: nat, j: nat)
    requires m <= j < |d|
    requires forall t :: m <= t < j ==> d[t] <= d[t + 1]
    ensures d[m] <= d[j]
  {
    if j > m {
      RisingFrom(d, m, j - 1);
    }
  }

  lemma {:induction false} FallingTo(d: seq<real>, j: nat, m: nat)
    requires j < m < |d|
    requires forall t :: j <= t < m ==> d[t + 1] < d[t]
    ensures d[m] < d[j]
    decreases m - j
  {
    if j + 1 < m {
      FallingTo(d, j + 1, m);
    }
  }

  /** On valley-shaped distances the early-exit scan selects the same
      primitive as the exhaustive scan. */
  lemma ValleyScansAgree(d: seq<real>)
    requires |d| > 0 && Valley(d)
    ensures Nearest(d, true) == Nearest(d, false)
  {
    var m := DescentEnd(d);
    var k := FirstMinimum(d);
    if k < m {
      FallingTo(d, k, m);
    } else if k > m {
      assert d[m] <= d[m + 1];
      RisingFrom(d, m, k);
    }
  }

  /** Without the valley shape the early exit can miss the nearest primitive:
      the centre line at squared distance 9, a left line at 16, a right line at 1. */
  lemma EarlyExitCanMissNearest()
    ensures Nearest([9.0, 16.0, 1.0], true) == 0
    ensures Nearest([9.0, 16.0, 1.0], false) == 2
  {
    var d := [9.0, 16.0, 1.0];
    assert DescentEnd(d[..2]) == 0 by {
      assert d[..2][..1] == [9.0];
    }
    assert d[..3] == d;
  }

  // ---------------------------------------------------------------------------
  // The planner block

  class LocalPlanner {
    var position: Point3
    var orientation: Quaternion

    var globalPlan: Plan
    var plan: Plan

    var turningLeft: bool
    var turningRight: bool
    var leftSkip: int
    var rightSkip: int
    var positionTurnStart: Point3
    var targetSegment: Segment2

    /** The plans published with `planChanged`, in order. */
    ghost var emitted: seq<Plan>

    /** The local plan holds at most one primitive, one that may be followed
        either way, and every published plan is such a one-primitive plan. */
    ghost predicate Valid()
      reads this
    {
      && |plan.primitives| <= 1
      && (forall q :: q in plan.primitives ==> q.anyDirection)
      && (forall e :: e in emitted ==> e.kind == OnlyLines && |e.primitives| == 1 && e.primitives[0].anyDirection)
    }

    /** The member initialisers; `defaultType` is the type of a default-constructed, empty plan. */
    constructor (defaultType: PlanType)
      ensures Valid()
      ensures position == Origin3 && orientation == Identity
      ensures globalPlan == Plan(defaultType, []) && plan == Plan(defaultType, [])
      ensures !turningLeft && !turningRight && leftSkip == 1 && rightSkip == 1
      ensures positionTurnStart == Origin3 && targetSegment == Segment2(Origin2, Origin2)
      ensures emitted == []
    {
      position, orientation := Origin3, Identity;
      globalPlan, plan := Plan(defaultType, []), Plan(defaultType, []);
      turningLeft, turningRight, leftSkip, rightSkip := false, false, 1, 1;
      positionTurnStart, targetSegment := Origin3, Segment2(Origin2, Origin2);
      emitted := [];
    }

    /** Takes over the global plan wholesale; nothing is published. */
    method SetPlan(p: Plan)
      requires Valid()
      modifies this`globalPlan
      ensures Valid()
      ensures globalPlan == p
    {
      globalPlan := p;
    }

    /** A pose of the vehicle. `distances[i]` is the squared distance from the
        projected position to primitive `i` of the global plan, `angles[i]` the
        primitive's angle there, `heading` the vehicle's yaw in degrees. */
    method SetPose(pos: Point3, ori: Quaternion, options: set<PoseOption>,
                   distances: seq<real>, angles: seq<real>, heading: real)
      requires Valid()
      requires |distances| == |globalPlan.primitives| && |angles| == |globalPlan.primitives|
      modifies this`position, this`orientation, this`plan, this`emitted
      ensures Valid()
      ensures globalPlan == old(globalPlan)
      ensures CalculateLocalOffsets in options ==> unchanged(this)
      ensures CalculateLocalOffsets !in options ==> position == pos && orientation == ori
      ensures CalculateLocalOffsets !in options && globalPlan.primitives == [] ==>
        plan == old(plan) && emitted == old(emitted)
      ensures CalculateLocalOffsets !in options && globalPlan.primitives != [] ==>
        var k := Nearest(distances, globalPlan.kind == OnlyLines);
        var nearest := globalPlan.primitives[k];
        && plan == Plan(OnlyLines, if nearest.anyDirection then [Orient(nearest, heading, angles[k])] else [])
        && emitted == old(emitted) + (if nearest.anyDirection then [plan] else [])
    {
      if CalculateLocalOffsets !in options {
        position := pos;
        orientation := ori;
        if globalPlan.primitives != [] {
          var k := ScanNearest(distances, globalPlan.kind == OnlyLines);
          var nearestPrimitive := globalPlan.primitives[k];
          plan := Plan(OnlyLines, []);
          if nearestPrimitive.anyDirection {
            if Abs(heading - angles[k]) > ReverseThreshold {
              nearestPrimitive := CreateReverse(nearestPrimitive);
            }
            plan := plan.(primitives := plan.primitives + [nearestPrimitive]);
            emitted := emitted + [plan];
          }
        }
      }
    }
  }
}
