/**
  The global planner's slots: recording the AB polyline, the A and B points,
  tracking the implement's edges, and storing the planner and pass settings.
  Plan regeneration (`createPlanAB`), plan expansion (`plan.expand`) and the
  requests for polyline simplification are recorded in a ghost event log in
  the order they happen; their effects are not modelled here.
 */
module GlobalPlanning {
  import opened Geometry
  import GuidanceGlobalPlanner

  /** What a slot hands on to collaborators. */
  datatype PlannerEvent =
    | PlanRegenerated
    | PlanExpanded(at: Point2)
    | PolylineSimplificationRequested(tolerance: real)

  class GlobalPlanner {
    var position: Point3
    var orientation: Quaternion

    var forwardPasses: int
    var reversePasses: int
    var startRight: bool
    var mirror: bool

    var maxDeviation: real

    var aPoint: Point3
    var bPoint: Point3
    var abSegment: Segment3
    var abPolyline: seq<Point2>
    var recordContinous: bool

    var implementSegment: Segment2
    var positionLeftEdgeOfImplement: Point3
    var positionRightEdgeOfImplement: Point3

    /** `plan.pathsInReserve` of the global plan. */
    var pathsInReserve: int

    /** Calls to `createPlanAB` and `plan.expand` and emitted requests, in order. */
    ghost var events: seq<PlannerEvent>

    /** The pass-count normalisation: both counts are zero or neither is. */
    ghost predicate Valid()
      reads this
    {
      (forwardPasses == 0) == (reversePasses == 0)
    }

    /** The pass settings as `createPlanAB` reads them. */
    function Settings(): GuidanceGlobalPlanner.PassSettings
      reads this
    {
      GuidanceGlobalPlanner.PassSettings(forwardPasses, reversePasses, startRight, mirror)
    }

    /** What the normalisation gives the pass generator: the plan is undirected
        exactly when the forward count is zero, and a directed plan has no
        state of the direction state machine with a zero quota. */
    lemma DirectedQuotas()
      requires Valid()
      ensures GuidanceGlobalPlanner.Undirected(Settings()) <==> forwardPasses == 0
      ensures GuidanceGlobalPlanner.Undirected(Settings()) <==> reversePasses == 0
      ensures !GuidanceGlobalPlanner.Undirected(Settings()) ==>
        forall s: GuidanceGlobalPlanner.PassState :: GuidanceGlobalPlanner.Quota(s, Settings()) != 0
    {
    }

    /** The member initialisers; `initialReserve` is the global plan's default reserve. */
    constructor (initialReserve: int)
      ensures Valid()
      ensures position == Origin3 && orientation == Identity
      ensures forwardPasses == 0 && reversePasses == 0 && !startRight && !mirror
      ensures maxDeviation == 0.1
      ensures aPoint == Origin3 && bPoint == Origin3 && abSegment == Segment3(Origin3, Origin3)
      ensures abPolyline == [] && !recordContinous
      ensures implementSegment == Segment2(Origin2, Origin2)
      ensures positionLeftEdgeOfImplement == Origin3 && positionRightEdgeOfImplement == Origin3
      ensures pathsInReserve == initialReserve
      ensures events == []
    {
      position, orientation := Origin3, Identity;
      forwardPasses, reversePasses, startRight, mirror := 0, 0, false, false;
      maxDeviation := 0.1;
      aPoint, bPoint, abSegment := Origin3, Origin3, Segment3(Origin3, Origin3);
      abPolyline, recordContinous := [], false;
      implementSegment := Segment2(Origin2, Origin2);
      positionLeftEdgeOfImplement, positionRightEdgeOfImplement := Origin3, Origin3;
      pathsInReserve := initialReserve;
      events := [];
    }

    /** A pose of the vehicle: stored, recorded while continuous recording is
        on, and used to expand the plan. A pose in local offsets is ignored. */
    method SetPose(pos: Point3, ori: Quaternion, options: set<PoseOption>)
      requires Valid()
      modifies this
      ensures Valid()
      ensures CalculateLocalOffsets in options ==> unchanged(this)
      ensures CalculateLocalOffsets !in options ==>
        && position == pos && orientation == ori
        && abPolyline == (if old(recordContinous) then old(abPolyline) + [To2D(pos)] else old(abPolyline))
        && events == old(events) + [PlanExpanded(To2D(pos))]
      ensures CalculateLocalOffsets !in options ==>
        && forwardPasses == old(forwardPasses) && reversePasses == old(reversePasses)
        && startRight == old(startRight) && mirror == old(mirror) && maxDeviation == old(maxDeviation)
        && aPoint == old(aPoint) && bPoint == old(bPoint) && abSegment == old(abSegment)
        && recordContinous == old(recordContinous) && implementSegment == old(implementSegment)
        && positionLeftEdgeOfImplement == old(positionLeftEdgeOfImplement)
        && positionRightEdgeOfImplement == old(positionRightEdgeOfImplement)
        && pathsInReserve == old(pathsInReserve)
    {
      if CalculateLocalOffsets !in options {
        position := pos;
        orientation := ori;
        var position2D := To2D(pos);
        if recordContinous {
          abPolyline := abPolyline + [position2D];
        }
        events := events + [PlanExpanded(position2D)];
      }
    }

    /** The left edge of the implement, as a local offset without orientation:
        moves the segment's source and regenerates when the source changed. */
    method SetPoseLeftEdge(pos: Point3, ori: Quaternion, options: set<PoseOption>)
      requires Valid()
      modifies this`positionLeftEdgeOfImplement, this`implementSegment, this`events
      ensures Valid()
      ensures !(CalculateLocalOffsets in options && CalculateWithoutOrientation in options) ==>
        unchanged(this)
      ensures CalculateLocalOffsets in options && CalculateWithoutOrientation in options ==>
        && positionLeftEdgeOfImplement == pos
        && implementSegment == Segment2(To2D(pos), old(implementSegment).target)
        && events == old(events) + (if old(implementSegment).source != To2D(pos) then [PlanRegenerated] else [])
    {
      if CalculateLocalOffsets in options && CalculateWithoutOrientation in options {
        positionLeftEdgeOfImplement := pos;
        var point2D := To2D(pos);
        if implementSegment.source != point2D {
          implementSegment := Segment2(point2D, implementSegment.target);
          events := events + [PlanRegenerated];
        }
      }
    }

    /** The right edge of the implement: the same for the segment's target. */
    method SetPoseRightEdge(pos: Point3, ori: Quaternion, options: set<PoseOption>)
      requires Valid()
      modifies this`positionRightEdgeOfImplement, this`implementSegment, this`events
      ensures Valid()
      ensures !(CalculateLocalOffsets in options && CalculateWithoutOrientation in options) ==>
        unchanged(this)
      ensures CalculateLocalOffsets in options && CalculateWithoutOrientation in options ==>
        && positionRightEdgeOfImplement == pos
        && implementSegment == Segment2(old(implementSegment).source, To2D(pos))
        && events == old(events) + (if old(implementSegment).target != To2D(pos) then [PlanRegenerated] else [])
    {
      if CalculateLocalOffsets in options && CalculateWithoutOrientation in options {
        positionRightEdgeOfImplement := pos;
        var point2D := To2D(pos);
        if implementSegment.target != point2D {
          implementSegment := Segment2(implementSegment.source, point2D);
          events := events + [PlanRegenerated];
        }
      }
    }

    /** Point A is the current position; the polyline restarts from it. */
    method SetAPoint()
      requires Valid()
      modifies this`aPoint, this`abPolyline
      ensures Valid()
      ensures aPoint == position
      ensures abPolyline == [To2D(position)]
    {
      aPoint := position;
      abPolyline := [];
      abPolyline := abPolyline + [To2D(position)];
    }

    /** Point B is the current position: appended, the AB segment set, and the plan regenerated. */
    method SetBPoint()
      requires Valid()
      modifies this`bPoint, this`abPolyline, this`abSegment, this`events
      ensures Valid()
      ensures bPoint == position
      ensures abPolyline == old(abPolyline) + [To2D(position)]
      ensures abSegment == Segment3(aPoint, position)
      ensures events == old(events) + [PlanRegenerated]
    {
      bPoint := position;
      abPolyline := abPolyline + [To2D(position)];
      abSegment := Segment3(aPoint, bPoint);
      events := events + [PlanRegenerated];
    }

    /** An additional polyline point at the current position; the plan is regenerated. */
    method SetAdditionalPoint()
      requires Valid()
      modifies this`abPolyline, this`events
      ensures Valid()
      ensures |abPolyline| == |old(abPolyline)| + 1
      ensures abPolyline[..|old(abPolyline)|] == old(abPolyline)
      ensures abPolyline[|abPolyline| - 1] == To2D(position)
      ensures events == old(events) + [PlanRegenerated]
    {
      abPolyline := abPolyline + [To2D(position)];
      events := events + [PlanRegenerated];
    }

    /** Switches continuous recording; switching it off requests simplification. */
    method SetAdditionalPointsContinous(enabled: bool)
      requires Valid()
      modifies this`recordContinous, this`events
      ensures Valid()
      ensures recordContinous == enabled
      ensures events == old(events) +
        (if old(recordContinous) && !enabled then [PolylineSimplificationRequested(maxDeviation)] else [])
    {
      if recordContinous && !enabled {
        events := events + [PolylineSimplificationRequested(maxDeviation)];
      }
      recordContinous := enabled;
    }

    /** A new field: the recorded polyline is discarded. */
    method NewField()
      requires Valid()
      modifies this`abPolyline
      ensures Valid()
      ensures abPolyline == []
    {
      abPolyline := [];
    }

    /** Stores the reserve and the tolerance; a polyline of more than two
        points is resimplified with the new tolerance. */
    method SetPlannerSettings(reserve: int, deviation: real)
      requires Valid()
      modifies this`pathsInReserve, this`maxDeviation, this`events
      ensures Valid()
      ensures pathsInReserve == reserve && maxDeviation == deviation
      ensures events == old(events) +
        (if |abPolyline| > 2 then [PolylineSimplificationRequested(deviation)] else [])
    {
      pathsInReserve := reserve;
      maxDeviation := deviation;
      if |abPolyline| > 2 {
        events := events + [PolylineSimplificationRequested(deviation)];
      }
    }

    /** Stores the pass settings; if either count is zero, both become zero. */
    method SetPassSettings(forward: int, reverse: int, right: bool, mirrored: bool)
      requires Valid()
      modifies this`forwardPasses, this`reversePasses, this`startRight, this`mirror
      ensures Valid()
      ensures forward == 0 || reverse == 0 ==> forwardPasses == 0 && reversePasses == 0
      ensures forward != 0 && reverse != 0 ==> forwardPasses == forward && reversePasses == reverse
      ensures startRight == right && mirror == mirrored
    {
      if forward == 0 || reverse == 0 {
        forwardPasses := 0;
        reversePasses := 0;
      } else {
        forwardPasses := forward;
        reversePasses := reverse;
      }
      startRight := right;
      mirror := mirrored;
    }
  }
}
