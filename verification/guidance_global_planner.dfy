/**
  The AB-line plan generator of the global planner (`createPlanAB`) reduced to
  what it decides about each generated offset line: its pass index, whether it
  may be followed in either direction, and whether it is reversed. The line
  geometry (headings, offsets, implement width) is not modelled.

  Also the field-optimisation request of `alphaShape`.
 */
module GuidanceGlobalPlanner {
  import opened Wrappers
  import opened Geometry

  /** `passCounter` is a 16-bit unsigned counter: its increment wraps at 2^16. */
  const PassCounterModulus: nat := 0x1_0000

  /** The four states of the per-side direction state machine. */
  datatype PassState = Forward | Reverse | ForwardMirrored | ReverseMirrored

  /** The planner's pass settings as `createPlanAB` reads them. */
  datatype PassSettings = PassSettings(forwardPasses: int, reversePasses: int, startRight: bool, mirror: bool)

  /** The state machine's variables: the state and `passCounter`. */
  datatype Generator = Generator(state: PassState, passCounter: nat)

  /** What the generator decides about one offset line. */
  datatype PassLine = PassLine(passIndex: int, anyDirection: bool, reversed: bool)

  /** Both counts zero: every line is generated to be followed either way. */
  predicate Undirected(p: PassSettings)
  {
    p.forwardPasses == 0 && p.reversePasses == 0
  }

  /** The states in which a generated line is reversed. */
  predicate Reversing(s: PassState)
  {
    s == Reverse || s == ForwardMirrored
  }

  predicate Mirrored(s: PassState)
  {
    s == ForwardMirrored || s == ReverseMirrored
  }

  /** One iteration of the side loop: increment the counter, then the switch. */
  function Step(g: Generator, p: PassSettings): (h: Generator)
    ensures h.passCounter < PassCounterModulus
  {
    var passCounter := (g.passCounter + 1) % PassCounterModulus;
    match g.state
    case Forward =>
      if passCounter >= p.forwardPasses then Generator(Reverse, 0) else Generator(Forward, passCounter)
    case Reverse =>
      if passCounter >= p.reversePasses then Generator(if p.mirror then ReverseMirrored else Forward, 0)
      else Generator(Reverse, passCounter)
    case ForwardMirrored =>
      if passCounter >= p.forwardPasses then Generator(Forward, 0) else Generator(ForwardMirrored, passCounter)
    case ReverseMirrored =>
      if passCounter >= p.reversePasses then Generator(if p.mirror then ForwardMirrored else Forward, 0)
      else Generator(ReverseMirrored, passCounter)
  }

  /** How many lines a state lasts: `forwardPasses` for the forward states, `reversePasses` otherwise. */
  function Quota(s: PassState, p: PassSettings): int
  {
    if s == Forward || s == ForwardMirrored then p.forwardPasses else p.reversePasses
  }

  /** The transition table: the state that follows `s` once its quota is reached. */
  function Successor(s: PassState, mirror: bool): PassState
  {
    match s
    case Forward => Reverse
    case Reverse => if mirror then ReverseMirrored else Forward
    case ForwardMirrored => Forward
    case ReverseMirrored => if mirror then ForwardMirrored else Forward
  }

  /** The mirrored cycle Forward, Reverse, ReverseMirrored, ForwardMirrored. */
  function CycleNext(s: PassState): PassState
  {
    match s
    case Forward => Reverse
    case Reverse => ReverseMirrored
    case ReverseMirrored => ForwardMirrored
    case ForwardMirrored => Forward
  }

  /** The generator for the left side, before its first line. Its first line
      is reversed unless the vehicle starts on the left with a forward quota
      other than 1; the counter starts at 1, or at 0 for an unmirrored start
      on the right. */
  function LeftStart(p: PassSettings): (g: Generator)
    ensures Reversing(g.state) <==> p.startRight || p.forwardPasses == 1
    ensures g.passCounter == (if p.startRight && !p.mirror then 0 else 1)
    ensures Mirrored(g.state) <==> p.startRight && p.mirror
  {
    if !p.startRight then
      Generator(if p.forwardPasses == 1 then Reverse else Forward, 1)
    else if p.mirror then
      Generator(ForwardMirrored, 1)
    else
      Generator(Reverse, 0)
  }

  /** The generator for the right side, before its first line. Its first line
      is reversed unless the vehicle starts on the right with a forward quota
      other than 1; the counter starts at 1 on the starting side, else at 0. */
  function RightStart(p: PassSettings): (g: Generator)
    ensures Reversing(g.state) <==> !p.startRight || p.forwardPasses == 1
    ensures g.passCounter == (if p.startRight then 1 else 0)
    ensures Mirrored(g.state) <==> !p.startRight && p.mirror
  {
    if p.startRight then
      Generator(if p.forwardPasses == 1 then Reverse else Forward, 1)
    else
      Generator(if p.mirror then ForwardMirrored else Reverse, 0)
  }

  /** The generator after `k` iterations of a side loop. */
  function After(g: Generator, p: PassSettings, k: nat): Generator
  {
    if k == 0 then g else Step(After(g, p, k - 1), p)
  }

  /** The first `count` lines of a side, with pass indices 1 to `count`. */
  function SideLines(start: Generator, p: PassSettings, count: nat): seq<PassLine>
  {
    if count == 0 then []
    else SideLines(start, p, count - 1) + [PassLine(count, false, Reversing(After(start, p, count - 1).state))]
  }

  /** Lines 0 to `count - 1` of the left side in undirected mode. */
  function UndirectedLeft(count: nat): seq<PassLine>
  {
    if count == 0 then [] else UndirectedLeft(count - 1) + [PassLine(count - 1, true, false)]
  }

  /** Lines -1 to -`count` of the right side in undirected mode. */
  function UndirectedRight(count: nat): seq<PassLine>
  {
    if count == 0 then [] else UndirectedRight(count - 1) + [PassLine(-(count as int), true, false)]
  }

  /** The number of lines per side besides the first: indices 1 to `pathsToGenerate - 1`. */
  function SideCount(pathsToGenerate: nat): nat
  {
    if pathsToGenerate == 0 then 0 else pathsToGenerate - 1
  }

  /** The whole plan, in the order the lines are appended. */
  function PlanLines(p: PassSettings, pathsToGenerate: nat): seq<PassLine>
  {
    if Undirected(p) then
      UndirectedLeft(pathsToGenerate) + UndirectedRight(SideCount(pathsToGenerate))
    else
      [PassLine(0, false, false)]
      + SideLines(LeftStart(p), p, SideCount(pathsToGenerate))
      + SideLines(RightStart(p), p, SideCount(pathsToGenerate))
  }

  function ReversedFlags(lines: seq<PassLine>): (flags: seq<bool>)
    ensures |flags| == |lines|
  {
    seq(|lines|, i requires 0 <= i < |lines| => lines[i].reversed)
  }

  /** Generates one side: the loop over `i` with the direction state machine. */
  method AppendSide(plan: seq<PassLine>, start: Generator, p: PassSettings, pathsToGenerate: nat)
    returns (extended: seq<PassLine>)
    ensures extended == plan + SideLines(start, p, SideCount(pathsToGenerate))
  {
    extended := plan;
    var state: PassState, passCounter: nat := start.state, start.passCounter;
    var i := 1;
    while i < pathsToGenerate
      invariant 1 <= i <= SideCount(pathsToGenerate) + 1
      invariant Generator(state, passCounter) == After(start, p, i - 1)
      invariant extended == plan + SideLines(start, p, i - 1)
    {
      var reversed := false;
      passCounter := (passCounter + 1) % PassCounterModulus;
      match state {
        case Forward =>
          if passCounter >= p.forwardPasses {
            state := Reverse;
            passCounter := 0;
          }
        case Reverse =>
          reversed := true;
          if passCounter >= p.reversePasses {
            state := if p.mirror then ReverseMirrored else Forward;
            passCounter := 0;
          }
        case ForwardMirrored =>
          reversed := true;
          if passCounter >= p.forwardPasses {
            state := Forward;
            passCounter := 0;
          }
        case ReverseMirrored =>
          if passCounter >= p.reversePasses {
            state := if p.mirror then ForwardMirrored else Forward;
            passCounter := 0;
          }
      }
      extended := extended + [PassLine(i, false, reversed)];
      i := i + 1;
    }
  }

  /** `createPlanAB` without the geometry: the lines in the order they are appended. */
  method CreatePlanAB(p: PassSettings, pathsToGenerate: nat) returns (plan: seq<PassLine>)
    ensures plan == PlanLines(p, pathsToGenerate)
  {
    plan := [];
    if p.forwardPasses == 0 && p.reversePasses == 0 {
      // left side, followed in both directions
      var i := 0;
      while i < pathsToGenerate
        invariant 0 <= i <= pathsToGenerate
        invariant plan == UndirectedLeft(i)
      {
        plan := plan + [PassLine(i, true, false)];
        i := i + 1;
      }
      // right side
      i := 1;
      while i < pathsToGenerate
        invariant 1 <= i <= SideCount(pathsToGenerate) + 1
        invariant plan == UndirectedLeft(pathsToGenerate) + UndirectedRight(i - 1)
      {
        plan := plan + [PassLine(-i, true, false)];
        i := i + 1;
      }
    } else {
      // centre line
      plan := [PassLine(0, false, false)];

      var state := Forward;
      var passCounter := 1;
      if !p.startRight {
        state := if p.forwardPasses == 1 then Reverse else Forward;
      } else {
        if p.mirror {
          state := ForwardMirrored;
        } else {
          state := Reverse;
          passCounter := 0;
        }
      }
      plan := AppendSide(plan, Generator(state, passCounter), p, pathsToGenerate);

      passCounter := 1;
      if p.startRight {
        state := if p.forwardPasses == 1 then Reverse else Forward;
      } else {
        state := if p.mirror then ForwardMirrored else Reverse;
        passCounter := 0;
      }
      plan := AppendSide(plan, Generator(state, passCounter), p, pathsToGenerate);
    }
  }

  // ---------------------------------------------------------------------------
  // Properties of the generated plan

  /** Line `j` of a side is line `j + 1` of that side, reversed exactly when the
      state at the start of its iteration reverses. */
  lemma {:induction false} SideLinesAt(start: Generator, p: PassSettings, count: nat, j: nat)
    requires j < count
    ensures |SideLines(start, p, count)| == count
    ensures SideLines(start, p, count)[j] == PassLine(j + 1, false, Reversing(After(start, p, j).state))
  {
    if j < count - 1 {
      SideLinesAt(start, p, count - 1, j);
    } else {
      SideLinesLength(start, p, count - 1);
    }
  }

  lemma {:induction false} SideLinesLength(start: Generator, p: PassSettings, count: nat)
    ensures |SideLines(start, p, count)| == count
  {
    if count > 0 {
      SideLinesLength(start, p, count - 1);
    }
  }

  lemma {:induction false} UndirectedLeftAt(count: nat, j: nat)
    requires j < count
    ensures |UndirectedLeft(count)| == count && UndirectedLeft(count)[j] == PassLine(j, true, false)
  {
    if j < count - 1 {
      UndirectedLeftAt(count - 1, j);
    } else if count > 1 {
      UndirectedLeftAt(count - 1, 0);
    }
  }

  lemma {:induction false} UndirectedRightAt(count: nat, j: nat)
    requires j < count
    ensures |UndirectedRight(count)| == count && UndirectedRight(count)[j] == PassLine(-(j + 1), true, false)
  {
    if j < count - 1 {
      UndirectedRightAt(count - 1, j);
    } else if count > 1 {
      UndirectedRightAt(count - 1, 0);
    }
  }

  /** Undirected mode: 2n-1 lines, all followable either way, none reversed;
      left indices 0..n-1, then right indices -1..-(n-1). */
  lemma UndirectedPlanLayout(p: PassSettings, n: nat)
    requires Undirected(p) && n >= 1
    ensures var plan := PlanLines(p, n);
      && |plan| == 2 * n - 1
      && (forall i :: 0 <= i < |plan| ==> plan[i].anyDirection && !plan[i].reversed)
      && (forall i :: 0 <= i < n ==> plan[i].passIndex == i)
      && (forall i :: n <= i < 2 * n - 1 ==> plan[i].passIndex == -(i - n + 1))
  {
    var plan := PlanLines(p, n);
    UndirectedLeftAt(n, 0);
    if n > 1 {
      UndirectedRightAt(n - 1, 0);
    }
    forall i | 0 <= i < |plan|
      ensures plan[i].anyDirection && !plan[i].reversed
      ensures i < n ==> plan[i].passIndex == i
      ensures n <= i ==> plan[i].passIndex == -(i - n + 1)
    {
      if i < n {
        UndirectedLeftAt(n, i);
      } else {
        UndirectedRightAt(n - 1, i - n);
      }
    }
  }

  /** Directional mode: the centre line first (index 0, one direction, not
      reversed), then the n-1 left lines with indices 1..n-1, then the n-1
      right lines, also with indices 1..n-1; a side line is reversed exactly
      when the state at the start of its iteration is Reverse or ForwardMirrored. */
  lemma DirectedPlanLayout(p: PassSettings, n: nat)
    requires !Undirected(p) && n >= 1
    ensures var plan := PlanLines(p, n);
      && |plan| == 2 * n - 1
      && plan[0] == PassLine(0, false, false)
      && (forall i :: 1 <= i < n ==>
            plan[i] == PassLine(i, false, Reversing(After(LeftStart(p), p, i - 1).state)))
      && (forall i :: n <= i < 2 * n - 1 ==>
            plan[i] == PassLine(i - n + 1, false, Reversing(After(RightStart(p), p, i - n).state)))
  {
    var plan := PlanLines(p, n);
    SideLinesLength(LeftStart(p), p, n - 1);
    SideLinesLength(RightStart(p), p, n - 1);
    forall i | 1 <= i < n
      ensures plan[i] == PassLine(i, false, Reversing(After(LeftStart(p), p, i - 1).state))
    {
      SideLinesAt(LeftStart(p), p, n - 1, i - 1);
    }
    forall i | n <= i < 2 * n - 1
      ensures plan[i] == PassLine(i - n + 1, false, Reversing(After(RightStart(p), p, i - n).state))
    {
      SideLinesAt(RightStart(p), p, n - 1, i - n);
    }
  }

  /** With no paths to generate, an undirected plan is empty and a directed
      plan holds only the centre line. */
  lemma NoPathsLayout(p: PassSettings)
    ensures PlanLines(p, 0) == if Undirected(p) then [] else [PassLine(0, false, false)]
  {
  }

  /** One iteration follows the transition table: the state changes exactly
      when the incremented counter reaches the state's quota, and the counter
      then restarts at 0. */
  lemma StepFollowsTable(g: Generator, p: PassSettings)
    ensures var c := (g.passCounter + 1) % PassCounterModulus;
      Step(g, p) == if c >= Quota(g.state, p) then Generator(Successor(g.state, p.mirror), 0)
                    else Generator(g.state, c)
  {
  }

  /** Without mirroring, the unmirrored states are closed under a step. */
  lemma {:induction false} UnmirroredClosed(g: Generator, p: PassSettings, k: nat)
    requires !p.mirror && !Mirrored(g.state)
    ensures !Mirrored(After(g, p, k).state)
  {
    if k > 0 {
      UnmirroredClosed(g, p, k - 1);
    }
  }

  /** Without mirroring neither side ever leaves Forward and Reverse. */
  lemma UnmirroredPlanStates(p: PassSettings, k: nat)
    requires !p.mirror
    ensures After(LeftStart(p), p, k).state in {Forward, Reverse}
    ensures After(RightStart(p), p, k).state in {Forward, Reverse}
  {
    UnmirroredClosed(LeftStart(p), p, k);
    UnmirroredClosed(RightStart(p), p, k);
  }

  /** With mirroring, every state change follows the cycle
      Forward, Reverse, ReverseMirrored, ForwardMirrored, Forward. */
  lemma MirroredCycle(g: Generator, p: PassSettings)
    requires p.mirror
    ensures Step(g, p).state == g.state || Step(g, p).state == CycleNext(g.state)
  {
  }

  /** While the counter stays below the quota, a state entered with counter 0
      keeps its state and counts the lines generated in it. */
  lemma {:induction false} CountsUp(s: PassState, p: PassSettings, k: nat)
    requires k < Quota(s, p) < PassCounterModulus
    ensures After(Generator(s, 0), p, k) == Generator(s, k)
  {
    if k > 0 {
      CountsUp(s, p, k - 1);
    }
  }

  /** A state entered with `passCounter == 0` lasts exactly its quota of lines
      (`forwardPasses` for Forward and ForwardMirrored, `reversePasses` for
      Reverse and ReverseMirrored), then hands over to its successor with the
      counter reset. */
  lemma RunLength(s: PassState, p: PassSettings)
    requires 1 <= Quota(s, p) < PassCounterModulus
    ensures forall k: nat :: k < Quota(s, p) ==> After(Generator(s, 0), p, k).state == s
    ensures After(Generator(s, 0), p, Quota(s, p)) == Generator(Successor(s, p.mirror), 0)
  {
    forall k: nat | k < Quota(s, p)
      ensures After(Generator(s, 0), p, k).state == s
    {
      CountsUp(s, p, k);
    }
    CountsUp(s, p, Quota(s, p) - 1);
  }

  /** The right side starts as the left side would with `startRight` negated,
      except that its mirrored start has counter 0 rather than 1. */
  lemma RightStartMirrorsLeftStart(p: PassSettings)
    ensures var left := LeftStart(p.(startRight := !p.startRight));
      RightStart(p) == if p.mirror && !p.startRight then Generator(left.state, 0) else left
  {
  }

  /** Two forward and three reverse passes, starting left, no mirroring, five
      lines per side: the centre line and the left side read
      forward, forward, reverse, reverse, reverse. */
  lemma TwoForwardThreeReverseExample()
    ensures var plan := PlanLines(PassSettings(2, 3, false, false), 5);
      && |plan| == 9
      && ReversedFlags(plan[..5]) == [false, false, true, true, true]
      && ReversedFlags(plan[5..]) == [true, true, true, false]
  {
  }

  // ---------------------------------------------------------------------------
  // alphaShape

  /** The request handed to the boundary-optimisation worker. */
  datatype FieldOptimisationRequest = FieldOptimisationRequest(
    points: seq<Point2>, alphaType: int, alpha: real, maxDeviation: real, connectDistance: real)

  /** `alphaShape`: at least three recorded points are needed for an area;
      the request carries a 2D copy of every point, in order. */
  method AlphaShape(points: seq<Point3>, alphaType: int, alpha: real, maxDeviation: real, connectDistance: real)
    returns (request: Option<FieldOptimisationRequest>)
    ensures request.Some? <==> |points| >= 3
    ensures request.Some? ==>
      && |request.value.points| == |points|
      && (forall i :: 0 <= i < |points| ==> request.value.points[i] == To2D(points[i]))
      && request.value.alphaType == alphaType && request.value.alpha == alpha
      && request.value.maxDeviation == maxDeviation && request.value.connectDistance == connectDistance
  {
    request := None;
    if |points| >= 3 {
      var copy2D: seq<Point2> := [];
      for i := 0 to |points|
        invariant |copy2D| == i
        invariant forall j :: 0 <= j < i ==> copy2D[j] == To2D(points[j])
      {
        copy2D := copy2D + [Point2(points[i].x, points[i].y)];
      }
      request := Some(FieldOptimisationRequest(copy2D, alphaType, alpha, maxDeviation, connectDistance));
    }
  }
}
