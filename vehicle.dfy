/** One evolvable vehicle of Vehicle.cpp: its ray sensors, the topology of its
    network, which controller drives it, and its progress along the track.
    The physics vehicle itself is not modelled: its chassis pose and velocity,
    and the ray casts, are inputs to each tick. */
module Vehicles {

  import opened Wrappers
  import opened Geometry
  import opened Controllers

  // ---------------------------------------------------------------------------
  // Sensors

  /** A distance sensor: a ray fixed in the chassis frame (`startOS`, `endOS`),
      its world-space placement at the last tick, its length and the distance
      it last reported. */
  datatype Sensor = Sensor(startOS: Vec3, endOS: Vec3, startWS: Vec3, endWS: Vec3, maxDist: real, dist: real)

  /** A sensor from `start` to `end` in the chassis frame of a vehicle at
      `pose`: its range is the distance between the two points, it reports
      its full range and its world-frame ray is the pose applied to both. */
  function NewSensor(start: Vec3, end: Vec3, pose: Transform, norm: Vec3 -> real): (s: Sensor)
    ensures s.dist == s.maxDist == norm(Sub(start, end))
    ensures s.startOS == start && s.endOS == end
    ensures s.startWS == Apply(pose, start) && s.endWS == Apply(pose, end)
  {
    var maxDist := norm(Sub(start, end));
    Sensor(start, end, Apply(pose, start), Apply(pose, end), maxDist, maxDist)
  }

  /** The distance a sensor reports for a ray cast: its full length on a
      miss, the hit fraction of its length on a hit. */
  function RayDistance(maxDist: real, hit: Option<real>): (d: real)
    ensures hit.None? ==> d == maxDist
    ensures hit.Some? && 0.0 <= hit.value <= 1.0 && 0.0 <= maxDist ==> 0.0 <= d <= maxDist
  {
    match hit
    case None => maxDist
    case Some(fraction) => maxDist * fraction
  }

  /** One tick of one sensor: the ray is placed with the chassis pose and
      cast; `rayTest(from, to)` is the physics world's closest-hit fraction. */
  function Sense(s: Sensor, pose: Transform, rayTest: (Vec3, Vec3) -> Option<real>): (r: Sensor)
    ensures r.startOS == s.startOS && r.endOS == s.endOS && r.maxDist == s.maxDist
    ensures r.startWS == Apply(pose, s.startOS) && r.endWS == Apply(pose, s.endOS)
  {
    var startWS := Apply(pose, s.startOS);
    var endWS := Apply(pose, s.endOS);
    s.(startWS := startWS, endWS := endWS, dist := RayDistance(s.maxDist, rayTest(startWS, endWS)))
  }

  /** A ray cast reports a fraction of the ray, as Bullet's does. */
  ghost predicate FractionalHits(rayTest: (Vec3, Vec3) -> Option<real>) {
    forall a, b :: rayTest(a, b).Some? ==> 0.0 <= rayTest(a, b).value <= 1.0
  }

  /** A sensor never reports more than its length, nor a negative distance. */
  lemma SenseBounded(s: Sensor, pose: Transform, rayTest: (Vec3, Vec3) -> Option<real>)
    requires FractionalHits(rayTest) && 0.0 <= s.maxDist
    ensures 0.0 <= Sense(s, pose, rayTest).dist <= s.maxDist
  {
    var startWS := Apply(pose, s.startOS);
    var endWS := Apply(pose, s.endOS);
    assert Sense(s, pose, rayTest).dist == RayDistance(s.maxDist, rayTest(startWS, endWS));
  }

  /** `after` is every sensor of `before` recast from `pose`, in order. */
  ghost predicate SensedAll(before: seq<Sensor>, after: seq<Sensor>, pose: Transform, rayTest: (Vec3, Vec3) -> Option<real>) {
    |after| == |before| && forall k :: 0 <= k < |after| ==> after[k] == Sense(before[k], pose, rayTest)
  }

  /** The network's input vector: every sensor's distance, in sensor order. */
  ghost function SensorDistances(sensors: seq<Sensor>): seq<real> {
    seq(|sensors|, i requires 0 <= i < |sensors| => sensors[i].dist)
  }

  /** Collecting the network input, as VehicleControllerNeuralNet::update does. */
  method NeuralNetInput(sensors: seq<Sensor>) returns (input: seq<real>)
    ensures input == SensorDistances(sensors)
  {
    input := [];
    for i := 0 to |sensors|
      invariant |input| == i
      invariant forall k :: 0 <= k < i ==> input[k] == sensors[k].dist
    {
      input := input + [sensors[i].dist];
    }
  }

  /** A network that succeeds returns at least steer and force, as its
      output layer of Dof nodes gives. */
  ghost predicate ComputesActuation(compute: seq<real> -> Option<seq<real>>) {
    forall input :: compute(input).Some? ==> |compute(input).value| >= Dof
  }

  // ---------------------------------------------------------------------------
  // Track progress

  /** The projection of a position onto one track edge: the parameter `p`
      along the edge and the distance `segDist` from the foot point. */
  datatype Projection = Projection(p: real, segDist: real)

  /** Edge i of the closed track runs from waypoint i to waypoint i+1, the last
      one back to the first. */
  function EdgeVector(segs: seq<Vec3>, i: int): Vec3
    requires 0 <= i < |segs|
  {
    Sub(segs[(i + 1) % |segs|], segs[i])
  }

  /** The projection of `vpos` onto edge i when it falls within the edge,
      `0 <= p <= len`, and None otherwise. An edge of length 0 never matches:
      dividing by its length gives NaN in floating point, and every comparison
      with NaN fails. */
  function ProjectOnEdge(segs: seq<Vec3>, i: int, vpos: Vec3, norm: Vec3 -> real): (r: Option<Projection>)
    requires 0 <= i < |segs|
    ensures r.Some? ==> 0.0 <= r.value.p <= norm(EdgeVector(segs, i)) && norm(EdgeVector(segs, i)) != 0.0
  {
    var a := segs[i];
    var len := norm(EdgeVector(segs, i));
    if len == 0.0 then None
    else
      var n := Scale(EdgeVector(segs, i), 1.0 / len);
      var p := Dot(Sub(vpos, a), n);
      if 0.0 <= p && p <= len then Some(Projection(p, norm(Sub(Add(a, Scale(n, p)), vpos)))) else None
  }

  predicate Eligible(segs: seq<Vec3>, i: int, vpos: Vec3, norm: Vec3 -> real)
    requires 0 <= i < |segs|
  {
    ProjectOnEdge(segs, i, vpos, norm).Some?
  }

  function SegDist(segs: seq<Vec3>, i: int, vpos: Vec3, norm: Vec3 -> real): real
    requires 0 <= i < |segs| && Eligible(segs, i, vpos, norm)
  {
    ProjectOnEdge(segs, i, vpos, norm).value.segDist
  }

  ghost predicate AnyEligible(segs: seq<Vec3>, vpos: Vec3, norm: Vec3 -> real) {
    exists j :: 0 <= j < |segs| && Eligible(segs, j, vpos, norm)
  }

  /** Edge k is the nearest eligible edge, the first one among equally near
      edges: strictly nearer than every eligible edge before it and no farther
      than every eligible edge after it. */
  ghost predicate IsNearest(segs: seq<Vec3>, vpos: Vec3, norm: Vec3 -> real, k: int) {
    && 0 <= k < |segs| && Eligible(segs, k, vpos, norm)
    && (forall j :: 0 <= j < k && Eligible(segs, j, vpos, norm) ==>
          SegDist(segs, k, vpos, norm) < SegDist(segs, j, vpos, norm))
    && (forall j :: k < j < |segs| && Eligible(segs, j, vpos, norm) ==>
          SegDist(segs, k, vpos, norm) <= SegDist(segs, j, vpos, norm))
  }

  /** The nearest edge is determined: no two edges are both nearest. */
  lemma NearestIsUnique(segs: seq<Vec3>, vpos: Vec3, norm: Vec3 -> real, k1: int, k2: int)
    requires IsNearest(segs, vpos, norm, k1) && IsNearest(segs, vpos, norm, k2)
    ensures k1 == k2
  {
  }

  /** The point halfway along edge i. */
  function EdgeMidpoint(segs: seq<Vec3>, i: int): Vec3
    requires 0 <= i < |segs|
  {
    Add(segs[i], Scale(EdgeVector(segs, i), 0.5))
  }

  /** With the Euclidean norm, a position halfway along an edge of non-zero
      length projects onto that edge at half its length, with no distance
      from the edge. */
  lemma MidpointProjection(segs: seq<Vec3>, i: int, norm: Vec3 -> real)
    requires 0 <= i < |segs| && EuclideanNorm(norm) && norm(EdgeVector(segs, i)) != 0.0
    ensures ProjectOnEdge(segs, i, EdgeMidpoint(segs, i), norm) == Some(Projection(norm(EdgeVector(segs, i)) / 2.0, 0.0))
  {
    var a, e := segs[i], EdgeVector(segs, i);
    var len := norm(e);
    var mid := EdgeMidpoint(segs, i);
    var n := Scale(e, 1.0 / len);
    assert Sub(mid, a) == Scale(e, 0.5);
    DotScale(e, e, 0.5, 1.0 / len);
    assert Dot(e, e) == len * len;
    var p := Dot(Sub(mid, a), n);
    assert p == 0.5 * (1.0 / len) * (len * len);
    assert p == len / 2.0;
    assert (1.0 / len) * (len / 2.0) == 0.5;
    assert Scale(n, p) == Scale(e, 0.5);
    assert Sub(Add(a, Scale(n, p)), mid) == Zero;
  }

  /** When no earlier edge lies right on the midpoint of edge i, edge i is the
      nearest edge there. */
  lemma MidpointIsNearest(segs: seq<Vec3>, i: int, norm: Vec3 -> real)
    requires 0 <= i < |segs| && EuclideanNorm(norm) && norm(EdgeVector(segs, i)) != 0.0
    requires forall j :: 0 <= j < i && Eligible(segs, j, EdgeMidpoint(segs, i), norm) ==>
      SegDist(segs, j, EdgeMidpoint(segs, i), norm) > 0.0
    ensures IsNearest(segs, EdgeMidpoint(segs, i), norm, i)
  {
    var mid := EdgeMidpoint(segs, i);
    MidpointProjection(segs, i, norm);
    assert SegDist(segs, i, mid, norm) == 0.0;
    forall j | i < j < |segs| && Eligible(segs, j, mid, norm)
      ensures SegDist(segs, i, mid, norm) <= SegDist(segs, j, mid, norm)
    {
      var a := segs[j];
      var n := Scale(EdgeVector(segs, j), 1.0 / norm(EdgeVector(segs, j)));
      var foot := Add(a, Scale(n, Dot(Sub(mid, a), n)));
      assert SegDist(segs, j, mid, norm) == norm(Sub(foot, mid));
    }
  }

  /** The brute-force scan of updateTrackPerformance: the nearest eligible edge
      and the track distance at the vehicle's projection onto it, or -1 and -1
      when no edge is eligible. */
  method NearestSegment(segs: seq<Vec3>, distances: seq<real>, vpos: Vec3, norm: Vec3 -> real)
    returns (nearest: int, trackDist: real)
    requires |segs| <= |distances|
    ensures -1 <= nearest < |segs|
    ensures nearest < 0 <==> !AnyEligible(segs, vpos, norm)
    ensures nearest < 0 ==> trackDist == -1.0
    ensures nearest >= 0 ==> IsNearest(segs, vpos, norm, nearest)
    ensures nearest >= 0 ==> trackDist == distances[nearest] + ProjectOnEdge(segs, nearest, vpos, norm).value.p
  {
    nearest := -1;
    var nearestSegDist := -1.0;
    trackDist := -1.0;
    for i := 0 to |segs|
      invariant -1 <= nearest < i
      invariant nearest < 0 <==> forall j :: 0 <= j < i ==> !Eligible(segs, j, vpos, norm)
      invariant nearest < 0 ==> trackDist == -1.0
      invariant nearest >= 0 ==>
        && Eligible(segs, nearest, vpos, norm)
        && nearestSegDist == SegDist(segs, nearest, vpos, norm)
        && trackDist == distances[nearest] + ProjectOnEdge(segs, nearest, vpos, norm).value.p
        && (forall j :: 0 <= j < nearest && Eligible(segs, j, vpos, norm) ==> nearestSegDist < SegDist(segs, j, vpos, norm))
        && (forall j :: nearest < j < i && Eligible(segs, j, vpos, norm) ==> nearestSegDist <= SegDist(segs, j, vpos, norm))
    {
      var proj := ProjectOnEdge(segs, i, vpos, norm);
      if proj.Some? {
        assert Eligible(segs, i, vpos, norm);
        var segDist := proj.value.segDist;
        if nearest < 0 || segDist < nearestSegDist {
          nearest := i;
          nearestSegDist := segDist;
          trackDist := distances[i] + proj.value.p;
        }
      }
    }
  }

  /** Below this squared speed the vehicle counts as standing still (1e-6). */
  const StillThreshold: real := 0.000001

  /** The travel direction after a tick that found edge vector `n`: 0 when
      standing still, otherwise the sign of the velocity along the edge, and the
      previous direction when the velocity is perpendicular to the edge. */
  function NextTravelDir(dir: int, vel: Vec3, n: Vec3): (r: int)
    ensures -1 <= dir <= 1 ==> -1 <= r <= 1
    ensures Dot(vel, vel) < StillThreshold ==> r == 0
    ensures Dot(vel, vel) >= StillThreshold && Dot(vel, n) != 0.0 ==> (r as real) * Dot(vel, n) > 0.0 && -1 <= r <= 1
    ensures Dot(vel, vel) >= StillThreshold && Dot(vel, n) == 0.0 ==> r == dir
  {
    var vdotn := Dot(vel, n);
    if Dot(vel, vel) < StillThreshold then 0
    else if vdotn > 0.0 then 1
    else if vdotn < 0.0 then -1
    else dir
  }

  function Max(a: int, b: int): int {
    if a < b then b else a
  }

  function MaxReal(a: real, b: real): real {
    if a < b then b else a
  }

  // ---------------------------------------------------------------------------
  // The vehicle

  /** Which controller drives the vehicle; NoController is the null controller. */
  datatype ControllerKind = NoController | RandomController | UserController | NeuralNetController

  /** The progress fields of a vehicle at one moment. */
  datatype Progress = Progress(bestSegment: int, curSegment: int, travelDir: int, bestDistance: real, curDistance: real)

  /** Everything the model keeps of a vehicle at one moment. */
  datatype VehicleState = VehicleState(sensors: seq<Sensor>, layers: seq<int>, controller: ControllerKind,
                                       progress: Progress, alive: bool, birthTime: real)

  /** What updateTrackPerformance does to the progress `before`, giving
      `after`: nothing when no edge is eligible; otherwise the nearest edge
      and the track distance there become current, the best values are
      raised to them, and the travel direction follows the velocity along
      that edge. */
  ghost predicate TrackStepped(before: Progress, after: Progress, segs: seq<Vec3>, distances: seq<real>, vpos: Vec3,
                               vel: Vec3, norm: Vec3 -> real)
    requires |segs| <= |distances|
  {
    if !AnyEligible(segs, vpos, norm) then
      after == before
    else
      && IsNearest(segs, vpos, norm, after.curSegment)
      && after.curDistance == distances[after.curSegment] + ProjectOnEdge(segs, after.curSegment, vpos, norm).value.p
      && after.bestSegment == Max(before.bestSegment, after.curSegment)
      && after.bestDistance == MaxReal(before.bestDistance, after.curDistance)
      && after.travelDir == NextTravelDir(before.travelDir, vel, EdgeVector(segs, after.curSegment))
  }

  class Vehicle {
    var sensors: seq<Sensor>
    /** Layer sizes of the vehicle's network, input layer first; [] before
        InitNeuralNetwork. */
    var layers: seq<int>
    var controller: ControllerKind
    var bestSegment: int
    var curSegment: int
    var travelDir: int
    var bestDistance: real
    var curDistance: real
    var alive: bool
    var birthTime: real

    /** The progress invariant: a direction in {-1, 0, 1}, and the best
        segment and distance are never behind the current ones. */
    ghost predicate Valid()
      reads this
    {
      -1 <= travelDir <= 1 && curSegment <= bestSegment && curDistance <= bestDistance
    }

    /** Progress at construction and after a reset. */
    ghost predicate AtStart()
      reads this
    {
      bestSegment == 0 && curSegment == 0 && travelDir == 0 && bestDistance == 0.0 && curDistance == 0.0 && alive
    }

    /** A new vehicle with no sensors, no network and no controller. */
    constructor (birthTime: real)
      ensures Valid() && AtStart()
      ensures sensors == [] && layers == [] && controller == NoController && this.birthTime == birthTime
    {
      sensors := [];
      layers := [];
      controller := NoController;
      bestSegment, curSegment, travelDir := 0, 0, 0;
      bestDistance, curDistance := 0.0, 0.0;
      alive := true;
      this.birthTime := birthTime;
    }

    method SetController(kind: ControllerKind)
      modifies this`controller
      ensures controller == kind
    {
      controller := kind;
    }

    method Kill()
      modifies this`alive
      ensures !alive
    {
      alive := false;
    }

    /** Restores the progress of a new vehicle and restarts its life at `now`. */
    method Reset(now: real)
      modifies this`bestSegment, this`curSegment, this`travelDir, this`bestDistance, this`curDistance,
               this`alive, this`birthTime
      ensures Valid() && AtStart() && birthTime == now
    {
      bestSegment, curSegment, travelDir := 0, 0, 0;
      bestDistance, curDistance := 0.0, 0.0;
      alive := true;
      birthTime := now;
    }

    /** Appends one sensor from `start` to `end` in the chassis frame: its
        length is the distance between the two, and it starts out reporting
        that full length. */
    method AddSensor(start: Vec3, end: Vec3, pose: Transform, norm: Vec3 -> real)
      modifies this`sensors
      ensures |sensors| == |old(sensors)| + 1 && sensors[..|old(sensors)|] == old(sensors)
      ensures sensors[|old(sensors)|] == NewSensor(start, end, pose, norm)
    {
      sensors := sensors + [NewSensor(start, end, pose, norm)];
    }

    /** Builds the network: one input per sensor, the given internal layers,
        and Dof outputs. Randomizing the link weights is not modelled. */
    method InitNeuralNetwork(internalLayerSize: seq<int>)
      modifies this`layers
      ensures layers == [|sensors|] + internalLayerSize + [Dof]
    {
      layers := [|sensors|];
      for i := 0 to |internalLayerSize|
        invariant layers == [|sensors|] + internalLayerSize[..i]
      {
        assert internalLayerSize[..i + 1] == internalLayerSize[..i] + [internalLayerSize[i]];
        layers := layers + [internalLayerSize[i]];
      }
      assert internalLayerSize[..|internalLayerSize|] == internalLayerSize;
      layers := layers + [Dof];
    }

    ghost function ProgressNow(): Progress
      reads this
    {
      Progress(bestSegment, curSegment, travelDir, bestDistance, curDistance)
    }

    ghost function State(): VehicleState
      reads this
    {
      VehicleState(sensors, layers, controller, ProgressNow(), alive, birthTime)
    }

    /** updateTrackPerformance's step, from the progress `before` to the progress now. */
    ghost predicate TrackStepFrom(before: Progress, segs: seq<Vec3>, distances: seq<real>, vpos: Vec3, vel: Vec3,
                                  norm: Vec3 -> real)
      requires |segs| <= |distances|
      reads this
    {
      TrackStepped(before, ProgressNow(), segs, distances, vpos, vel, norm)
    }

    /** The progress step of one call, from the progress before it. */
    twostate predicate TrackStep(segs: seq<Vec3>, distances: seq<real>, vpos: Vec3, vel: Vec3, norm: Vec3 -> real)
      requires |segs| <= |distances|
      reads this
    {
      TrackStepFrom(old(ProgressNow()), segs, distances, vpos, vel, norm)
    }

    method UpdateTrackPerformance(segs: seq<Vec3>, distances: seq<real>, vpos: Vec3, vel: Vec3, norm: Vec3 -> real)
      requires Valid() && |segs| <= |distances|
      modifies this`bestSegment, this`curSegment, this`travelDir, this`bestDistance, this`curDistance
      ensures Valid()
      ensures TrackStep(segs, distances, vpos, vel, norm)
      ensures bestSegment >= old(bestSegment) && bestDistance >= old(bestDistance)
      ensures old(curSegment) >= 0 ==> curSegment >= 0
    {
      var nearest, trackDist := NearestSegment(segs, distances, vpos, norm);
      if nearest >= 0 {
        var n := EdgeVector(segs, nearest);
        travelDir := NextTravelDir(travelDir, vel, n);
        bestSegment := Max(bestSegment, nearest);
        bestDistance := MaxReal(bestDistance, trackDist);
        curSegment := nearest;
        curDistance := trackDist;
      }
    }

    /** One tick of Vehicle::update: cast every sensor ray from the chassis
        pose, update the track progress from the chassis position, then ask the
        controller for its physics calls. `compute` is this vehicle's network
        evaluation and `u1`, `u2` the random controller's draws. The user
        controller acts on key events only, so its tick makes no calls. */
    method Update(pose: Transform, vel: Vec3, rayTest: (Vec3, Vec3) -> Option<real>,
                  compute: seq<real> -> Option<seq<real>>, u1: real, u2: real,
                  segs: seq<Vec3>, distances: seq<real>, norm: Vec3 -> real)
      returns (commands: seq<Command>)
      requires Valid() && |segs| <= |distances| && ComputesActuation(compute)
      modifies this
      ensures Valid()
      ensures SensedAll(old(sensors), sensors, pose, rayTest)
      ensures TrackStep(segs, distances, pose.origin, vel, norm)
      ensures old(curSegment) >= 0 ==> curSegment >= 0
      ensures alive == old(alive) && birthTime == old(birthTime)
      ensures layers == old(layers) && controller == old(controller)
      ensures controller == NeuralNetController ==> commands == NeuralNetCommands(compute(SensorDistances(sensors)))
      ensures controller == RandomController ==> commands == RandomCommands(u1, u2)
      ensures controller == UserController || controller == NoController ==> commands == []
    {
      for i := 0 to |sensors|
        invariant |sensors| == |old(sensors)|
        invariant forall k :: 0 <= k < i ==> sensors[k] == Sense(old(sensors)[k], pose, rayTest)
        invariant forall k :: i <= k < |sensors| ==> sensors[k] == old(sensors)[k]
        invariant Valid() && unchanged(`bestSegment, `curSegment, `travelDir, `bestDistance, `curDistance)
        invariant unchanged(`alive, `birthTime, `layers, `controller)
      {
        sensors := sensors[i := Sense(sensors[i], pose, rayTest)];
      }

      UpdateTrackPerformance(segs, distances, pose.origin, vel, norm);

      match controller
      case NeuralNetController =>
        var input := NeuralNetInput(sensors);
        commands := NeuralNetCommands(compute(input));
      case RandomController =>
        commands := RandomCommands(u1, u2);
      case UserController =>
        commands := [];
      case NoController =>
        commands := [];
    }
  }

  /** The tracker on a track with the Euclidean norm: a vehicle halfway along
      edge i, with no earlier edge right on that point, is placed on edge i at
      the cumulative distance of the edge plus half its length. */
  lemma MidpointTrackStep(v: Vehicle, before: Progress, segs: seq<Vec3>, distances: seq<real>, vel: Vec3,
                          norm: Vec3 -> real, i: int)
    requires 0 <= i < |segs| <= |distances| && EuclideanNorm(norm) && norm(EdgeVector(segs, i)) != 0.0
    requires forall j :: 0 <= j < i && Eligible(segs, j, EdgeMidpoint(segs, i), norm) ==>
      SegDist(segs, j, EdgeMidpoint(segs, i), norm) > 0.0
    requires v.TrackStepFrom(before, segs, distances, EdgeMidpoint(segs, i), vel, norm)
    ensures v.curSegment == i && v.curDistance == distances[i] + norm(EdgeVector(segs, i)) / 2.0
  {
    var mid := EdgeMidpoint(segs, i);
    MidpointIsNearest(segs, i, norm);
    assert AnyEligible(segs, mid, norm);
    NearestIsUnique(segs, mid, norm, v.curSegment, i);
    MidpointProjection(segs, i, norm);
  }
}
