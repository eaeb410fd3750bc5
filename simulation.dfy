/** The generation bookkeeping of Simulation.cpp: the track waypoints and
    their cumulative arclength, the sensor layout every vehicle gets, the
    per-tick loop that kills stalled vehicles and counts survivors, the choice
    of the best vehicle, and the chromosome bookkeeping around each evolution
    step. Bullet, the heightfield, the evolution operator and the gene
    transfer are outside the model. */
module Simulations {

  import opened Wrappers
  import opened Geometry
  import opened Controllers
  import opened Vehicles

  // ---------------------------------------------------------------------------
  // Sequence helpers

  /** std::vector::resize: keeps the first n elements, pads with `fill`. */
  function Resize<T>(s: seq<T>, n: nat, fill: T): (r: seq<T>)
    ensures |r| == n
    ensures forall k :: 0 <= k < n ==> r[k] == if k < |s| then s[k] else fill
  {
    if n <= |s| then s[..n] else s + seq(n - |s|, _ => fill)
  }

  function Reversed<T>(s: seq<T>): (r: seq<T>)
    ensures multiset(r) == multiset(s)
  {
    if s == [] then []
    else
      assert s == [s[0]] + s[1..];
      Reversed(s[1..]) + [s[0]]
  }

  lemma {:induction false} ReversedAt<T>(s: seq<T>, k: nat)
    requires k < |s|
    ensures |Reversed(s)| == |s| && Reversed(s)[k] == s[|s| - 1 - k]
  {
    ReversedLength(s);
    if k < |s| - 1 {
      ReversedAt(s[1..], k);
    }
  }

  lemma {:induction false} ReversedLength<T>(s: seq<T>)
    ensures |Reversed(s)| == |s|
  {
    if s != [] {
      ReversedLength(s[1..]);
    }
  }

  /** Reversing a concatenation reverses the order of the parts. */
  lemma {:induction false} ReversedConcat<T>(a: seq<T>, b: seq<T>)
    ensures Reversed(a + b) == Reversed(b) + Reversed(a)
  {
    if a == [] {
      assert a + b == b;
    } else {
      assert (a + b)[1..] == a[1..] + b;
      ReversedConcat(a[1..], b);
    }
  }

  // ---------------------------------------------------------------------------
  // Track waypoints (initTrack)

  /** A waypoint read from the file, scaled into the heightfield's frame:
      x and z by the track scale and the heightfield's width and height, y by
      the track scale and shifted to the ground level. */
  function ScaledWaypoint(v: Vec3, scale: real, w: real, h: real, groundLevel: real): Vec3 {
    Vec3(v.x * scale * w, v.y * scale + groundLevel, v.z * scale * h)
  }

  /** The waypoints of a file in file order: each line is Some(v) when it
      reads as `v x y z`, and None lines are skipped. */
  function ParsedWaypoints(lines: seq<Option<Vec3>>, scale: real, w: real, h: real, groundLevel: real): (r: seq<Vec3>)
    ensures |r| <= |lines|
    ensures (forall k :: 0 <= k < |lines| ==> lines[k].Some?) ==> |r| == |lines|
  {
    if lines == [] then []
    else
      var rest := ParsedWaypoints(lines[..|lines| - 1], scale, w, h, groundLevel);
      match lines[|lines| - 1]
      case None => rest
      case Some(v) => rest + [ScaledWaypoint(v, scale, w, h, groundLevel)]
  }

  /** Parsing a file is parsing its parts one after the other. */
  lemma {:induction false} ParsedConcat(a: seq<Option<Vec3>>, b: seq<Option<Vec3>>, scale: real, w: real, h: real, groundLevel: real)
    ensures ParsedWaypoints(a + b, scale, w, h, groundLevel)
         == ParsedWaypoints(a, scale, w, h, groundLevel) + ParsedWaypoints(b, scale, w, h, groundLevel)
    decreases |b|
  {
    if b == [] {
      assert a + b == a;
    } else {
      assert (a + b)[..|a + b| - 1] == a + b[..|b| - 1];
      ParsedConcat(a, b[..|b| - 1], scale, w, h, groundLevel);
    }
  }

  /** A line that does not read as a waypoint contributes nothing. */
  lemma ParsedSkipsNonMatching(a: seq<Option<Vec3>>, b: seq<Option<Vec3>>, scale: real, w: real, h: real, groundLevel: real)
    ensures ParsedWaypoints(a + [None] + b, scale, w, h, groundLevel) == ParsedWaypoints(a + b, scale, w, h, groundLevel)
  {
    ParsedConcat(a + [None], b, scale, w, h, groundLevel);
    ParsedConcat(a, [None], scale, w, h, groundLevel);
    ParsedConcat(a, b, scale, w, h, groundLevel);
  }

  /** The track's waypoint list for a file. */
  function Waypoints(lines: seq<Option<Vec3>>, scale: real, w: real, h: real, groundLevel: real): seq<Vec3> {
    Reversed(ParsedWaypoints(lines, scale, w, h, groundLevel))
  }

  /** The track runs backwards through the file: the waypoints of a later part
      of the file come before those of an earlier part. */
  lemma WaypointsReverseFileOrder(a: seq<Option<Vec3>>, b: seq<Option<Vec3>>, scale: real, w: real, h: real, groundLevel: real)
    ensures Waypoints(a + b, scale, w, h, groundLevel)
         == Waypoints(b, scale, w, h, groundLevel) + Waypoints(a, scale, w, h, groundLevel)
  {
    ParsedConcat(a, b, scale, w, h, groundLevel);
    ReversedConcat(ParsedWaypoints(a, scale, w, h, groundLevel), ParsedWaypoints(b, scale, w, h, groundLevel));
  }

  // ---------------------------------------------------------------------------
  // Cumulative arclength

  /** The length of the open polyline from waypoint 0 to waypoint i. */
  function ArcLength(segs: seq<Vec3>, i: nat, norm: Vec3 -> real): real
    requires i < |segs|
  {
    if i == 0 then 0.0 else ArcLength(segs, i - 1, norm) + norm(Sub(segs[i], segs[i - 1]))
  }

  /** The shape of the cumulative distance table: one entry per waypoint,
      starting at 0, each adding the length of the step from the previous
      waypoint. */
  ghost predicate IsCumulative(segs: seq<Vec3>, dist: seq<real>, norm: Vec3 -> real) {
    && |dist| == |segs|
    && (|dist| > 0 ==> dist[0] == 0.0)
    && forall i :: 1 <= i < |dist| ==> dist[i] == dist[i - 1] + norm(Sub(segs[i], segs[i - 1]))
  }

  /** The accumulation loop of initTrack over the resized table: entry 0 keeps
      whatever resize left there, every later entry is the running sum. */
  method FillSegmentDistances(segs: seq<Vec3>, resized: seq<real>, norm: Vec3 -> real) returns (dist: seq<real>)
    requires |resized| == |segs|
    ensures |dist| == |segs|
    ensures |segs| > 0 ==> dist[0] == resized[0]
    ensures forall i :: 1 <= i < |segs| ==> dist[i] == ArcLength(segs, i, norm)
  {
    dist := resized;
    if |segs| == 0 {
      return;
    }
    var accum := 0.0;
    var i := 1;
    while i < |segs|
      invariant 1 <= i <= |segs| && |dist| == |segs|
      invariant dist[0] == resized[0] && accum == ArcLength(segs, i - 1, norm)
      invariant forall k :: 1 <= k < i ==> dist[k] == ArcLength(segs, k, norm)
    {
      accum := accum + norm(Sub(segs[i], segs[i - 1]));
      assert accum == ArcLength(segs, i, norm);
      dist := dist[i := accum];
      i := i + 1;
    }
  }

  /** A table filled from an empty vector has the cumulative shape. */
  lemma FilledIsCumulative(segs: seq<Vec3>, dist: seq<real>, norm: Vec3 -> real)
    requires |dist| == |segs| && (|segs| > 0 ==> dist[0] == 0.0)
    requires forall i :: 1 <= i < |segs| ==> dist[i] == ArcLength(segs, i, norm)
    ensures IsCumulative(segs, dist, norm)
  {
    forall i | 1 <= i < |dist|
      ensures dist[i] == dist[i - 1] + norm(Sub(segs[i], segs[i - 1]))
    {
      assert ArcLength(segs, i, norm) == ArcLength(segs, i - 1, norm) + norm(Sub(segs[i], segs[i - 1]));
    }
  }

  /** The cumulative distance never decreases along the track. */
  lemma CumulativeNonDecreasing(segs: seq<Vec3>, dist: seq<real>, norm: Vec3 -> real, i: int, j: int)
    requires IsCumulative(segs, dist, norm) && NonNegativeNorm(norm)
    requires 0 <= i <= j < |dist|
    ensures dist[i] <= dist[j]
    decreases j - i
  {
    if i < j {
      CumulativeNonDecreasing(segs, dist, norm, i, j - 1);
      assert norm(Sub(segs[j], segs[j - 1])) >= 0.0;
    }
  }

  // ---------------------------------------------------------------------------
  // Sensor layout (initSensors)

  /** Start and end points of the three sensor rays, chassis frame, before scaling. */
  const SensorConfig: seq<real> := [
    0.0209, 1.5000, 1.0072,
    0.0209, 1.5000, 5.0666,
    -0.5070, 1.5000, 0.9990,
    -3.1516, 1.5000, 4.2972,
    0.4965, 1.5000, 1.0095,
    3.3649, 1.5000, 4.4035
  ]

  const NumSensors: nat := 3
  const SensorScale: real := 5.0

  /** Point k of the configuration table (start of ray i is point 2i, its end 2i+1). */
  function ConfigPoint(k: nat): Vec3
    requires k < 2 * NumSensors
  {
    Vec3(SensorConfig[3 * k], SensorConfig[3 * k + 1], SensorConfig[3 * k + 2])
  }

  /** Ray i starts at its configured start and is 5 times as long as configured. */
  function SensorStart(i: nat): Vec3
    requires i < NumSensors
  {
    ConfigPoint(2 * i)
  }

  function SensorEnd(i: nat): Vec3
    requires i < NumSensors
  {
    Add(ConfigPoint(2 * i), Scale(Sub(ConfigPoint(2 * i + 1), ConfigPoint(2 * i)), SensorScale))
  }

  // ---------------------------------------------------------------------------
  // Population views

  ghost function CountAlive(vs: seq<Vehicle>): nat
    reads set v | v in vs
  {
    if vs == [] then 0 else CountAlive(vs[..|vs| - 1]) + (if vs[|vs| - 1].alive then 1 else 0)
  }

  /** No survivor counted exactly when no vehicle is alive. */
  lemma {:induction false} CountAliveZero(vs: seq<Vehicle>)
    ensures CountAlive(vs) == 0 <==> forall k :: 0 <= k < |vs| ==> !vs[k].alive
  {
    if vs != [] {
      var init := vs[..|vs| - 1];
      CountAliveZero(init);
      assert forall k :: 0 <= k < |init| ==> init[k] == vs[k];
    }
  }

  function CountTrue(flags: seq<bool>): nat {
    if flags == [] then 0 else CountTrue(flags[..|flags| - 1]) + (if flags[|flags| - 1] then 1 else 0)
  }

  /** Counting alive vehicles is counting a list of their alive flags. */
  lemma {:induction false} CountAliveFlags(vs: seq<Vehicle>, flags: seq<bool>)
    requires |flags| == |vs| && forall k :: 0 <= k < |vs| ==> flags[k] == vs[k].alive
    ensures CountAlive(vs) == CountTrue(flags)
  {
    if vs != [] {
      CountAliveFlags(vs[..|vs| - 1], flags[..|flags| - 1]);
    }
  }

  ghost function CurDistances(vs: seq<Vehicle>): seq<real>
    reads set v | v in vs
  {
    seq(|vs|, i reads set v | v in vs requires 0 <= i < |vs| => vs[i].curDistance)
  }

  function Sum(ds: seq<real>): real {
    if ds == [] then 0.0 else Sum(ds[..|ds| - 1]) + ds[|ds| - 1]
  }

  /** The mean of a list of distances; None for an empty list, where the
      floating-point division 0/0 gives NaN. */
  function Mean(ds: seq<real>): Option<real> {
    if |ds| == 0 then None else Some(Sum(ds) / (|ds| as real))
  }

  lemma {:induction false} SumBounded(ds: seq<real>, lo: real, hi: real)
    requires forall k :: 0 <= k < |ds| ==> lo <= ds[k] <= hi
    ensures (|ds| as real) * lo <= Sum(ds) <= (|ds| as real) * hi
  {
    if ds != [] {
      SumBounded(ds[..|ds| - 1], lo, hi);
    }
  }

  /** The average lies between the smallest and the largest distance. */
  lemma MeanBounded(ds: seq<real>, lo: real, hi: real)
    requires |ds| > 0
    requires forall k :: 0 <= k < |ds| ==> lo <= ds[k] <= hi
    ensures Mean(ds).Some? && lo <= Mean(ds).value <= hi
  {
    SumBounded(ds, lo, hi);
    var n := |ds| as real;
    var m := Sum(ds) / n;
    assert m * n == Sum(ds);
    assert lo * n <= m * n <= hi * n;
  }

  /** What the physics and the vehicle's collaborators provide to one vehicle
      in one tick: chassis pose and velocity, what its network returns for an
      input, two random draws for the random controller, and the clock
      reading taken when its stall timeout is checked. */
  datatype TickInput = TickInput(pose: Transform, velocity: Vec3, compute: seq<real> -> Option<seq<real>>,
                                 u1: real, u2: real, now: real)

  /** Seconds a vehicle may stay below MinProgressSegment before it is killed. */
  const StallTimeout: real := 20.0
  const MinProgressSegment: int := 2

  /** The two kill rules of the vehicle loop, read after the vehicle's own
      update: it is on a non-negative segment, and it has not spent more than
      StallTimeout seconds below MinProgressSegment. */
  ghost predicate PassesKillRules(s: VehicleState, now: real) {
    s.progress.curSegment >= 0 && !(now - s.birthTime > StallTimeout && s.progress.curSegment < MinProgressSegment)
  }

  /** What one tick does to one vehicle, from state `before` to state `after`:
      a dead vehicle is left alone; an alive one recasts its sensors, takes
      its progress step, keeps its birth time, network and controller, and is
      alive afterwards exactly when it passes both kill rules. Nobody is
      revived. */
  ghost predicate Ticked(before: VehicleState, after: VehicleState, input: TickInput, rayTest: (Vec3, Vec3) -> Option<real>,
                         segs: seq<Vec3>, distances: seq<real>, norm: Vec3 -> real)
    requires |segs| <= |distances|
  {
    && after.alive == (before.alive && PassesKillRules(after, input.now))
    && (!before.alive ==> after == before)
    && (before.alive ==>
          && TrackStepped(before.progress, after.progress, segs, distances, input.pose.origin, input.velocity, norm)
          && after.birthTime == before.birthTime && after.layers == before.layers && after.controller == before.controller
          && SensedAll(before.sensors, after.sensors, input.pose, rayTest))
  }

  /** Vehicle `v` has taken its tick from state `before`. */
  ghost predicate TickedFrom(before: VehicleState, v: Vehicle, input: TickInput, rayTest: (Vec3, Vec3) -> Option<real>,
                             segs: seq<Vec3>, distances: seq<real>, norm: Vec3 -> real)
    reads v
  {
    && v.Valid()
    && |segs| <= |distances|
    && Ticked(before, v.State(), input, rayTest, segs, distances, norm)
  }

  /** The current track distance of every state, in order. */
  ghost function StateDistances(ss: seq<VehicleState>): seq<real> {
    seq(|ss|, i requires 0 <= i < |ss| => ss[i].progress.curDistance)
  }

  ghost function States(vs: seq<Vehicle>): seq<VehicleState>
    reads set v | v in vs
  {
    seq(|vs|, i reads set v | v in vs requires 0 <= i < |vs| => vs[i].State())
  }

  /** The body of the vehicle loop in Simulation::update for one vehicle. */
  method TickVehicle(v: Vehicle, input: TickInput, rayTest: (Vec3, Vec3) -> Option<real>,
                     segs: seq<Vec3>, distances: seq<real>, norm: Vec3 -> real)
    requires v.Valid() && |segs| <= |distances| && ComputesActuation(input.compute)
    modifies v
    ensures TickedFrom(old(v.State()), v, input, rayTest, segs, distances, norm)
  {
    if v.alive {
      var _ := v.Update(input.pose, input.velocity, rayTest, input.compute, input.u1, input.u2, segs, distances, norm);
      // kill vehicles in reverse direction
      if v.curSegment < 0 {
        v.Kill();
      }
      // kill vehicles that make no progress
      if input.now - v.birthTime > StallTimeout && v.curSegment < MinProgressSegment {
        v.Kill();
      }
    }
  }

  /** A vehicle as the simulation first builds it: at the start of the track,
      born at `now`, driven by its network of 3 sensor inputs, internal layers
      of 4 and 3 nodes and 2 outputs, with the three configured sensors placed
      at the spawn pose. */
  ghost predicate StartsNetworked(v: Vehicle, spawn: Transform, now: real, norm: Vec3 -> real)
    reads v
  {
    && v.Valid() && v.AtStart() && v.birthTime == now
    && v.controller == NeuralNetController
    && v.layers == [NumSensors, 4, 3, Dof]
    && |v.sensors| == NumSensors
    && forall k :: 0 <= k < NumSensors ==> v.sensors[k] == NewSensor(SensorStart(k), SensorEnd(k), spawn, norm)
  }

  /** One chromosome: the gene vector of one vehicle. The genes are read from
      and written to the vehicle's network by code outside the model, so only
      the owner is kept. */
  class Chromosome {
    const vehicle: Vehicle

    constructor (vehicle: Vehicle)
      ensures this.vehicle == vehicle
    {
      this.vehicle := vehicle;
    }
  }

  /** One new chromosome per vehicle, in vehicle order. */
  method NewChromosomes(vs: seq<Vehicle>) returns (cs: seq<Chromosome>)
    ensures |cs| == |vs|
    ensures forall k :: 0 <= k < |vs| ==> cs[k].vehicle == vs[k] && fresh(cs[k])
  {
    cs := [];
    for i := 0 to |vs|
      invariant |cs| == i
      invariant forall k :: 0 <= k < i ==> cs[k].vehicle == vs[k] && fresh(cs[k])
    {
      var c := new Chromosome(vs[i]);
      cs := cs + [c];
    }
  }

  ghost function Owners(cs: seq<Chromosome>): seq<Vehicle> {
    seq(|cs|, i requires 0 <= i < |cs| => cs[i].vehicle)
  }

  /** The averaging loop of applyEvolution: the mean current track distance
      of the chromosomes' vehicles, None when there are none. */
  method AverageDistance(cs: seq<Chromosome>) returns (avg: Option<real>)
    ensures avg == Mean(CurDistances(Owners(cs)))
  {
    ghost var ds := CurDistances(Owners(cs));
    var total := 0.0;
    for i := 0 to |cs|
      invariant total == Sum(ds[..i])
    {
      assert ds[..i + 1][..i] == ds[..i];
      total := total + cs[i].vehicle.curDistance;
    }
    assert ds[..|cs|] == ds;
    avg := if |cs| == 0 then None else Some(total / (|cs| as real));
  }

  class Simulation {
    var vehicles: seq<Vehicle>
    var trackSegments: seq<Vec3>
    var trackSegmentDist: seq<real>
    var sensorConfigStart: seq<Vec3>
    var sensorConfigEnd: seq<Vec3>
    var chromosomes: seq<Chromosome>
    var chromosomesNext: seq<Chromosome>
    /** The population's average current track distance; None before the
        first evolution step, and for an empty population. */
    var avgDrivenDistance: Option<real>

    /** Distinct vehicles, each with a valid progress state; a distance entry
        for every waypoint; two chromosome lists that are both empty or both
        hold one chromosome per vehicle, in vehicle order, and that share no
        chromosome object. */
    ghost predicate Valid()
      reads this, set v | v in vehicles
    {
      Shape() && forall i :: 0 <= i < |vehicles| ==> vehicles[i].Valid()
    }

    /** The part of Valid that only concerns the simulation's own fields. */
    ghost predicate Shape()
      reads this
    {
      && (forall i, j :: 0 <= i < j < |vehicles| ==> vehicles[i] != vehicles[j])
      && |trackSegments| <= |trackSegmentDist|
      && |sensorConfigStart| == |sensorConfigEnd|
      && |chromosomes| == |chromosomesNext|
      && (chromosomes == [] || |chromosomes| == |vehicles|)
      && (forall i :: 0 <= i < |chromosomes| ==>
            chromosomes[i].vehicle == vehicles[i] && chromosomesNext[i].vehicle == vehicles[i])
      // the next generation is written into objects of its own, never over its parents
      && (forall i :: 0 <= i < |chromosomes| ==> chromosomes[i] !in chromosomesNext)
    }

    /** The simulation with `numCars` network-driven vehicles, each with the
        three configured sensors and internal layers of 4 and 3 nodes, and the
        track read from `trackFile` (None when it cannot be opened). */
    constructor (numCars: nat, spawn: Transform, now: real, trackFile: Option<seq<Option<Vec3>>>,
                 trackScale: real, w: real, h: real, groundLevel: real, norm: Vec3 -> real)
      ensures Valid()
      ensures |vehicles| == numCars
      ensures forall i :: 0 <= i < numCars ==> fresh(vehicles[i]) && StartsNetworked(vehicles[i], spawn, now, norm)
      ensures chromosomes == [] && chromosomesNext == [] && avgDrivenDistance == None
      ensures trackFile.None? ==> trackSegments == [] && trackSegmentDist == []
      ensures trackFile.Some? ==> trackSegments == Waypoints(trackFile.value, trackScale, w, h, groundLevel)
      ensures IsCumulative(trackSegments, trackSegmentDist, norm)
    {
      vehicles := [];
      trackSegments, trackSegmentDist := [], [];
      sensorConfigStart, sensorConfigEnd := [], [];
      chromosomes, chromosomesNext := [], [];
      avgDrivenDistance := None;
      new;
      for i := 0 to numCars
        invariant |vehicles| == i
        invariant trackSegments == [] && trackSegmentDist == []
        invariant chromosomes == [] && chromosomesNext == [] && avgDrivenDistance == None
        invariant i == 0 ==> sensorConfigStart == [] && sensorConfigEnd == []
        invariant i > 0 ==> IsSensorLayout()
        invariant forall a, b :: 0 <= a < b < i ==> vehicles[a] != vehicles[b]
        invariant forall a :: 0 <= a < i ==> fresh(vehicles[a]) && StartsNetworked(vehicles[a], spawn, now, norm)
      {
        var v := NewNetworkedVehicle(spawn, now, norm);
        vehicles := vehicles + [v];
      }
      InitTrack(trackFile, trackScale, w, h, groundLevel, norm);
    }

    /** One vehicle of the initial population: created, given a network with
        internal layers of 4 and 3 nodes, and driven by that network. */
    method NewNetworkedVehicle(spawn: Transform, now: real, norm: Vec3 -> real) returns (v: Vehicle)
      requires (sensorConfigStart == [] && sensorConfigEnd == []) || IsSensorLayout()
      modifies this`sensorConfigStart, this`sensorConfigEnd
      ensures IsSensorLayout()
      ensures fresh(v) && StartsNetworked(v, spawn, now, norm)
    {
      v := CreateVehicle(spawn, now, norm);
      v.InitNeuralNetwork([4, 3]);
      v.SetController(NeuralNetController);
    }

    /** The sensor layout initSensors sets up. */
    ghost predicate IsSensorLayout()
      reads this
    {
      && |sensorConfigStart| == NumSensors && |sensorConfigEnd| == NumSensors
      && forall i :: 0 <= i < NumSensors ==> sensorConfigStart[i] == SensorStart(i) && sensorConfigEnd[i] == SensorEnd(i)
    }

    method InitSensors()
      modifies this`sensorConfigStart, this`sensorConfigEnd
      ensures IsSensorLayout()
    {
      sensorConfigStart := Resize(sensorConfigStart, NumSensors, Zero);
      sensorConfigEnd := Resize(sensorConfigEnd, NumSensors, Zero);
      for i := 0 to NumSensors
        invariant |sensorConfigStart| == NumSensors && |sensorConfigEnd| == NumSensors
        invariant forall k :: 0 <= k < i ==> sensorConfigStart[k] == SensorStart(k) && sensorConfigEnd[k] == SensorEnd(k)
      {
        sensorConfigStart := sensorConfigStart[i := ConfigPoint(2 * i)];
        sensorConfigEnd := sensorConfigEnd[i := ConfigPoint(2 * i + 1)];
        sensorConfigEnd := sensorConfigEnd[i := Add(sensorConfigStart[i], Scale(Sub(sensorConfigEnd[i], sensorConfigStart[i]), SensorScale))];
      }
    }

    /** A new vehicle, with the physics parts left out: one sensor per
        configured ray, the layout set up first if it is still empty. */
    method CreateVehicle(spawn: Transform, now: real, norm: Vec3 -> real) returns (v: Vehicle)
      requires |sensorConfigStart| == |sensorConfigEnd|
      modifies this`sensorConfigStart, this`sensorConfigEnd
      ensures old(sensorConfigStart) == [] ==> IsSensorLayout()
      ensures old(sensorConfigStart) != [] ==> unchanged(this`sensorConfigStart, this`sensorConfigEnd)
      ensures |sensorConfigStart| == |sensorConfigEnd|
      ensures fresh(v) && v.Valid() && v.AtStart() && v.birthTime == now
      ensures v.layers == [] && v.controller == NoController
      ensures |v.sensors| == |sensorConfigStart|
      ensures forall k :: 0 <= k < |v.sensors| ==>
        v.sensors[k] == NewSensor(sensorConfigStart[k], sensorConfigEnd[k], spawn, norm)
    {
      v := new Vehicle(now);
      if sensorConfigStart == [] {
        InitSensors();
      }
      ghost var starts, ends := sensorConfigStart, sensorConfigEnd;
      for i := 0 to |sensorConfigStart|
        invariant sensorConfigStart == starts && sensorConfigEnd == ends
        invariant |v.sensors| == i
        invariant forall k :: 0 <= k < i ==> v.sensors[k] == NewSensor(sensorConfigStart[k], sensorConfigEnd[k], spawn, norm)
        invariant v.Valid() && v.AtStart() && v.birthTime == now && v.layers == [] && v.controller == NoController
      {
        v.AddSensor(sensorConfigStart[i], sensorConfigEnd[i], spawn, norm);
      }
    }

    /** Reads the waypoint file (None: it could not be opened, the waypoints
        are cleared and the distance table is left as it was), reverses the
        waypoints and fills the cumulative distance table. */
    method InitTrack(trackFile: Option<seq<Option<Vec3>>>, scale: real, w: real, h: real, groundLevel: real,
                     norm: Vec3 -> real)
      modifies this`trackSegments, this`trackSegmentDist
      ensures trackFile.None? ==> trackSegments == [] && trackSegmentDist == old(trackSegmentDist)
      ensures trackFile.Some? ==>
        && trackSegments == Waypoints(trackFile.value, scale, w, h, groundLevel)
        && |trackSegmentDist| == |trackSegments|
        && (|trackSegments| > 0 ==>
              trackSegmentDist[0] == if old(trackSegmentDist) == [] then 0.0 else old(trackSegmentDist)[0])
        && forall i :: 1 <= i < |trackSegments| ==> trackSegmentDist[i] == ArcLength(trackSegments, i, norm)
      ensures trackFile.Some? && old(trackSegmentDist) == [] ==> IsCumulative(trackSegments, trackSegmentDist, norm)
    {
      trackSegments := [];
      if trackFile.Some? {
        var lines := trackFile.value;
        for k := 0 to |lines|
          invariant trackSegments == ParsedWaypoints(lines[..k], scale, w, h, groundLevel)
          invariant trackSegmentDist == old(trackSegmentDist)
        {
          assert lines[..k + 1][..k] == lines[..k];
          if lines[k].Some? {
            trackSegments := trackSegments + [ScaledWaypoint(lines[k].value, scale, w, h, groundLevel)];
          }
        }
        assert lines[..|lines|] == lines;
        trackSegments := Reversed(trackSegments);
        ReversedLength(ParsedWaypoints(lines, scale, w, h, groundLevel));
        var resized := Resize(trackSegmentDist, |trackSegments|, 0.0);
        trackSegmentDist := FillSegmentDistances(trackSegments, resized, norm);
        if old(trackSegmentDist) == [] {
          FilledIsCumulative(trackSegments, trackSegmentDist, norm);
        }
      }
    }

    /** The alive vehicle with the largest current track distance above -1,
        the first one on ties; null when there is none. */
    method BestVehicle() returns (best: Vehicle?)
      ensures best == null <==>
        forall i :: 0 <= i < |vehicles| ==> !(vehicles[i].alive && vehicles[i].curDistance > -1.0)
      ensures best != null ==> exists k :: 0 <= k < |vehicles| && vehicles[k] == best && IsBestAt(k)
    {
      var fitness := -1.0;
      best := null;
      ghost var at := -1;
      for i := 0 to |vehicles|
        invariant best == null <==> at < 0
        invariant best == null ==> fitness == -1.0
        invariant -1 <= at < i
        invariant best == null <==>
          forall j :: 0 <= j < i ==> !(vehicles[j].alive && vehicles[j].curDistance > -1.0)
        invariant best != null ==>
          && vehicles[at] == best && best.alive && fitness == best.curDistance && fitness > -1.0
          && (forall j :: 0 <= j < at && vehicles[j].alive ==> vehicles[j].curDistance < fitness)
          && (forall j :: at < j < i && vehicles[j].alive ==> vehicles[j].curDistance <= fitness)
      {
        var d := vehicles[i].curDistance;
        if d > fitness && vehicles[i].alive {
          fitness := d;
          best := vehicles[i];
          at := i;
        }
      }
    }

    /** Vehicle k is alive, ahead of every alive vehicle, and strictly ahead of
        every alive vehicle before it. */
    ghost predicate IsBestAt(k: int)
      reads this, set v | v in vehicles
    {
      && 0 <= k < |vehicles| && vehicles[k].alive && vehicles[k].curDistance > -1.0
      && (forall j :: 0 <= j < |vehicles| && vehicles[j].alive ==> vehicles[j].curDistance <= vehicles[k].curDistance)
      && (forall j :: 0 <= j < k && vehicles[j].alive ==> vehicles[j].curDistance < vehicles[k].curDistance)
    }

    /** At most one index is the best: ties go to the first. */
    lemma BestAtUnique(k1: int, k2: int)
      requires IsBestAt(k1) && IsBestAt(k2)
      ensures k1 == k2
    {
    }

    /** The vehicle loop of Simulation::update: every alive vehicle runs its
        tick and is killed when it is off the track or has stalled; the result
        counts the vehicles still alive. Dead vehicles are left alone. */
    method UpdateVehicles(inputs: seq<TickInput>, rayTest: (Vec3, Vec3) -> Option<real>, norm: Vec3 -> real)
      returns (numAlive: nat, ghost ticked: seq<VehicleState>)
      requires Valid() && |inputs| == |vehicles|
      requires forall i :: 0 <= i < |inputs| ==> ComputesActuation(inputs[i].compute)
      modifies set v | v in vehicles
      ensures Valid()
      ensures numAlive == CountAlive(vehicles)
      ensures ticked == States(vehicles) && |ticked| == |vehicles|
      ensures forall i :: 0 <= i < |vehicles| ==>
        Ticked(old(vehicles[i].State()), ticked[i], inputs[i], rayTest, trackSegments, trackSegmentDist, norm)
      ensures numAlive == 0 <==> forall i :: 0 <= i < |ticked| ==> !ticked[i].alive
    {
      numAlive := 0;
      ghost var flags: seq<bool> := [];
      var n := |vehicles|;
      ghost var before := States(vehicles);
      assert forall k :: 0 <= k < n ==> before[k] == old(vehicles[k].State());
      for i := 0 to n
        invariant |flags| == i && numAlive == CountTrue(flags)
        // vehicles before i have had their tick, the others are as they were
        invariant forall k :: 0 <= k < n ==>
          if k < i then
            flags[k] == vehicles[k].alive && TickedFrom(before[k], vehicles[k], inputs[k], rayTest, trackSegments, trackSegmentDist, norm)
          else
            vehicles[k].Valid() && vehicles[k].State() == before[k]
      {
        TickVehicle(vehicles[i], inputs[i], rayTest, trackSegments, trackSegmentDist, norm);
        assert (flags + [vehicles[i].alive])[..i] == flags;
        flags := flags + [vehicles[i].alive];
        if vehicles[i].alive {
          numAlive := numAlive + 1;
        }
      }
      CountAliveFlags(vehicles, flags);
      CountAliveZero(vehicles);
      ticked := States(vehicles);
    }

    /** The chromosome bookkeeping of applyEvolution: both chromosome lists
        are allocated on first use, one chromosome per vehicle; the average
        current track distance is recomputed; the lists are swapped. Reading
        genes, computing the new population and writing genes back are outside
        the model. */
    method ApplyEvolution()
      requires Valid()
      modifies this`chromosomes, this`chromosomesNext, this`avgDrivenDistance
      ensures Valid()
      ensures |chromosomes| == |vehicles| && |chromosomesNext| == |vehicles|
      ensures old(chromosomes) != [] ==> chromosomes == old(chromosomesNext) && chromosomesNext == old(chromosomes)
      ensures old(chromosomes) == [] ==> forall i :: 0 <= i < |vehicles| ==> fresh(chromosomes[i]) && fresh(chromosomesNext[i])
      ensures avgDrivenDistance == Mean(CurDistances(vehicles))
    {
      if chromosomes == [] {
        chromosomes := NewChromosomes(vehicles);
        chromosomesNext := NewChromosomes(vehicles);
      }
      assert Owners(chromosomes) == vehicles;
      avgDrivenDistance := AverageDistance(chromosomes);
      chromosomes, chromosomesNext := chromosomesNext, chromosomes;
    }

    /** Every vehicle restarts with the progress of a new vehicle; vehicle i
        is born at `now[i]`, the clock reading its own reset takes. Replacing
        the physics vehicle is outside the model. */
    method ResetVehicles(now: seq<real>)
      requires Valid() && |now| == |vehicles|
      modifies set v | v in vehicles
      ensures Valid()
      ensures forall i :: 0 <= i < |vehicles| ==> vehicles[i].AtStart() && vehicles[i].birthTime == now[i]
      ensures forall i :: 0 <= i < |vehicles| ==>
        vehicles[i].sensors == old(vehicles[i].sensors) && vehicles[i].layers == old(vehicles[i].layers)
        && vehicles[i].controller == old(vehicles[i].controller)
    {
      for i := 0 to |vehicles|
        invariant Valid()
        invariant forall k :: 0 <= k < i ==> vehicles[k].AtStart() && vehicles[k].birthTime == now[k]
        invariant forall k :: 0 <= k < |vehicles| ==>
          vehicles[k].sensors == old(vehicles[k].sensors) && vehicles[k].layers == old(vehicles[k].layers)
          && vehicles[k].controller == old(vehicles[k].controller)
      {
        vehicles[i].Reset(now[i]);
      }
    }

    /** The generation change of Simulation::update: an evolution step that
        rates the vehicles as they are, then a reset of every vehicle, vehicle
        i at clock reading `resetTimes[i]`. */
    method Regenerate(resetTimes: seq<real>)
      requires Valid() && |resetTimes| == |vehicles|
      modifies this`chromosomes, this`chromosomesNext, this`avgDrivenDistance, set v | v in vehicles
      ensures Valid()
      ensures |chromosomes| == |vehicles|
      ensures old(chromosomes) != [] ==> chromosomes == old(chromosomesNext) && chromosomesNext == old(chromosomes)
      ensures avgDrivenDistance == Mean(StateDistances(old(States(vehicles))))
      ensures forall i :: 0 <= i < |vehicles| ==> vehicles[i].AtStart() && vehicles[i].birthTime == resetTimes[i]
      ensures forall i :: 0 <= i < |vehicles| ==>
        vehicles[i].sensors == old(vehicles[i].sensors) && vehicles[i].layers == old(vehicles[i].layers)
        && vehicles[i].controller == old(vehicles[i].controller)
    {
      ghost var rated := States(vehicles);
      ApplyEvolution();
      assert CurDistances(vehicles) == StateDistances(rated);
      ResetVehicles(resetTimes);
    }

    /** One tick of Simulation::update after the physics step: the vehicle
        loop, then, when no vehicle survived it, an evolution step and a reset
        of the whole population, vehicle i at clock reading `resetTimes[i]`.
        `ticked` is every vehicle's state right after the vehicle loop: the
        state evolution rates, and the state left in place when some vehicle
        survived. */
    method Update(inputs: seq<TickInput>, rayTest: (Vec3, Vec3) -> Option<real>, norm: Vec3 -> real,
                  resetTimes: seq<real>)
      returns (numAlive: nat, ghost ticked: seq<VehicleState>)
      requires Valid() && |inputs| == |vehicles| && |resetTimes| == |vehicles|
      requires forall i :: 0 <= i < |inputs| ==> ComputesActuation(inputs[i].compute)
      modifies this`chromosomes, this`chromosomesNext, this`avgDrivenDistance, set v | v in vehicles
      ensures Valid()
      ensures vehicles == old(vehicles) && trackSegments == old(trackSegments) && trackSegmentDist == old(trackSegmentDist)
      ensures sensorConfigStart == old(sensorConfigStart) && sensorConfigEnd == old(sensorConfigEnd)
      ensures forall i :: 0 <= i < |vehicles| ==>
        vehicles[i].layers == old(vehicles[i].layers) && vehicles[i].controller == old(vehicles[i].controller)
      ensures forall i :: 0 <= i < |vehicles| ==>
        if old(vehicles[i].alive) then SensedAll(old(vehicles[i].sensors), vehicles[i].sensors, inputs[i].pose, rayTest)
        else vehicles[i].sensors == old(vehicles[i].sensors)
      // the vehicle loop: every vehicle takes its tick
      ensures |ticked| == |vehicles|
      ensures forall i :: 0 <= i < |vehicles| ==>
        Ticked(old(vehicles[i].State()), ticked[i], inputs[i], rayTest, trackSegments, trackSegmentDist, norm)
      // evolution runs exactly when no vehicle survived the loop
      ensures numAlive == 0 <==> forall i :: 0 <= i < |ticked| ==> !ticked[i].alive
      ensures numAlive > 0 ==>
        && States(vehicles) == ticked
        && numAlive == CountAlive(vehicles)
        && chromosomes == old(chromosomes) && chromosomesNext == old(chromosomesNext)
        && avgDrivenDistance == old(avgDrivenDistance)
      ensures numAlive == 0 ==>
        && |chromosomes| == |vehicles|
        && (old(chromosomes) != [] ==> chromosomes == old(chromosomesNext) && chromosomesNext == old(chromosomes))
        && avgDrivenDistance == Mean(StateDistances(ticked))
        && (forall i :: 0 <= i < |vehicles| ==> vehicles[i].AtStart() && vehicles[i].birthTime == resetTimes[i])
    {
      numAlive, ticked := UpdateVehicles(inputs, rayTest, norm);
      if numAlive == 0 {
        Regenerate(resetTimes);
      }
    }
  }
}
