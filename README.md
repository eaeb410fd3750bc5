# CarAI: track progress, controllers and generation bookkeeping in Dafny

CarAI trains simulated cars with a genetic algorithm. Each car has three ray
sensors that feed a small neural network, and the network drives the car.
Once every car has died, the population is rated by how far along the track
each car got, a new generation is bred and every car restarts. This project
models the bookkeeping around that loop, with physics, time and randomness
passed in as parameters:

- `Geometry` (`geometry.dfy`) has 3-vectors and rigid transforms over the
  reals, standing in for Bullet's types. The Euclidean norm needs a square
  root, so it is a parameter `norm`. Almost everything assumes only that
  it is non-negative; the tracker's midpoint lemmas assume that it is 0 for
  the zero vector and squares to the dot product.
- `Controllers` (`controllers.dfy`) covers the three controllers. Each one
  returns the list of physics calls it makes (steering, engine force,
  brake, each for one wheel). `Execute` says what such a list does to the
  four wheels' settings.
- `Vehicles` (`vehicle.dfy`) has the sensor record and the `Vehicle` class
  holding a car's progress fields. Its track-progress tracker projects the
  car onto every edge of the closed waypoint polyline, takes the nearest
  edge whose projection lies inside it and updates the current and best
  segment and distance and the travel direction. It also covers the sensor
  and network-topology setup and one tick `Vehicle.Update`.
- `Simulations` (`simulation.dfy`) has the `Simulation` class:
  - waypoint loading and the cumulative arclength table;
  - the three-ray sensor layout;
  - vehicle creation;
  - the per-tick loop that kills cars that are off the track or stalled and
    counts the survivors;
  - the choice of the best car;
  - the chromosome bookkeeping of an evolution step, and the reset.
- `Wrappers` (`wrappers.dfy`) has the `Option` type.

The collaborators the core only calls are parameters:

- the chassis pose and velocity, and the ray test: `rayTest(from, to)` is
  the closest-hit fraction, or None on a miss;
- the network evaluation: `compute(input)` is None when it fails;
- the two `rand()/RAND_MAX` draws of the random controller;
- the clock reading used for each car's stall timeout;
- the waypoint file, as a list of lines: Some(v) for a line that reads as
  `v x y z`. The whole file is None when it cannot be opened.

Floating point is modelled by reals, with two exceptions:

- An edge of length 0 would divide by zero and give NaN in floating point.
  Every comparison with NaN fails, so such an edge is never eligible.
- The average of an empty population is 0/0 = NaN, modelled as None.

Two behaviours of the code worth knowing:

- `std::vector::resize` keeps existing elements. So the first entry of the
  distance table is guaranteed to be 0 when the table was empty before
  `initTrack`, as it is when the simulation is built; otherwise it keeps
  the old first entry.
- `updateTrackPerformance` only ever stores an index of the waypoint list
  in `m_curSegment`, and `UpdateTrackPerformance` proves a non-negative
  segment stays non-negative. So, provided `curTrackSegment()` returns
  `m_curSegment` (see below), the "reverse direction" kill only fires for a
  car whose segment was already negative before the tick. The travel
  direction `m_travelDir` is computed but not read by any kill rule.

Vehicle.h is not part of this model. The model takes it that:

- `curTrackSegment()` returns `m_curSegment` and `curTrackDistance()`
  returns `m_curDistance`;
- `alive()` and `birthTime()` read plain fields, and `kill()` only clears
  `alive`;
- `reset()` restores the initial progress values of the constructor
  (src/Simulation/Vehicle.cpp:13-19) and `alive`, and restarts the birth
  time at the clock reading it takes itself, one reading per vehicle;
- `VehicleControllerUser::update` makes no physics calls: the user
  controller acts only through `keyEvent`
  (src/Simulation/Vehicle.cpp:204-267);
- the birth time of a new vehicle is the clock reading when it is built.
  The constructor in src/Simulation/Vehicle.cpp:13-19 sets no birth time,
  so the model's `Vehicle` constructor takes it as a parameter.

## Model

| member | source | states |
|---|---|---|
| Controllers.Perform | src/Simulation/Vehicle.cpp:316-320 | one physics call changes only the wheel it names; the number of wheels is unchanged |
| Controllers.Execute | src/Simulation/Vehicle.cpp:316-320 | the calls of a controller are made in order, and no list of calls adds or removes a wheel |
| Controllers.NeuralNetForce | src/Simulation/Vehicle.cpp:313-314 | network output -1 gives the reverse limit -3000, +1 gives the forward limit 5000, and outputs in [-1, 1] give forces between the two |
| Controllers.NeuralNetSteer | src/Simulation/Vehicle.cpp:311 | outputs in [-1, 1] give steering within ±0.6; output 0 steers straight |
| Controllers.NeuralNetForceMonotone | src/Simulation/Vehicle.cpp:313-314 | the output-to-force map is monotone |
| Controllers.NeuralNetEffect | src/Simulation/Vehicle.cpp:304-323 | a successful evaluation sets the same steering on wheels 0 and 1 and the same force on wheels 2 and 3 and touches nothing else; a failed one changes no wheel |
| Controllers.NeuralNetCommands | src/Simulation/Vehicle.cpp:304-323 | a failed evaluation makes no call and a successful one makes some; the network never brakes (its effect on the wheels is stated by Controllers.NeuralNetEffect) |
| Controllers.ExecuteSteerDrive | src/Simulation/Vehicle.cpp:316-320 | the four calls "steer 0, steer 1, drive 2, drive 3" leave the wheels steered and driven and everything else as it was |
| Controllers.RandomCommands | src/Simulation/Vehicle.cpp:274-284 | the random controller's calls for two draws; their bounds are stated by Controllers.RandomCommandsBounded |
| Controllers.RandomCommandsBounded | src/Simulation/Vehicle.cpp:274-284 | for draws in [0, 1] the random controller steers within ±0.6, applies forward force in [0, 5000] and never brakes |
| Controllers.ExecuteConcat | src/Simulation/Vehicle.cpp:204-267 | executing two call lists one after the other is executing their concatenation |
| Controllers.ExecuteOne | src/Simulation/Vehicle.cpp:316 | a single call has exactly the effect of that call |
| Controllers.ExecutePair | src/Simulation/Vehicle.cpp:212-213 | two calls in a row have the effect of the first followed by the second |
| Controllers.KeyEventCommands | src/Simulation/Vehicle.cpp:204-267 | the user controller's calls for one key event; their effect is stated by Controllers.KeyPressEffect, Controllers.KeyReleaseEffect and Controllers.KeyEventWithoutVehicle |
| Controllers.KeyPressEffect | src/Simulation/Vehicle.cpp:208-240 | a press or repeat of LEFT/RIGHT steers wheels 0 and 1 to +0.6/-0.6, UP/DOWN drives wheels 2 and 3 with 5000/-3000, SPACE brakes wheels 2 and 3 with 500; other keys do nothing |
| Controllers.KeyReleaseEffect | src/Simulation/Vehicle.cpp:241-265 | releasing LEFT/RIGHT straightens wheels 0 and 1, UP/DOWN removes the force on wheels 2 and 3 and sets the idle brake 10, SPACE releases the brake; other keys do nothing |
| Controllers.KeyEventWithoutVehicle | src/Simulation/Vehicle.cpp:204-206 | without a vehicle a key event changes nothing |
| Vehicles.RayDistance | src/Simulation/Vehicle.cpp:69-71 | a miss reports the full range; a hit at a fraction in [0, 1] reports a distance in [0, maxDist] |
| Vehicles.NewSensor | src/Simulation/Vehicle.cpp:84-92 | a new sensor's range and reported distance are the distance from its start to its end, and its world-frame ray is the pose applied to both points |
| Vehicles.Sense | src/Simulation/Vehicle.cpp:56-72 | a sensor tick places the ray with the chassis pose and keeps the chassis-frame ray and the range |
| Vehicles.SenseBounded | src/Simulation/Vehicle.cpp:69-71 | with a ray test that reports fractions, a sensor reports a distance between 0 and its range |
| Vehicles.NeuralNetInput | src/Simulation/Vehicle.cpp:296-300 | the network input is every sensor's distance, in sensor order |
| Vehicles.ProjectOnEdge | src/Simulation/Vehicle.cpp:138-146 | an edge is eligible only when it has non-zero length and the projection parameter lies in [0, len] |
| Vehicles.NearestIsUnique | src/Simulation/Vehicle.cpp:127-161 | the nearest edge is determined: only one edge can be nearest |
| Vehicles.MidpointProjection | src/Simulation/Vehicle.cpp:138-150 | with the Euclidean norm, the midpoint of an edge of non-zero length projects onto it at half its length, at distance 0 |
| Vehicles.MidpointIsNearest | src/Simulation/Vehicle.cpp:127-161 | with the Euclidean norm, the midpoint of edge i has edge i as its nearest edge unless an earlier edge also passes through it |
| Vehicles.NearestSegment | src/Simulation/Vehicle.cpp:127-161 | the scan finds an edge exactly when some edge is eligible; the edge found is strictly nearer than every earlier eligible edge and no farther than every later one; the track distance is the cumulative distance plus the projection parameter; otherwise -1 and -1 |
| Vehicles.NextTravelDir | src/Simulation/Vehicle.cpp:166-176 | the direction is 0 when standing still, otherwise has the sign of the velocity along the edge, is kept when the velocity is perpendicular to the edge, and stays in {-1, 0, 1} |
| Vehicles.Vehicle.constructor | src/Simulation/Vehicle.cpp:13-19 | a new vehicle is alive, at segment 0 and distance 0, with direction 0, and has no sensors, network or controller |
| Vehicles.Vehicle.SetController | src/Simulation/Vehicle.cpp:31-49 | the controller is replaced by the chosen kind |
| Vehicles.Vehicle.Kill | src/Simulation/Simulation.cpp:150-155 | a killed vehicle is no longer alive, and nothing else about it changes |
| Vehicles.Vehicle.Reset | src/Simulation/Simulation.cpp:373 | a reset vehicle is alive again, back at segment 0 and distance 0 with direction 0, and born at the reset time |
| Vehicles.Vehicle.AddSensor | src/Simulation/Vehicle.cpp:82-95 | exactly one sensor is appended, with range and distance equal to the distance from start to end and its ray placed with the chassis pose; earlier sensors are kept |
| Vehicles.Vehicle.InitNeuralNetwork | src/Simulation/Vehicle.cpp:98-112 | the layer sizes are the sensor count, then the internal layers in order, then the 2 outputs |
| Vehicles.Vehicle.UpdateTrackPerformance | src/Simulation/Vehicle.cpp:121-185 | with no eligible edge nothing changes; otherwise the nearest edge and its track distance become current, the best segment and distance are raised to at least them, and the direction follows the velocity; the best values never decrease and the direction stays in {-1, 0, 1} |
| Vehicles.MidpointTrackStep | src/Simulation/Vehicle.cpp:121-185 | with the Euclidean norm, a car at the midpoint of edge i (no earlier edge through that point) is put on segment i at track distance dist[i] + len/2 |
| Vehicles.Vehicle.Update | src/Simulation/Vehicle.cpp:51-80 | every sensor is recast from the pose, the progress step is taken from the chassis origin, and the controller's calls are the network's, the random controller's, or none |
| Simulations.Resize | src/Simulation/Simulation.cpp:258-259 | keeps the existing elements up to the new length and pads with the fill value |
| Simulations.Reversed | src/Simulation/Simulation.cpp:239 | the reversal is a permutation of the list; its order is stated by Simulations.ReversedAt and Simulations.ReversedConcat |
| Simulations.ReversedConcat | src/Simulation/Simulation.cpp:239 | reversing a concatenation reverses the order of the parts |
| Simulations.ReversedAt | src/Simulation/Simulation.cpp:239 | the reversal keeps the length, and element k of the reversed list is element n-1-k of the original |
| Simulations.ScaledWaypoint | src/Simulation/Simulation.cpp:229-232 | a waypoint is scaled by the track scale, x and z further by the heightfield's width and height, and y raised by the ground level; stated through Simulations.Simulation.InitTrack |
| Simulations.ParsedWaypoints | src/Simulation/Simulation.cpp:224-234 | at most one waypoint per line, and exactly one per line when every line matches; file order and skipping are stated by Simulations.ParsedConcat and Simulations.ParsedSkipsNonMatching |
| Simulations.ParsedConcat | src/Simulation/Simulation.cpp:224-234 | the waypoints of a file are the waypoints of its parts, in file order |
| Simulations.ParsedSkipsNonMatching | src/Simulation/Simulation.cpp:227-228 | a line that does not read as `v x y z` contributes no waypoint |
| Simulations.Waypoints | src/Simulation/Simulation.cpp:224-239 | the track is the parsed waypoints reversed; stated by Simulations.WaypointsReverseFileOrder |
| Simulations.WaypointsReverseFileOrder | src/Simulation/Simulation.cpp:224-239 | the track lists the waypoints of a later part of the file before those of an earlier part |
| Simulations.FillSegmentDistances | src/Simulation/Simulation.cpp:243-249 | the filled table has one entry per waypoint; entry i >= 1 is the arclength from waypoint 0 to waypoint i; entry 0 is untouched |
| Simulations.FilledIsCumulative | src/Simulation/Simulation.cpp:243-249 | a table filled from an empty vector starts at 0 and each entry adds the step from the previous waypoint |
| Simulations.CumulativeNonDecreasing | src/Simulation/Simulation.cpp:243-249 | with a non-negative norm the cumulative table never decreases |
| Simulations.CountAliveZero | src/Simulation/Simulation.cpp:158-166 | the survivor count is 0 exactly when no vehicle is alive |
| Simulations.CountAliveFlags | src/Simulation/Simulation.cpp:158-159 | counting the vehicles alive is counting the alive flags the loop sees, one per vehicle |
| Simulations.SumBounded | src/Simulation/Simulation.cpp:346-354 | the sum of n distances in [lo, hi] lies in [n*lo, n*hi] |
| Simulations.MeanBounded | src/Simulation/Simulation.cpp:346-354 | the average of a non-empty population lies between the smallest and the largest distance |
| Simulations.TickVehicle | src/Simulation/Simulation.cpp:146-157 | a dead vehicle is untouched; an alive one recasts its sensors, takes its progress step and keeps its birth time, network and controller; it is alive afterwards exactly when its segment is non-negative and it has not spent more than 20 s below segment 2; nobody is revived |
| Simulations.NewChromosomes | src/Simulation/Simulation.cpp:337-344 | one fresh chromosome per vehicle, owned by that vehicle, in vehicle order |
| Simulations.AverageDistance | src/Simulation/Simulation.cpp:346-354 | the average is the mean current (not best) track distance of the chromosomes' vehicles, None when there are none |
| Simulations.Chromosome.constructor | src/Simulation/Simulation.cpp:341-342 | a chromosome belongs to the vehicle it was built for |
| Simulations.Simulation.constructor | src/Simulation/Simulation.cpp:15-53 | numCars fresh network-driven vehicles at the start of the track, each with the three configured sensors and layers 3, 4, 3, 2; no chromosomes; the track loaded with a cumulative table |
| Simulations.Simulation.InitSensors | src/Simulation/Simulation.cpp:256-287 | exactly three rays, each starting at its configured start and ending at start + 5*(end - start) |
| Simulations.Simulation.NewNetworkedVehicle | src/Simulation/Simulation.cpp:33-38 | each vehicle of the initial population is fresh, at the start of the track, driven by a network of layers 3, 4, 3, 2, with the three configured sensors; the sensor layout is set up |
| Simulations.Simulation.CreateVehicle | src/Simulation/Simulation.cpp:289-301 | the sensor layout is set up on first use and reused afterwards; the new vehicle has one sensor per configured ray, in order |
| Simulations.Simulation.InitTrack | src/Simulation/Simulation.cpp:219-253 | the waypoints are reset; when the file opens they are the matching lines, scaled, in reverse file order, and the table is resized and filled with the arclengths; when it does not, the table is untouched |
| Simulations.Simulation.BestVehicle | src/Simulation/Simulation.cpp:175-191 | null exactly when no alive vehicle has a distance above -1; otherwise an alive vehicle whose distance is at least every alive vehicle's, the first such on ties |
| Simulations.Simulation.BestAtUnique | src/Simulation/Simulation.cpp:175-191 | the best vehicle is determined: only one index can be best |
| Simulations.Simulation.UpdateVehicles | src/Simulation/Simulation.cpp:139-166 | every vehicle takes its tick as Simulations.TickVehicle states it, alive afterwards exactly when it was alive and passes both kill rules; the result is the number of vehicles alive afterwards, which is 0 exactly when no vehicle is alive; the ghost result is the vehicles' states after the loop |
| Simulations.Simulation.ApplyEvolution | src/Simulation/Simulation.cpp:331-364 | both chromosome lists are allocated, one per vehicle, only when empty; otherwise they are swapped; both have one chromosome per vehicle afterwards, and no chromosome of one list is an object of the other; the average is the mean current distance |
| Simulations.Simulation.ResetVehicles | src/Simulation/Simulation.cpp:366-379 | every vehicle is back at the start and alive, each born at its own reset clock reading, with its sensors, network and controller kept |
| Simulations.Simulation.Regenerate | src/Simulation/Simulation.cpp:166-170 | an evolution step rated on the vehicles as they are (the average is the mean of their current distances, the chromosome lists allocated or swapped), then every vehicle restarts at its own reset clock reading with its sensors, network and controller kept |
| Simulations.Simulation.Update | src/Simulation/Simulation.cpp:131-172 | the vehicles, track, sensor layout and every vehicle's network and controller are kept; the ghost result `ticked` holds one state per vehicle, each obtained from the vehicle's state before the call by the tick rules (alive exactly when it was alive and passes both kill rules, progress stepped, sensors recast from the pose); the count is 0 exactly when no vehicle in `ticked` is alive; with survivors, the vehicles are left in the `ticked` states, the count is the number alive and the chromosomes and average are untouched; with none, evolution runs with the average taken over the `ticked` current distances and every vehicle restarts at its reset clock reading; in both cases each vehicle alive before the tick holds its sensors recast from the pose and every other vehicle keeps its sensors |

## Left out

- Bullet physics is not modelled: the world step, ray casts, rigid-body and vehicle creation (`createVehiclePhysics`, `replacePhysics`), activation states and the contact walk in `subtickCallback`. Pose, velocity and hit fraction are parameters.
- The heightfield decode, the file stream and `sscanf` are I/O. The file is a list of already-parsed lines, and the heightfield's width and height are parameters. When the heightfield fails to load, the source leaves them uninitialised.
- `NeuralNetwork::compute`, `Link::randomize`, `EvolutionProcess::computeNewPopulation`, `Chromosome::readGenesFromVehicle` and `transferGenesToVehicle` are not part of this model: their code is not visible. `compute` is a parameter. The network is reduced to its list of layer sizes. A chromosome keeps only its owner.
- `std::rand` and `glfwGetTime` are parameters. The user controller's key events are a separate function and not part of a tick.
- Floating point is modelled by reals. Rounding, and NaN beyond the two cases named above, are not modelled. The square root is an abstract non-negative `norm`.
- Memory management (`new`/`delete`, destructors), `initTweakVars` and `src/DeepLearningCarApp.cpp` are not modelled: they have no logic to state.
- Simulations.Simulation.UpdateVehicles: the controller calls of each tick are proved in `Vehicles.Vehicle.Update` but are not restated here; they go to the physics, which is not modelled.
- The chromosome bookkeeping assumes that `computeNewPopulation` (src/Simulation/Simulation.cpp:356) leaves the entries of both chromosome vectors in place, writing only their genes. The owner invariant of `Simulations.Simulation` and the swap stated by `Simulations.Simulation.ApplyEvolution` rest on this.
- `Vehicles.ComputesActuation` assumes that a successful `NeuralNetwork::compute` returns at least the 2 outputs the controller reads (src/Simulation/Vehicle.cpp:311-314), since its code is not visible.
- The log output is left out: the failed-network message (src/Simulation/Vehicle.cpp:323), and the "failed to load track heightmap" message printed when the heightfield does not decode (src/Simulation/Simulation.cpp:216) and again when the waypoint file does not open (src/Simulation/Simulation.cpp:253).
- The tracker's geometric lemmas (`Vehicles.MidpointProjection` and the two after it) assume a Euclidean norm, one that is non-negative, 0 for the zero vector and squares to the dot product. All other results assume only a non-negative norm.
- Vehicles.NearestIsUnique, Simulations.Simulation.BestAtUnique: these hold by the definitions alone and need no proof steps.
