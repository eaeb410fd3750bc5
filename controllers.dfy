/** The three vehicle controllers of Vehicle.cpp as maps from their inputs to
    the calls they make on the physics vehicle. Each controller returns the
    list of calls in the order the source makes them; `Execute` says what those
    calls do to the four wheels' steering, engine force and brake settings. */
module Controllers {

  import opened Wrappers

  /** VehicleController's limits (Vehicle.cpp:189-196). */
  const SteerMax: real := 0.6
  const EngineForceFwdMax: real := 5000.0
  const EngineForceRevMax: real := -3000.0
  const BrakeMax: real := 500.0
  /** Brake applied on releasing UP or DOWN, so that the wheels keep friction. */
  const IdleBrake: real := 10.0
  /** Degrees of freedom of the network controller: steer and engine force. */
  const Dof: nat := 2

  /** One call on the physics vehicle: a value for one wheel. */
  datatype Command =
    | SetSteering(value: real, wheel: nat)
    | ApplyEngineForce(value: real, wheel: nat)
    | SetBrake(value: real, wheel: nat)

  datatype WheelSetting = WheelSetting(steering: real, engineForce: real, brake: real)

  /** The effect of one call: the named wheel's setting is replaced, a wheel
      outside the vehicle is left alone. */
  function Perform(c: Command, ws: seq<WheelSetting>): (r: seq<WheelSetting>)
    ensures |r| == |ws|
    ensures forall k :: 0 <= k < |ws| && k != c.wheel ==> r[k] == ws[k]
  {
    if c.wheel < |ws| then
      var w := ws[c.wheel];
      match c
      case SetSteering(v, i) => ws[i := w.(steering := v)]
      case ApplyEngineForce(v, i) => ws[i := w.(engineForce := v)]
      case SetBrake(v, i) => ws[i := w.(brake := v)]
    else ws
  }

  /** The effect of a list of calls, made in order. */
  function Execute(cs: seq<Command>, ws: seq<WheelSetting>): (r: seq<WheelSetting>)
    ensures |r| == |ws|
  {
    if cs == [] then ws else Execute(cs[1..], Perform(cs[0], ws))
  }

  /** The settings of four wheels after steering 0 and 1 to `steer`, leaving everything else. */
  function Steered(ws: seq<WheelSetting>, steer: real): seq<WheelSetting>
    requires |ws| == 4
  {
    ws[0 := ws[0].(steering := steer)][1 := ws[1].(steering := steer)]
  }

  /** The settings of four wheels after giving 2 and 3 engine force `force`. */
  function Driven(ws: seq<WheelSetting>, force: real): seq<WheelSetting>
    requires |ws| == 4
  {
    ws[2 := ws[2].(engineForce := force)][3 := ws[3].(engineForce := force)]
  }

  /** The settings of four wheels after braking 2 and 3 with `brake`. */
  function Braked(ws: seq<WheelSetting>, brake: real): seq<WheelSetting>
    requires |ws| == 4
  {
    ws[2 := ws[2].(brake := brake)][3 := ws[3].(brake := brake)]
  }

  // ---------------------------------------------------------------------------
  // Network controller (VehicleControllerNeuralNet::update)

  /** Network output 1, in [-1, 1], mapped to [0, 1] and then interpolated
      between the reverse and forward force limits. */
  function NeuralNetForce(o: real): (r: real)
    ensures o == -1.0 ==> r == EngineForceRevMax
    ensures o == 1.0 ==> r == EngineForceFwdMax
    ensures -1.0 <= o <= 1.0 ==> EngineForceRevMax <= r <= EngineForceFwdMax
  {
    var t := o * 0.5 + 0.5;
    EngineForceRevMax + (EngineForceFwdMax - EngineForceRevMax) * t
  }

  /** The steering for network output 0. */
  function NeuralNetSteer(o: real): (r: real)
    ensures -1.0 <= o <= 1.0 ==> -SteerMax <= r <= SteerMax
    ensures o == 0.0 ==> r == 0.0
  {
    o * SteerMax
  }

  /** The calls made for the result of `compute`: none when it failed. */
  function NeuralNetCommands(output: Option<seq<real>>): (r: seq<Command>)
    requires output.Some? ==> |output.value| >= Dof
    ensures output.None? <==> r == []
    ensures forall c :: c in r ==> !c.SetBrake?
  {
    match output
    case None => []
    case Some(out) =>
      var steer := NeuralNetSteer(out[0]);
      var force := NeuralNetForce(out[1]);
      [SetSteering(steer, 0), SetSteering(steer, 1), ApplyEngineForce(force, 2), ApplyEngineForce(force, 3)]
  }

  lemma NeuralNetForceMonotone(o1: real, o2: real)
    requires o1 <= o2
    ensures NeuralNetForce(o1) <= NeuralNetForce(o2)
  {
  }

  /** A successful network evaluation steers the front wheels alike, drives the
      rear wheels alike and leaves every brake alone; a failed one changes nothing. */
  lemma NeuralNetEffect(output: Option<seq<real>>, ws: seq<WheelSetting>)
    requires output.Some? ==> |output.value| >= Dof
    requires |ws| == 4
    ensures output.None? ==> Execute(NeuralNetCommands(output), ws) == ws
    ensures output.Some? ==>
      Execute(NeuralNetCommands(output), ws) ==
      Driven(Steered(ws, NeuralNetSteer(output.value[0])), NeuralNetForce(output.value[1]))
  {
    if output.Some? {
      var cs := NeuralNetCommands(output);
      ExecuteSteerDrive(cs[0].value, cs[2].value, ws);
    }
  }

  /** Executing the four-call steer-then-drive pattern both forward controllers use. */
  lemma ExecuteSteerDrive(steer: real, force: real, ws: seq<WheelSetting>)
    requires |ws| == 4
    ensures Execute([SetSteering(steer, 0), SetSteering(steer, 1), ApplyEngineForce(force, 2), ApplyEngineForce(force, 3)], ws)
            == Driven(Steered(ws, steer), force)
  {
    var front := [SetSteering(steer, 0), SetSteering(steer, 1)];
    var rear := [ApplyEngineForce(force, 2), ApplyEngineForce(force, 3)];
    assert front + rear == [SetSteering(steer, 0), SetSteering(steer, 1), ApplyEngineForce(force, 2), ApplyEngineForce(force, 3)];
    ExecuteConcat(front, rear, ws);
    ExecutePair(front[0], front[1], ws);
    ExecutePair(rear[0], rear[1], Steered(ws, steer));
  }

  // ---------------------------------------------------------------------------
  // Random controller (VehicleControllerRand::update)

  /** The calls for two draws `u1`, `u2` of rand()/RAND_MAX: steering from the
      first, forward-only engine force from the second. */
  function RandomCommands(u1: real, u2: real): seq<Command> {
    var steer := (-1.0 + 2.0 * u1) * SteerMax;
    var force := u2 * EngineForceFwdMax;
    [SetSteering(steer, 0), SetSteering(steer, 1), ApplyEngineForce(force, 2), ApplyEngineForce(force, 3)]
  }

  /** For draws in [0, 1] the random controller steers within the limits and
      never drives backwards. */
  lemma RandomCommandsBounded(u1: real, u2: real)
    requires 0.0 <= u1 <= 1.0 && 0.0 <= u2 <= 1.0
    ensures forall c :: c in RandomCommands(u1, u2) && c.SetSteering? ==> -SteerMax <= c.value <= SteerMax
    ensures forall c :: c in RandomCommands(u1, u2) && c.ApplyEngineForce? ==> 0.0 <= c.value <= EngineForceFwdMax
    ensures forall c :: c in RandomCommands(u1, u2) ==> !c.SetBrake?
  {
    var cs := RandomCommands(u1, u2);
    assert cs[0].value == cs[1].value && cs[2].value == cs[3].value;
    assert forall c :: c in cs ==> c == cs[0] || c == cs[1] || c == cs[2] || c == cs[3];
    // steering is (2*u1 - 1) * 0.6 with 2*u1 - 1 in [-1, 1]
    assert -1.0 <= -1.0 + 2.0 * u1 <= 1.0;
  }

  // ---------------------------------------------------------------------------
  // User controller (VehicleControllerUser::keyEvent)

  /** GLFW key codes and key actions. */
  const KeySpace: int := 32
  const KeyRight: int := 262
  const KeyLeft: int := 263
  const KeyDown: int := 264
  const KeyUp: int := 265
  const ActionRelease: int := 0

  /** The keys the user controller reacts to. */
  predicate IsControlKey(key: int) {
    key == KeyLeft || key == KeyRight || key == KeyUp || key == KeyDown || key == KeySpace
  }

  /** The calls a key event makes; none when the controller has no vehicle.
      Press and repeat (any action other than release) are treated alike. */
  function KeyEventCommands(hasVehicle: bool, key: int, action: int): seq<Command> {
    if !hasVehicle then []
    else if action != ActionRelease then
      (if key == KeyLeft then [SetSteering(SteerMax, 0), SetSteering(SteerMax, 1)] else [])
      + (if key == KeyRight then [SetSteering(-SteerMax, 0), SetSteering(-SteerMax, 1)] else [])
      + (if key == KeyUp then [ApplyEngineForce(EngineForceFwdMax, 2), ApplyEngineForce(EngineForceFwdMax, 3)] else [])
      + (if key == KeyDown then [ApplyEngineForce(EngineForceRevMax, 2), ApplyEngineForce(EngineForceRevMax, 3)] else [])
      + (if key == KeySpace then [SetBrake(BrakeMax, 2), SetBrake(BrakeMax, 3)] else [])
    else
      (if key == KeyLeft || key == KeyRight then [SetSteering(0.0, 0), SetSteering(0.0, 1)] else [])
      + (if key == KeyUp || key == KeyDown
         then [ApplyEngineForce(0.0, 2), ApplyEngineForce(0.0, 3), SetBrake(IdleBrake, 2), SetBrake(IdleBrake, 3)]
         else [])
      + (if key == KeySpace then [SetBrake(0.0, 2), SetBrake(0.0, 3)] else [])
  }

  lemma ExecuteOne(c: Command, ws: seq<WheelSetting>)
    ensures Execute([c], ws) == Perform(c, ws)
  {
    assert [c][1..] == [];
  }

  /** Executing two lists of calls one after the other is executing their concatenation. */
  lemma {:induction false} ExecuteConcat(a: seq<Command>, b: seq<Command>, ws: seq<WheelSetting>)
    ensures Execute(a + b, ws) == Execute(b, Execute(a, ws))
  {
    if a == [] {
      assert a + b == b;
    } else {
      assert (a + b)[0] == a[0];
      assert (a + b)[1..] == a[1..] + b;
      ExecuteConcat(a[1..], b, Perform(a[0], ws));
    }
  }

  lemma ExecutePair(c0: Command, c1: Command, ws: seq<WheelSetting>)
    ensures Execute([c0, c1], ws) == Perform(c1, Perform(c0, ws))
  {
    assert [c0] + [c1] == [c0, c1];
    ExecuteConcat([c0], [c1], ws);
    ExecuteOne(c0, ws);
    ExecuteOne(c1, Perform(c0, ws));
  }

  /** The key table of the user controller for a press (or repeat), in terms of
      the wheel settings each event leaves behind. */
  lemma KeyPressEffect(key: int, action: int, ws: seq<WheelSetting>)
    requires |ws| == 4 && action != ActionRelease
    ensures key == KeyLeft ==> Execute(KeyEventCommands(true, key, action), ws) == Steered(ws, SteerMax)
    ensures key == KeyRight ==> Execute(KeyEventCommands(true, key, action), ws) == Steered(ws, -SteerMax)
    ensures key == KeyUp ==> Execute(KeyEventCommands(true, key, action), ws) == Driven(ws, EngineForceFwdMax)
    ensures key == KeyDown ==> Execute(KeyEventCommands(true, key, action), ws) == Driven(ws, EngineForceRevMax)
    ensures key == KeySpace ==> Execute(KeyEventCommands(true, key, action), ws) == Braked(ws, BrakeMax)
    ensures !IsControlKey(key) ==> Execute(KeyEventCommands(true, key, action), ws) == ws
  {
    var cs := KeyEventCommands(true, key, action);
    if key == KeyLeft {
      assert cs == [SetSteering(SteerMax, 0), SetSteering(SteerMax, 1)];
    } else if key == KeyRight {
      assert cs == [SetSteering(-SteerMax, 0), SetSteering(-SteerMax, 1)];
    } else if key == KeyUp {
      assert cs == [ApplyEngineForce(EngineForceFwdMax, 2), ApplyEngineForce(EngineForceFwdMax, 3)];
    } else if key == KeyDown {
      assert cs == [ApplyEngineForce(EngineForceRevMax, 2), ApplyEngineForce(EngineForceRevMax, 3)];
    } else if key == KeySpace {
      assert cs == [SetBrake(BrakeMax, 2), SetBrake(BrakeMax, 3)];
    } else {
      assert cs == [];
      return;
    }
    ExecutePair(cs[0], cs[1], ws);
  }

  /** The key table of the user controller for a release. */
  lemma KeyReleaseEffect(key: int, ws: seq<WheelSetting>)
    requires |ws| == 4
    ensures key == KeyLeft || key == KeyRight ==> Execute(KeyEventCommands(true, key, ActionRelease), ws) == Steered(ws, 0.0)
    ensures key == KeyUp || key == KeyDown ==> Execute(KeyEventCommands(true, key, ActionRelease), ws) == Braked(Driven(ws, 0.0), IdleBrake)
    ensures key == KeySpace ==> Execute(KeyEventCommands(true, key, ActionRelease), ws) == Braked(ws, 0.0)
    ensures !IsControlKey(key) ==> Execute(KeyEventCommands(true, key, ActionRelease), ws) == ws
  {
    var cs := KeyEventCommands(true, key, ActionRelease);
    if key == KeyUp || key == KeyDown {
      var engine := [ApplyEngineForce(0.0, 2), ApplyEngineForce(0.0, 3)];
      var brake := [SetBrake(IdleBrake, 2), SetBrake(IdleBrake, 3)];
      assert cs == engine + brake;
      ExecuteConcat(engine, brake, ws);
      ExecutePair(engine[0], engine[1], ws);
      ExecutePair(brake[0], brake[1], Driven(ws, 0.0));
    } else if key == KeyLeft || key == KeyRight {
      assert cs == [SetSteering(0.0, 0), SetSteering(0.0, 1)];
      ExecutePair(cs[0], cs[1], ws);
    } else if key == KeySpace {
      assert cs == [SetBrake(0.0, 2), SetBrake(0.0, 3)];
      ExecutePair(cs[0], cs[1], ws);
    } else {
      assert cs == [];
    }
  }

  /** Without a vehicle a key event does nothing. */
  lemma KeyEventWithoutVehicle(key: int, action: int, ws: seq<WheelSetting>)
    ensures Execute(KeyEventCommands(false, key, action), ws) == ws
  {
  }
}
