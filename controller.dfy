/**
 * The controller state of the hand-controller screen as pure values: whether
 * the Bluetooth link is up, whether a spiral search is running, the spiral
 * speed, and the log of lines written to the output stream. Each function is
 * one user event or one link outcome; Step and Run replay sequences of them.
 */
module Controller {
  import opened Wire

  datatype State = State(connected: bool, spiralActive: bool, speed: int, log: seq<string>)

  /** What a finger does on a direction button. Other covers every other motion event. */
  datatype TouchAction = Down | Up | Cancel | Other

  /** The inputs the screen reacts to. */
  datatype Event =
    | SpeedButton
    | ConnectButton
    | DirectionTouch(direction: Direction, action: TouchAction)
    | SpiralButton
    | ConnectSucceeded
    | ConnectFailed
    | ActivityDestroyed

  /** The speed stays one of the three multipliers. */
  predicate Valid(s: State) {
    1 <= s.speed <= 3
  }

  /** The screen as created: no link, no spiral, speed 1, nothing written. */
  function Init(): State {
    State(false, false, 1, [])
  }

  /** Writes a line when the link is up; drops it silently otherwise. */
  function SendCommand(s: State, command: string): (r: State)
    ensures r.connected == s.connected && r.spiralActive == s.spiralActive && r.speed == s.speed
    ensures s.connected ==> r.log == s.log + [command]
    ensures !s.connected ==> r == s
  {
    if s.connected then s.(log := s.log + [command]) else s
  }

  /** The speed button's step: 1 to 2 to 3 and back to 1. */
  function NextSpeed(speed: int): (r: int)
    ensures speed >= 0 ==> 1 <= r <= 3
    ensures 1 <= speed <= 3 ==> r == speed % 3 + 1
  {
    if speed >= 3 then 1 else speed + 1
  }

  /** The speed button: advances the speed and, during a spiral, tells the rover. */
  function CycleSpeed(s: State): (r: State)
    ensures r.connected == s.connected && r.spiralActive == s.spiralActive
    ensures r.speed == NextSpeed(s.speed)
    ensures r.log == s.log + (if s.connected && s.spiralActive then [Encode(SpiralSpeed(r.speed))] else [])
  {
    var t := s.(speed := NextSpeed(s.speed));
    if t.spiralActive then SendCommand(t, Encode(SpiralSpeed(t.speed))) else t
  }

  /** Closes the link. The spiral flag and the speed are left as they are. */
  function DisconnectBluetooth(s: State): (r: State)
    ensures !r.connected
    ensures r.spiralActive == s.spiralActive && r.speed == s.speed && r.log == s.log
  {
    s.(connected := false)
  }

  /**
   * The connect button: closes an open link; otherwise starts a connection
   * attempt, whose outcome arrives later as OnConnected or DisconnectBluetooth.
   */
  function ToggleConnection(s: State): (r: State)
    ensures !r.connected
    ensures r.spiralActive == s.spiralActive && r.speed == s.speed && r.log == s.log
  {
    if s.connected then DisconnectBluetooth(s) else s
  }

  /** The connection attempt succeeded. */
  function OnConnected(s: State): (r: State)
    ensures r.connected
    ensures r.spiralActive == s.spiralActive && r.speed == s.speed && r.log == s.log
  {
    s.(connected := true)
  }

  /** Starts a spiral search; without a link nothing at all happens. */
  function StartSpiralSearch(s: State): (r: State)
    ensures !s.connected ==> r == s
    ensures s.connected ==> r.spiralActive && r.connected && r.speed == s.speed
    ensures s.connected ==> r.log == s.log + [Encode(SpiralStart(s.speed))]
  {
    if !s.connected then s
    else SendCommand(s.(spiralActive := true), Encode(SpiralStart(s.speed)))
  }

  /** Stops a spiral search, telling the rover if the link is up. */
  function StopSpiralSearch(s: State): (r: State)
    ensures !r.spiralActive
    ensures r.connected == s.connected && r.speed == s.speed
    ensures r.log == s.log + (if s.connected then [Encode(SpiralStop)] else [])
  {
    SendCommand(s.(spiralActive := false), Encode(SpiralStop))
  }

  /** The spiral button: starts a search when none runs, stops the running one. */
  function ToggleSpiral(s: State): (r: State)
    ensures r.spiralActive <==> !s.spiralActive && s.connected
    ensures r.connected == s.connected && r.speed == s.speed
    ensures r.log == s.log + (if !s.connected then []
                              else if s.spiralActive then [Encode(SpiralStop)]
                              else [Encode(SpiralStart(s.speed))])
  {
    if !s.spiralActive then StartSpiralSearch(s) else StopSpiralSearch(s)
  }

  /**
   * A motion event on a direction button. A press during a spiral only stops
   * the spiral; a release or cancel sends STOP whenever no spiral runs, whether
   * or not a press came before it.
   */
  function TouchDirection(s: State, d: Direction, a: TouchAction): (r: State)
    ensures r.connected == s.connected && r.speed == s.speed
    ensures a == Down ==> !r.spiralActive
    ensures a != Down ==> r.spiralActive == s.spiralActive
    ensures a == Down && s.spiralActive ==>
      r.log == s.log + (if s.connected then [Encode(SpiralStop)] else [])
    ensures a == Down && !s.spiralActive ==>
      r.log == s.log + (if s.connected then [Encode(Move(d, Start))] else [])
    ensures (a == Up || a == Cancel) ==>
      r.log == s.log + (if s.connected && !s.spiralActive then [Encode(Move(d, Stop))] else [])
    ensures a == Other ==> r == s
  {
    match a
    case Down =>
      if s.spiralActive then StopSpiralSearch(s) else SendCommand(s, Encode(Move(d, Start)))
    case Up | Cancel =>
      if !s.spiralActive then SendCommand(s, Encode(Move(d, Stop))) else s
    case Other => s
  }

  /** Teardown: stop the spiral (announcing it if the link is up), then close the link. */
  function OnDestroy(s: State): (r: State)
    ensures !r.connected && !r.spiralActive && r.speed == s.speed
    ensures r.log == s.log + (if s.connected then [Encode(SpiralStop)] else [])
  {
    DisconnectBluetooth(StopSpiralSearch(s))
  }

  function Step(s: State, e: Event): State {
    match e
    case SpeedButton => CycleSpeed(s)
    case ConnectButton => ToggleConnection(s)
    case DirectionTouch(d, a) => TouchDirection(s, d, a)
    case SpiralButton => ToggleSpiral(s)
    case ConnectSucceeded => OnConnected(s)
    case ConnectFailed => DisconnectBluetooth(s)
    case ActivityDestroyed => OnDestroy(s)
  }

  function Run(s: State, events: seq<Event>): State
    decreases |events|
  {
    if |events| == 0 then s else Run(Step(s, events[0]), events[1..])
  }

  // ---------------------------------------------------------------------
  // A reference table of what each event puts on the wire
  // ---------------------------------------------------------------------

  /** The command, if any, that event e sends from state s. */
  function Emitted(s: State, e: Event): Option<Command> {
    if !s.connected then None
    else match e
      case SpeedButton => if s.spiralActive then Some(SpiralSpeed(NextSpeed(s.speed))) else None
      case DirectionTouch(d, Down) => Some(if s.spiralActive then SpiralStop else Move(d, Start))
      case DirectionTouch(d, Up) => if s.spiralActive then None else Some(Move(d, Stop))
      case DirectionTouch(d, Cancel) => if s.spiralActive then None else Some(Move(d, Stop))
      case SpiralButton => Some(if s.spiralActive then SpiralStop else SpiralStart(s.speed))
      case ActivityDestroyed => Some(SpiralStop)
      case _ => None
  }

  function AsSeq(o: Option<Command>): seq<Command> {
    match o
    case None => []
    case Some(c) => [c]
  }

  /** The commands a sequence of events sends, in order. */
  function EmittedTrace(s: State, events: seq<Event>): seq<Command>
    decreases |events|
  {
    if |events| == 0 then []
    else AsSeq(Emitted(s, events[0])) + EmittedTrace(Step(s, events[0]), events[1..])
  }

  function EncodeAll(cs: seq<Command>): (r: seq<string>)
    ensures |r| == |cs|
    ensures forall i :: 0 <= i < |cs| ==> r[i] == Encode(cs[i])
  {
    seq(|cs|, i requires 0 <= i < |cs| => Encode(cs[i]))
  }

  lemma EncodeAllConcat(a: seq<Command>, b: seq<Command>)
    ensures EncodeAll(a + b) == EncodeAll(a) + EncodeAll(b)
  {
  }

  lemma EncodeAllOption(o: Option<Command>)
    ensures EncodeAll(AsSeq(o)) == if o.Some? then [Encode(o.value)] else []
  {
  }

  /** Each event appends exactly the line of the command the table names, and only with the link up. */
  lemma StepLog(s: State, e: Event)
    ensures Step(s, e).log == s.log + EncodeAll(AsSeq(Emitted(s, e)))
    ensures Emitted(s, e).Some? ==> s.connected
  {
    EncodeAllOption(Emitted(s, e));
    match e
    case SpeedButton =>
    case ConnectButton =>
    case DirectionTouch(d, a) =>
    case SpiralButton =>
    case ConnectSucceeded =>
    case ConnectFailed =>
    case ActivityDestroyed =>
  }

  /** The whole log of a run is the old log followed by the lines of the emitted commands. */
  lemma {:induction false} RunLog(s: State, events: seq<Event>)
    ensures Run(s, events).log == s.log + EncodeAll(EmittedTrace(s, events))
    decreases |events|
  {
    if |events| > 0 {
      var e := events[0];
      var t := Step(s, e);
      StepLog(s, e);
      RunLog(t, events[1..]);
      var a := AsSeq(Emitted(s, e));
      var b := EmittedTrace(t, events[1..]);
      assert Run(s, events) == Run(t, events[1..]);
      assert EmittedTrace(s, events) == a + b;
      EncodeAllConcat(a, b);
    }
  }

  lemma EncodingsDecode(cs: seq<Command>)
    ensures forall i :: 0 <= i < |cs| ==> Decode(EncodeAll(cs)[i]).Some?
  {
    forall i | 0 <= i < |cs|
      ensures Decode(EncodeAll(cs)[i]).Some?
    {
      DecodeEncode(cs[i]);
    }
  }

  /** Every line a run writes is a well-formed command of the wire protocol. */
  lemma RunWritesOnlyCommands(s: State, events: seq<Event>)
    ensures |Run(s, events).log| >= |s.log|
    ensures Run(s, events).log[..|s.log|] == s.log
    ensures forall i :: |s.log| <= i < |Run(s, events).log| ==> Decode(Run(s, events).log[i]).Some?
  {
    var log := Run(s, events).log;
    var written := EncodeAll(EmittedTrace(s, events));
    RunLog(s, events);
    EncodingsDecode(EmittedTrace(s, events));
    assert log == s.log + written;
    assert forall i :: |s.log| <= i < |log| ==> log[i] == written[i - |s.log|];
  }

  /** The speed stays in 1..3 through every event. */
  lemma StepPreservesValid(s: State, e: Event)
    requires Valid(s)
    ensures Valid(Step(s, e))
  {
  }

  lemma {:induction false} RunPreservesValid(s: State, events: seq<Event>)
    requires Valid(s)
    ensures Valid(Run(s, events))
    decreases |events|
  {
    if |events| > 0 {
      StepPreservesValid(s, events[0]);
      RunPreservesValid(Step(s, events[0]), events[1..]);
    }
  }

  /** Every reachable state keeps the speed in 1..3. */
  lemma ReachableValid(events: seq<Event>)
    ensures Valid(Run(Init(), events))
  {
    RunPreservesValid(Init(), events);
  }

  /** Without a successful connection nothing whatsoever reaches the wire. */
  lemma {:induction false} DisconnectedIsSilent(s: State, events: seq<Event>)
    requires !s.connected
    requires forall i :: 0 <= i < |events| ==> events[i] != ConnectSucceeded
    ensures !Run(s, events).connected
    ensures Run(s, events).log == s.log
    decreases |events|
  {
    if |events| > 0 {
      DisconnectedIsSilent(Step(s, events[0]), events[1..]);
    }
  }

  /** A spiral is switched on only by the spiral button, only with the link up, and it announces its speed. */
  lemma SpiralStartsOnlyWhenConnected(s: State, e: Event)
    requires !s.spiralActive && Step(s, e).spiralActive
    ensures e == SpiralButton && s.connected
    ensures Step(s, e).log == s.log + [Encode(SpiralStart(s.speed))]
  {
  }

  /** Closing the link twice is the same as closing it once. */
  lemma DisconnectIdempotent(s: State)
    ensures DisconnectBluetooth(DisconnectBluetooth(s)) == DisconnectBluetooth(s)
  {
  }

  // ---------------------------------------------------------------------
  // The speed button, pressed repeatedly
  // ---------------------------------------------------------------------

  function SpeedPresses(n: nat): (r: seq<Event>)
    ensures |r| == n && forall i :: 0 <= i < n ==> r[i] == SpeedButton
  {
    seq(n, i => SpeedButton)
  }

  /** After n presses the speed is n steps further round the cycle 1, 2, 3. */
  lemma {:induction false} SpeedAfterPresses(s: State, n: nat)
    requires Valid(s)
    ensures Run(s, SpeedPresses(n)).speed == (s.speed - 1 + n) % 3 + 1
    ensures Run(s, SpeedPresses(n)).connected == s.connected
    ensures Run(s, SpeedPresses(n)).spiralActive == s.spiralActive
    decreases n
  {
    if n > 0 {
      var t := Step(s, SpeedButton);
      assert SpeedPresses(n)[1..] == SpeedPresses(n - 1);
      SpeedAfterPresses(t, n - 1);
      assert t.speed - 1 == s.speed % 3;
      if s.speed == 3 {
        assert (n - 1) % 3 == (n + 2) % 3;
      }
    }
  }

  /** Three presses bring the speed back to where it was. */
  lemma ThreePressesRestoreSpeed(s: State)
    requires Valid(s)
    ensures Run(s, SpeedPresses(3)).speed == s.speed
  {
    SpeedAfterPresses(s, 3);
  }

  // ---------------------------------------------------------------------
  // Whole sessions
  // ---------------------------------------------------------------------

  /** The wire texts the sessions below write. */
  lemma WireTexts()
    ensures Encode(Move(North, Start)) == "NORTH,START\n"
    ensures Encode(Move(North, Stop)) == "NORTH,STOP\n"
    ensures Encode(Move(East, Stop)) == "EAST,STOP\n"
    ensures Encode(SpiralStart(1)) == "SPIRAL,START,1\n"
    ensures Encode(SpiralSpeed(2)) == "SPIRAL,SPEED,2\n"
    ensures Encode(SpiralStop) == "SPIRAL,STOP\n"
  {
    JoinTwo("NORTH", "START");
    JoinTwo("NORTH", "STOP");
    JoinTwo("EAST", "STOP");
    JoinTwo("SPIRAL", "STOP");
    assert IntToDecimal(1) == "1" && IntToDecimal(2) == "2";
    JoinThree("SPIRAL", "START", "1");
    JoinThree("SPIRAL", "SPEED", "2");
  }

  /** Connect, press North, release North. */
  lemma SessionDirection()
    ensures Run(Init(), [ConnectSucceeded, DirectionTouch(North, Down), DirectionTouch(North, Up)]).log
         == ["NORTH,START\n", "NORTH,STOP\n"]
  {
    WireTexts();
    var events := [ConnectSucceeded, DirectionTouch(North, Down), DirectionTouch(North, Up)];
    var s1 := OnConnected(Init());
    var s2 := TouchDirection(s1, North, Down);
    var s3 := TouchDirection(s2, North, Up);
    assert events[1..][1..][1..] == [];
    assert Run(Init(), events) == s3;
  }

  /** Connect, start a spiral, change its speed, stop it. */
  lemma SessionSpiral()
    ensures Run(Init(), [ConnectSucceeded, SpiralButton, SpeedButton, SpiralButton]).log
         == ["SPIRAL,START,1\n", "SPIRAL,SPEED,2\n", "SPIRAL,STOP\n"]
  {
    WireTexts();
    var events := [ConnectSucceeded, SpiralButton, SpeedButton, SpiralButton];
    var s1 := OnConnected(Init());
    var s2 := ToggleSpiral(s1);
    var s3 := CycleSpeed(s2);
    var s4 := ToggleSpiral(s3);
    assert events[1..][1..][1..][1..] == [];
    assert Run(Init(), events) == s4;
  }

  /** A press during a spiral stops the spiral and sends no direction command. */
  lemma SessionPreempt()
    ensures Run(Init(), [ConnectSucceeded, SpiralButton, DirectionTouch(North, Down), DirectionTouch(North, Up)]).log
         == ["SPIRAL,START,1\n", "SPIRAL,STOP\n", "NORTH,STOP\n"]
  {
    WireTexts();
    var events := [ConnectSucceeded, SpiralButton, DirectionTouch(North, Down), DirectionTouch(North, Up)];
    var s1 := OnConnected(Init());
    var s2 := ToggleSpiral(s1);
    var s3 := TouchDirection(s2, North, Down);
    var s4 := TouchDirection(s3, North, Up);
    assert events[1..][1..][1..][1..] == [];
    assert Run(Init(), events) == s4;
  }

  /** A release with no press before it still sends STOP. */
  lemma SessionStopWithoutStart()
    ensures Run(Init(), [ConnectSucceeded, DirectionTouch(East, Up), DirectionTouch(East, Cancel)]).log
         == ["EAST,STOP\n", "EAST,STOP\n"]
  {
    WireTexts();
    var events := [ConnectSucceeded, DirectionTouch(East, Up), DirectionTouch(East, Cancel)];
    var s1 := OnConnected(Init());
    var s2 := TouchDirection(s1, East, Up);
    var s3 := TouchDirection(s2, East, Cancel);
    assert events[1..][1..][1..] == [];
    assert Run(Init(), events) == s3;
  }

  /**
   * Disconnecting keeps the spiral flag: after reconnecting, the first press
   * stops a spiral the rover was told about in the earlier connection, and no
   * direction command is sent.
   */
  lemma SessionSpiralSurvivesDisconnect()
    ensures Run(Init(), [ConnectSucceeded, SpiralButton, ConnectButton]).spiralActive
    ensures Run(Init(), [ConnectSucceeded, SpiralButton, ConnectButton, ConnectSucceeded,
                         DirectionTouch(North, Down)]).log
         == ["SPIRAL,START,1\n", "SPIRAL,STOP\n"]
  {
    WireTexts();
    var events := [ConnectSucceeded, SpiralButton, ConnectButton, ConnectSucceeded, DirectionTouch(North, Down)];
    var s1 := OnConnected(Init());
    var s2 := ToggleSpiral(s1);
    var s3 := ToggleConnection(s2);
    var s4 := OnConnected(s3);
    var s5 := TouchDirection(s4, North, Down);
    assert events[1..][1..][1..][1..][1..] == [];
    assert [ConnectSucceeded, SpiralButton, ConnectButton][1..][1..][1..] == [];
    assert Run(Init(), [ConnectSucceeded, SpiralButton, ConnectButton]) == s3;
    assert Run(Init(), events) == s5;
  }

  /** Teardown with the link up sends SPIRAL,STOP even when no spiral runs. */
  lemma SessionDestroy()
    ensures Run(Init(), [ConnectSucceeded, ActivityDestroyed]).log == ["SPIRAL,STOP\n"]
    ensures !Run(Init(), [ConnectSucceeded, ActivityDestroyed]).connected
  {
    WireTexts();
    var events := [ConnectSucceeded, ActivityDestroyed];
    var s2 := OnDestroy(OnConnected(Init()));
    assert events[1..][1..] == [];
    assert Run(Init(), events) == s2;
  }
}
