/** The device state machine, the commands and what they do to a settled device
    (plugins/DaqServicePlugin.cxx, ChangeDeviceStateByMultiCommand and BySingleCommand). */
module DeviceStates {

  datatype State =
    | Idle | InitializingDevice | Initialized | Binding | Bound | Connecting | DeviceReady
    | InitializingTask | Ready | Running | ResettingTask | ResettingDevice | Exiting | Error

  datatype Transition = InitDevice | CompleteInit | Bind | Connect | InitTask | Run | Stop | ResetTask
    | ResetDevice | End

  /** A requested transition; one that does not exist leaves the state as it is. */
  function Fire(s: State, t: Transition): State {
    match (s, t)
    case (Idle, InitDevice) => InitializingDevice
    case (Idle, End) => Exiting
    case (InitializingDevice, CompleteInit) => Initialized
    case (Initialized, Bind) => Binding
    case (Initialized, ResetDevice) => ResettingDevice
    case (Bound, Connect) => Connecting
    case (Bound, ResetDevice) => ResettingDevice
    case (DeviceReady, InitTask) => InitializingTask
    case (DeviceReady, ResetDevice) => ResettingDevice
    case (Ready, Run) => Running
    case (Ready, ResetTask) => ResettingTask
    case (Running, Stop) => Ready
    case _ => s
  }

  /** The device goes on by itself from here. */
  predicate Passing(s: State) {
    s in {Binding, Connecting, InitializingTask, ResettingTask, ResettingDevice}
  }

  function Auto(s: State): State
    requires Passing(s)
  {
    match s
    case Binding => Bound
    case Connecting => DeviceReady
    case InitializingTask => Ready
    case ResettingTask => DeviceReady
    case ResettingDevice => Idle
  }

  /** What the device may do without a request: an automatic transition, the end of a run, or
      the exception exit. */
  predicate Spontaneous(a: State, b: State) {
    || (Passing(a) && b == Auto(a))
    || (a == Running && b == Ready)
    || (b == Error && a != Error && a != Exiting)
  }

  predicate Edge(a: State, b: State) {
    Spontaneous(a, b) || (a != b && exists t :: b == Fire(a, t))
  }

  predicate Path(p: seq<State>) {
    forall i :: 0 <= i < |p| - 1 ==> Edge(p[i], p[i + 1])
  }

  /** Each way back to InitializingDevice leads through ResettingDevice, where the topology of
      the cycle before is unregistered. */
  lemma BackThroughReset(p: seq<State>)
    requires Path(p) && |p| > 1 && p[0] == InitializingDevice && p[|p| - 1] == InitializingDevice
    ensures |p| > 3 && p[|p| - 3] == ResettingDevice && p[|p| - 2] == Idle
  {
    var z := |p| - 1;
    OnlyFromIdle(p[z - 1]);
    assert p[z - 1] == Idle && z > 1;
    OnlyFromReset(p[z - 2]);
    assert Edge(p[z - 2], p[z - 1]);
  }

  lemma OnlyFromIdle(a: State)
    ensures Edge(a, InitializingDevice) <==> a == Idle
  {
    assert Fire(Idle, InitDevice) == InitializingDevice;
  }

  lemma OnlyFromReset(a: State)
    ensures Edge(a, Idle) <==> a == ResettingDevice
  {
  }

  // ---- commands ---------------------------------------------------------------------------

  /** The command texts of the control channel. */
  datatype Command =
    | CmdInitDevice | CmdCompleteInit | CmdBind | CmdConnect | CmdInitTask | CmdRun | CmdStart | CmdStop
    | CmdResetTask | CmdResetDevice | CmdReset | CmdEnd | CmdExit | CmdQuit

  /** The states in which the control thread looks at a command. */
  predicate Settled(s: State) {
    !Passing(s) && s != Exiting && s != Error
  }

  /** The single transitions a command is broken into, by the state the device is in. */
  function Script(s: State, c: Command): seq<Transition> {
    match s
    case Idle => (
      match c
      case CmdInitDevice => [InitDevice, CompleteInit]
      case CmdCompleteInit => [InitDevice, CompleteInit]
      case CmdBind => [InitDevice, CompleteInit, Bind]
      case CmdConnect => [InitDevice, CompleteInit, Bind, Connect]
      case CmdInitTask => [InitDevice, CompleteInit, Bind, Connect, InitTask]
      case CmdRun => [InitDevice, CompleteInit, Bind, Connect, InitTask, Run]
      case CmdStart => [InitDevice, CompleteInit, Bind, Connect, InitTask, Run]
      case _ => [])
    case InitializingDevice => (
      match c
      case CmdCompleteInit => [CompleteInit]
      case CmdBind => [CompleteInit, Bind]
      case CmdConnect => [CompleteInit, Bind, Connect]
      case CmdInitTask => [CompleteInit, Bind, Connect, InitTask]
      case CmdRun => [CompleteInit, Bind, Connect, InitTask, Run]
      case CmdStart => [CompleteInit, Bind, Connect, InitTask, Run]
      case _ => [])
    case Initialized => (
      match c
      case CmdBind => [Bind]
      case CmdConnect => [Bind, Connect]
      case CmdInitTask => [Bind, Connect, InitTask]
      case CmdRun => [Bind, Connect, InitTask, Run]
      case CmdStart => [Bind, Connect, InitTask, Run]
      case CmdResetDevice => [ResetDevice]
      case CmdReset => [ResetDevice]
      case _ => [])
    case Bound => (
      match c
      case CmdConnect => [Connect]
      case CmdInitTask => [Connect, InitTask]
      case CmdRun => [Connect, InitTask, Run]
      case CmdStart => [Connect, InitTask, Run]
      case CmdResetDevice => [ResetDevice]
      case CmdReset => [ResetDevice]
      case _ => [])
    case DeviceReady => (
      match c
      case CmdInitTask => [InitTask]
      case CmdRun => [InitTask, Run]
      case CmdStart => [InitTask, Run]
      case CmdResetDevice => [ResetDevice]
      case CmdReset => [ResetDevice]
      case _ => [])
    case Ready => (
      match c
      case CmdRun => [Run]
      case CmdStart => [Run]
      case CmdResetTask => [ResetTask]
      case CmdResetDevice => [ResetTask, ResetDevice]
      case CmdReset => [ResetTask, ResetDevice]
      case _ => [])
    case Running => (
      match c
      case CmdStop => [Stop]
      case CmdResetTask => [Stop, ResetTask]
      case CmdResetDevice => [Stop, ResetTask, ResetDevice]
      case CmdReset => [Stop, ResetTask, ResetDevice]
      case _ => [])
    case _ => []
  }

  /** The state in which a single transition has the device settle again. */
  function Single(s: State, t: Transition): State {
    if t == End then s else
      var next := Fire(s, t);
      if Passing(next) then Auto(next) else next
  }

  function After(s: State, script: seq<Transition>): State
    decreases |script|
  {
    if script == [] then s else After(Single(s, script[0]), script[1..])
  }

  lemma AfterStep(s: State, script: seq<Transition>, i: nat)
    requires i < |script|
    ensures After(s, script[i..]) == After(Single(s, script[i]), script[i + 1..])
  {
    assert script[i..][0] == script[i] && script[i..][1..] == script[i + 1..];
  }

  function Outcome(s: State, c: Command): State {
    After(s, Script(s, c))
  }

  function FinalState(s: State, cmds: seq<Command>): State
    decreases |cmds|
  {
    if cmds == [] then s else FinalState(Outcome(s, cmds[0]), cmds[1..])
  }

  // ---- forward commands only move forward -------------------------------------------------

  function Level(s: State): int {
    match s
    case Idle => 0
    case InitializingDevice => 1
    case Initialized => 2
    case Bound => 3
    case DeviceReady => 4
    case Ready => 5
    case Running => 6
    case _ => -1
  }

  /** How far a forward command takes a device; INIT DEVICE is not one of them. */
  function Target(c: Command): int {
    match c
    case CmdCompleteInit => 2
    case CmdBind => 3
    case CmdConnect => 4
    case CmdInitTask => 5
    case CmdRun => 6
    case CmdStart => 6
    case _ => -1
  }

  function Max(a: int, b: int): int {
    if a < b then b else a
  }

  function Highest(level: int, cmds: seq<Command>): int
    decreases |cmds|
  {
    if cmds == [] then level else Highest(Max(level, Target(cmds[0])), cmds[1..])
  }

  const FORWARD: seq<Transition> := [InitDevice, CompleteInit, Bind, Connect, InitTask, Run]

  function Steps(from: nat, to: nat): seq<Transition>
    requires from <= to <= 6
  {
    FORWARD[from..to]
  }

  lemma OneStep(s: State)
    requires Settled(s) && Level(s) < 6
    ensures Settled(Single(s, FORWARD[Level(s)])) && Level(Single(s, FORWARD[Level(s)])) == Level(s) + 1
  {
  }

  lemma {:induction false} StepsReach(s: State, to: nat)
    requires Settled(s) && Level(s) <= to <= 6
    ensures Settled(After(s, Steps(Level(s), to))) && Level(After(s, Steps(Level(s), to))) == to
    decreases 6 - Level(s)
  {
    var l := Level(s);
    if l == to {
      assert Steps(l, to) == [];
    } else {
      OneStep(s);
      StepsReach(Single(s, FORWARD[l]), to);
      StepsTail(l, to);
    }
  }

  lemma StepsTail(from: nat, to: nat)
    requires from < to <= 6
    ensures Steps(from, to)[0] == FORWARD[from] && Steps(from, to)[1..] == Steps(from + 1, to)
  {
  }

  lemma ForwardScript(s: State, c: Command)
    requires Settled(s) && Target(c) >= 0
    ensures Script(s, c) == if Level(s) <= Target(c) then Steps(Level(s), Target(c)) else []
  {
    var l, t := Level(s), Target(c);
    if l <= t {
      var script := Script(s, c);
      assert |script| == t - l;
      forall k | 0 <= k < t - l ensures script[k] == FORWARD[l + k] {}
    }
  }

  lemma ForwardOutcome(s: State, c: Command)
    requires Settled(s) && Target(c) >= 0
    ensures Settled(Outcome(s, c)) && Level(Outcome(s, c)) == Max(Level(s), Target(c))
  {
    ForwardScript(s, c);
    if Level(s) <= Target(c) { StepsReach(s, Target(c)); }
  }

  lemma LevelDecides(s: State, t: State)
    requires Settled(s) && Settled(t) && Level(s) == Level(t)
    ensures s == t
  {
  }

  /** Any list of forward commands leaves a settled device at the highest of its own state and
      the commands' targets. */
  lemma {:induction false} ForwardCommandsReachMaximum(s: State, cmds: seq<Command>)
    requires Settled(s) && forall c :: c in cmds ==> Target(c) >= 0
    ensures Settled(FinalState(s, cmds)) && Level(FinalState(s, cmds)) == Highest(Level(s), cmds)
    decreases |cmds|
  {
    if cmds != [] {
      assert cmds[0] in cmds;
      ForwardOutcome(s, cmds[0]);
      assert forall c :: c in cmds[1..] ==> c in cmds;
      ForwardCommandsReachMaximum(Outcome(s, cmds[0]), cmds[1..]);
    }
  }

  lemma {:induction false} HighestIsBound(level: int, cmds: seq<Command>)
    ensures Highest(level, cmds) >= level
    ensures forall c :: c in cmds ==> Highest(level, cmds) >= Target(c)
    ensures Highest(level, cmds) == level || exists c :: c in cmds && Highest(level, cmds) == Target(c)
    decreases |cmds|
  {
    if cmds != [] {
      var next := Max(level, Target(cmds[0]));
      HighestIsBound(next, cmds[1..]);
      assert forall c :: c in cmds ==> c == cmds[0] || c in cmds[1..];
      assert cmds[0] in cmds && forall c :: c in cmds[1..] ==> c in cmds;
    }
  }

  /** Order and repetition do not matter: lists of the same forward commands have one result, so
      republishing earlier commands changes nothing and CONNECT; INIT TASK; RUN is RUN. */
  lemma OnlyTheHighestMatters(s: State, a: seq<Command>, b: seq<Command>)
    requires Settled(s) && (forall c :: c in a ==> Target(c) >= 0) && forall c :: c in b ==> Target(c) >= 0
    requires Reaches(a, b) && Reaches(b, a)
    ensures FinalState(s, a) == FinalState(s, b)
  {
    ForwardCommandsReachMaximum(s, a);
    ForwardCommandsReachMaximum(s, b);
    HighestGrows(Level(s), a, b);
    HighestGrows(Level(s), b, a);
    LevelDecides(FinalState(s, a), FinalState(s, b));
  }

  /** Every command of `a` is matched by one of `b` that goes at least as far. */
  ghost predicate Reaches(a: seq<Command>, b: seq<Command>) {
    forall c :: c in a ==> exists d :: d in b && Target(d) >= Target(c)
  }

  lemma HighestGrows(level: int, a: seq<Command>, b: seq<Command>)
    requires Reaches(a, b)
    ensures Highest(level, a) <= Highest(level, b)
  {
    HighestIsBound(level, a);
    HighestIsBound(level, b);
    if Highest(level, a) != level {
      var c :| c in a && Highest(level, a) == Target(c);
      var d :| d in b && Target(d) >= Target(c);
    }
  }

  /** INIT DEVICE would fit the rule, with Initialized as its target, from every settled state
      but InitializingDevice, where it does nothing. */
  lemma InitDeviceException(s: State)
    requires Settled(s)
    ensures Level(Outcome(s, CmdInitDevice)) == Max(Level(s), 2) <==> s != InitializingDevice
  {
    ForwardOutcome(Idle, CmdCompleteInit);
    assert Outcome(Idle, CmdInitDevice) == Outcome(Idle, CmdCompleteInit);
  }

  /** The commands that go back: each takes a device down to one state if it is above it, except
      that a device in InitializingDevice or Idle is not reset; the others only end the control
      thread's loop. */
  lemma BackwardOutcome(s: State, c: Command)
    requires Settled(s) && Target(c) < 0 && c != CmdInitDevice
    ensures Settled(Outcome(s, c))
    ensures Outcome(s, c) == match c
                             case CmdStop => if s == Running then Ready else s
                             case CmdResetTask => if Level(s) >= Level(Ready) then DeviceReady else s
                             case CmdResetDevice => if Level(s) >= Level(Initialized) then Idle else s
                             case CmdReset => if Level(s) >= Level(Initialized) then Idle else s
                             case _ => s
  {
    BackwardScript(s, c);
    Downs(s);
  }

  lemma Downs(s: State)
    ensures After(Running, [Stop]) == Ready && After(Running, [Stop, ResetTask]) == DeviceReady
    ensures After(Running, [Stop, ResetTask, ResetDevice]) == Idle
    ensures After(Ready, [ResetTask]) == DeviceReady && After(Ready, [ResetTask, ResetDevice]) == Idle
    ensures s in {Initialized, Bound, DeviceReady} ==> After(s, [ResetDevice]) == Idle
    ensures After(s, []) == s
  {
    AfterShort(Running, [Stop]);
    AfterShort(Running, [Stop, ResetTask]);
    AfterShort(Running, [Stop, ResetTask, ResetDevice]);
    AfterShort(Ready, [ResetTask]);
    AfterShort(Ready, [ResetTask, ResetDevice]);
    AfterShort(s, [ResetDevice]);
  }

  lemma BackwardScript(s: State, c: Command)
    requires Settled(s) && Target(c) < 0 && c != CmdInitDevice
    ensures Script(s, c) == match c
                            case CmdStop => if s == Running then [Stop] else []
                            case CmdResetTask => if s == Running then [Stop, ResetTask]
                              else if s == Ready then [ResetTask] else []
                            case CmdEnd => []
                            case CmdExit => []
                            case CmdQuit => []
                            case _ => if s == Running then [Stop, ResetTask, ResetDevice]
                              else if s == Ready then [ResetTask, ResetDevice]
                                      else if Level(s) >= Level(Initialized) then [ResetDevice] else []
  {
  }

  lemma AfterShort(s: State, script: seq<Transition>)
    requires |script| <= 3
    ensures After(s, script) == if |script| == 0 then s
                                else if |script| == 1 then Single(s, script[0])
                                else if |script| == 2 then Single(Single(s, script[0]), script[1])
                                else Single(Single(Single(s, script[0]), script[1]), script[2])
  {
    if |script| >= 1 { AfterStep(s, script, 0); }
    if |script| >= 2 { AfterStep(Single(s, script[0]), script, 1); }
    if |script| >= 3 { AfterStep(Single(Single(s, script[0]), script[1]), script, 2); }
    assert script[0..] == script;
  }

  // ---- starting up ------------------------------------------------------------------------

  /** The lower-case names that end the startup sequence before its k-th transition. */
  const STOPS: seq<set<string>> := [{"idle"}, {"initialingdevice", "initializing-device"}, {"initialized"}, {"bound"},
    {"deviceready", "device-ready"}, {"ready"}]

  /** How many transitions the startup sequence makes; a name it does not know is no reason to
      stop. */
  function StartupSteps(startup: string, from: nat): (n: nat)
    requires from <= 6
    ensures from <= n <= 6 && (n < 6 ==> startup in STOPS[n]) && forall k :: from <= k < n ==> startup !in STOPS[k]
    decreases 6 - from
  {
    if from == 6 || startup in STOPS[from] then from else StartupSteps(startup, from + 1)
  }

  /** The comparison before the k-th transition. */
  method StopsHere(startup: string, k: nat) returns (stop: bool)
    requires k < 6 && k <= StartupSteps(startup, 0)
    ensures stop <==> k == StartupSteps(startup, 0)
  {
    stop := startup in STOPS[k];
  }

  /** The startup sequence takes an idle device as far as the named state, and all the way to
      Running for any other text; for each of the later states that is what the corresponding
      command does. */
  lemma StartupReaches(startup: string)
    ensures var s := After(Idle, FORWARD[..StartupSteps(startup, 0)]);
            && Settled(s) && Level(s) == StartupSteps(startup, 0)
            && (s == Running <==> forall k :: 0 <= k < 6 ==> startup !in STOPS[k])
            && forall c :: Target(c) == StartupSteps(startup, 0) ==> s == Outcome(Idle, c)
  {
    var n := StartupSteps(startup, 0);
    StepsReach(Idle, n);
    assert FORWARD[..n] == Steps(0, n);
    var s := After(Idle, FORWARD[..n]);
    forall c | Target(c) == n ensures s == Outcome(Idle, c) {
      ForwardOutcome(Idle, c);
      LevelDecides(s, Outcome(Idle, c));
    }
    if s == Running { assert n == 6; }
    if n == 6 { LevelDecides(s, Running); }
  }
}
