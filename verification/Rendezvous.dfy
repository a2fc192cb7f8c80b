/** The Bound rendezvous of all instances of a topology: publish the bind addresses, wait for
    the peers' bind addresses, resolve, wait for the peers' connections; and what becomes of it
    when instances are reset on the way (plugins/TopologyConfig.cxx, OnDeviceStateChange and the
    functions it calls). */
module Rendezvous {

  type Name = string

  /** For each instance: its binding channels; the binding channels its connecting channels wait
      for; the instances whose connection its binding channels wait for; the state it is told to
      go on to once it is connected. */
  datatype Device = Device(binds: seq<Name>, needs: seq<Name>, waits: set<Name>, pipeline: seq<Command>, goal: nat)

  /** The states from DeviceReady on; all but InitializingTask can be the last. */
  const DEVICE_READY: nat := 0
  const INITIALIZING_TASK: nat := 1
  const READY: nat := 2
  const RUNNING: nat := 3

  datatype Setup = Setup(devices: map<Name, Device>, sockets: map<Name, nat>)

  ghost predicate Valid(c: Setup) {
    && (forall x :: x in c.devices ==> ValidDevice(c, c.devices[x]))
    && (forall x, y, ch :: Owns(c, x, ch) && Owns(c, y, ch) ==> x == y)
  }

  predicate Owns(c: Setup, x: Name, ch: Name) {
    x in c.devices && ch in c.devices[x].binds
  }

  ghost predicate ValidDevice(c: Setup, d: Device) {
    && (forall ch :: ch in d.binds ==> ch in c.sockets)
    && d.pipeline == Pipeline(d.binds, c.sockets)
    && (forall ch :: ch in d.needs ==> exists y :: y in c.devices && ch in c.devices[y].binds)
    && d.waits <= c.devices.Keys && d.goal in {DEVICE_READY, READY, RUNNING}
  }

  // ---- the pipeline of an instance --------------------------------------------------------

  datatype Command = SetSocket(channel: Name, index: nat) | SetBound(channel: Name)

  function SocketCommands(channel: Name, n: nat): (r: seq<Command>)
    ensures |r| == n && forall i :: 0 <= i < n ==> r[i] == SetSocket(channel, i)
  {
    seq(n, i requires 0 <= i < n => SetSocket(channel, i))
  }

  /** Channel by channel, the socket hashes are queued before the bound mark. */
  function Pipeline(channels: seq<Name>, sockets: map<Name, nat>): seq<Command>
    requires forall ch :: ch in channels ==> ch in sockets
  {
    if channels == [] then [] else
      SocketCommands(channels[0], sockets[channels[0]]) + [SetBound(channels[0])] + Pipeline(channels[1..], sockets)
  }

  lemma {:induction false} SocketsBeforeBound(channels: seq<Name>, sockets: map<Name, nat>, m: nat, i: nat)
      returns (j: nat)
    requires forall ch :: ch in channels ==> ch in sockets
    requires m < |Pipeline(channels, sockets)| && Pipeline(channels, sockets)[m].SetBound?
    requires Pipeline(channels, sockets)[m].channel in sockets && i < sockets[Pipeline(channels, sockets)[m].channel]
    ensures j < m && Pipeline(channels, sockets)[j] == SetSocket(Pipeline(channels, sockets)[m].channel, i)
  {
    var n := sockets[channels[0]];
    if m <= n {
      j := i;
    } else {
      j := SocketsBeforeBound(channels[1..], sockets, m - n - 1, i);
      j := j + n + 1;
    }
  }

  lemma {:induction false} BoundIsQueued(channels: seq<Name>, sockets: map<Name, nat>, ch: Name) returns (m: nat)
    requires forall c :: c in channels ==> c in sockets
    requires ch in channels
    ensures m < |Pipeline(channels, sockets)| && Pipeline(channels, sockets)[m] == SetBound(ch)
  {
    var n := sockets[channels[0]];
    if ch == channels[0] {
      m := n;
    } else {
      m := BoundIsQueued(channels[1..], sockets, ch);
      m := m + n + 1;
    }
  }

  lemma {:induction false} PipelineIsOwn(channels: seq<Name>, sockets: map<Name, nat>, cmd: Command)
    requires forall c :: c in channels ==> c in sockets
    requires cmd in Pipeline(channels, sockets)
    ensures cmd.channel in channels
  {
    if cmd !in SocketCommands(channels[0], sockets[channels[0]]) + [SetBound(channels[0])] {
      PipelineIsOwn(channels[1..], sockets, cmd);
    }
  }

  // ---- the steps --------------------------------------------------------------------------

  /** Up(l) is the state l of a connected instance. */
  datatype Phase =
    | Publishing(done: nat)
    | WaitingBound(k: nat)
    | Resolving
    | WritingConnect
    | WaitingPeers
    | Up(level: nat)
    | Cancelled
    | Down

  datatype State = State(sockets: set<(Name, nat)>, bound: set<Name>, phase: map<Name, Phase>)

  function Apply(s: State, cmd: Command): State {
    match cmd
    case SetSocket(ch, i) => s.(sockets := s.sockets + {(ch, i)})
    case SetBound(ch) => s.(bound := s.bound + {ch})
  }

  function Move(s: State, x: Name, p: Phase): State {
    s.(phase := s.phase[x := p])
  }

  ghost predicate Init(c: Setup, s: State) {
    && s.phase.Keys == c.devices.Keys && s.sockets == {} && s.bound == {}
    && forall x :: x in s.phase ==> s.phase[x] == Publishing(0)
  }

  predicate AllAt(s: State, names: set<Name>, level: nat) {
    forall y :: y in names ==> y in s.phase && s.phase[y] == Up(level)
  }

  /** The states shown by the peers are all one and the same target. */
  predicate PeersAgree(s: State, names: set<Name>) {
    AllAt(s, names, DEVICE_READY) || AllAt(s, names, READY) || AllAt(s, names, RUNNING)
  }

  /** What stops an instance: a peer channel not yet bound, peers in different states, or having
      got where it should. */
  predicate Enabled(d: Device, s: State, p: Phase) {
    match p
    case WaitingBound(k) => k < |d.needs| ==> d.needs[k] in s.bound
    case WaitingPeers => PeersAgree(s, d.waits)
    case Up(l) => l < d.goal
    case Cancelled => false
    case Down => false
    case _ => true
  }

  function NextPhase(d: Device, p: Phase): Phase {
    match p
    case Publishing(n) => if n < |d.pipeline| then Publishing(n + 1) else WaitingBound(0)
    case WaitingBound(k) => if k < |d.needs| then WaitingBound(k + 1) else Resolving
    case Resolving => WritingConnect
    case WritingConnect => WaitingPeers
    case WaitingPeers => Up(DEVICE_READY)
    case Up(l) => Up(l + 1)
    case _ => p
  }

  /** The next phase, with the command executed on the way, if any. */
  function Step(d: Device, s: State, x: Name): State
    requires x in s.phase
  {
    var p := s.phase[x];
    var t := if p.Publishing? && p.done < |d.pipeline| then Apply(s, d.pipeline[p.done]) else s;
    Move(t, x, NextPhase(d, p))
  }

  ghost predicate Steps(c: Setup, s: State, x: Name, t: State) {
    x in c.devices && x in s.phase && Enabled(c.devices[x], s, s.phase[x]) && t == Step(c.devices[x], s, x)
  }

  ghost predicate Next(c: Setup, s: State, t: State) {
    exists x :: Steps(c, s, x, t)
  }

  ghost predicate CanMove(c: Setup, s: State) {
    exists t :: Next(c, s, t)
  }

  /** A reset or shutdown request ends what an instance is doing. */
  ghost predicate Cancels(s: State, x: Name, t: State) {
    x in s.phase && s.phase[x] !in {Cancelled, Down} && !s.phase[x].Publishing? && t == Move(s, x, Cancelled)
  }

  function OwnSockets(s: State, binds: seq<Name>): set<(Name, nat)> {
    set a | a in s.sockets && a.0 in binds
  }

  function OwnBound(s: State, binds: seq<Name>): set<Name> {
    set ch | ch in s.bound && ch in binds
  }

  function ResetOf(s: State, x: Name, binds: seq<Name>): State {
    State(s.sockets - OwnSockets(s, binds), s.bound - OwnBound(s, binds), s.phase[x := Down])
  }

  /** The reset that follows removes the instance's keys from the registry. */
  ghost predicate Resets(c: Setup, s: State, x: Name, t: State) {
    x in c.devices && x in s.phase && s.phase[x] == Cancelled && t == ResetOf(s, x, c.devices[x].binds)
  }

  /** An instance that was reset may be started again. */
  ghost predicate Restarts(s: State, x: Name, t: State) {
    x in s.phase && s.phase[x] == Down && t == Move(s, x, Publishing(0))
  }

  ghost predicate Disturbs(c: Setup, s: State, x: Name, t: State) {
    Cancels(s, x, t) || Resets(c, s, x, t) || Restarts(s, x, t)
  }

  ghost predicate NextOrDisturbed(c: Setup, s: State, t: State) {
    Next(c, s, t) || exists x :: Disturbs(c, s, x, t)
  }

  ghost predicate NextAt(c: Setup, run: seq<State>, i: nat) {
    i + 1 < |run| ==> Next(c, run[i], run[i + 1])
  }

  ghost predicate Run(c: Setup, run: seq<State>) {
    run != [] && Init(c, run[0]) && forall i: nat :: NextAt(c, run, i)
  }

  ghost predicate DisturbedAt(c: Setup, run: seq<State>, i: nat) {
    i + 1 < |run| ==> NextOrDisturbed(c, run[i], run[i + 1])
  }

  ghost predicate DisturbedRun(c: Setup, run: seq<State>) {
    run != [] && Init(c, run[0]) && forall i: nat :: DisturbedAt(c, run, i)
  }

  function Last(run: seq<State>): State
    requires run != []
  {
    run[|run| - 1]
  }

  // ---- the registry holds exactly what has been published ---------------------------------

  function Executed(d: Device, p: Phase): seq<Command> {
    match p
    case Publishing(n) => if n <= |d.pipeline| then d.pipeline[..n] else d.pipeline
    case Down => []
    case _ => d.pipeline
  }

  /** How many of its peers' channels an instance has seen bound. */
  function SeenBound(d: Device, p: Phase): nat {
    match p
    case WaitingBound(k) => k
    case Resolving => |d.needs|
    case WritingConnect => |d.needs|
    case WaitingPeers => |d.needs|
    case Up(_) => |d.needs|
    case _ => 0
  }

  ghost predicate PhaseOk(d: Device, p: Phase) {
    && (p.Publishing? ==> p.done <= |d.pipeline|)
    && (p.WaitingBound? ==> p.k <= |d.needs|)
    && (p.Up? ==> p.level <= d.goal)
  }

  /** An instance's channels and sub-sockets are in the registry as far as it has published them. */
  ghost predicate Exact(s: State, d: Device, p: Phase) {
    && (forall ch :: ch in d.binds ==> (ch in s.bound <==> SetBound(ch) in Executed(d, p)))
    && (forall ch, i: nat :: ch in d.binds ==> ((ch, i) in s.sockets <==> SetSocket(ch, i) in Executed(d, p)))
  }

  ghost predicate InvAt(d: Device, s: State, p: Phase) {
    PhaseOk(d, p) && Exact(s, d, p)
  }

  ghost predicate Inv(c: Setup, s: State) {
    s.phase.Keys == c.devices.Keys && forall x :: x in c.devices ==> InvAt(c.devices[x], s, s.phase[x])
  }

  /** Nothing has changed for other channels than these. */
  ghost predicate OnlyChanged(s: State, t: State, binds: seq<Name>) {
    && (forall ch :: ch !in binds ==> (ch in t.bound <==> ch in s.bound))
    && (forall ch, i: nat :: ch !in binds ==> ((ch, i) in t.sockets <==> (ch, i) in s.sockets))
  }

  lemma ExecutedNext(d: Device, n: nat, cmd: Command)
    requires n < |d.pipeline|
    ensures cmd in Executed(d, Publishing(n + 1)) <==> cmd in Executed(d, Publishing(n)) || cmd == d.pipeline[n]
  {
    assert d.pipeline[..n + 1] == d.pipeline[..n] + [d.pipeline[n]];
  }

  lemma StepExact(c: Setup, d: Device, s: State, x: Name)
    requires ValidDevice(c, d) && x in s.phase && InvAt(d, s, s.phase[x]) && Enabled(d, s, s.phase[x])
    ensures InvAt(d, Step(d, s, x), NextPhase(d, s.phase[x])) && OnlyChanged(s, Step(d, s, x), d.binds)
  {
    var p, t := s.phase[x], Step(d, s, x);
    if p.Publishing? && p.done < |d.pipeline| {
      PipelineIsOwn(d.binds, c.sockets, d.pipeline[p.done]);
      forall ch
        ensures SetBound(ch) in Executed(d, NextPhase(d, p)) <==>
            SetBound(ch) in Executed(d, p) || SetBound(ch) == d.pipeline[p.done]
      {
        ExecutedNext(d, p.done, SetBound(ch));
      }
      forall ch, i: nat
        ensures SetSocket(ch, i) in Executed(d, NextPhase(d, p)) <==>
            SetSocket(ch, i) in Executed(d, p) || SetSocket(ch, i) == d.pipeline[p.done]
      {
        ExecutedNext(d, p.done, SetSocket(ch, i));
      }
    } else {
      assert p.Publishing? ==> d.pipeline[..p.done] == d.pipeline;
      assert Executed(d, NextPhase(d, p)) == Executed(d, p);
    }
  }

  lemma ResetExact(d: Device, s: State, x: Name)
    ensures InvAt(d, ResetOf(s, x, d.binds), Down) && OnlyChanged(s, ResetOf(s, x, d.binds), d.binds)
  {
  }

  lemma OwnedByOne(c: Setup, x: Name, y: Name, ch: Name)
    requires Valid(c) && x in c.devices && y in c.devices && ch in c.devices[x].binds && ch in c.devices[y].binds
    ensures x == y
  {
    assert Owns(c, x, ch) && Owns(c, y, ch);
  }

  lemma InvMove(c: Setup, s: State, t: State, x: Name)
    requires Valid(c) && Inv(c, s) && x in c.devices && x in t.phase && t.phase == s.phase[x := t.phase[x]]
    requires InvAt(c.devices[x], t, t.phase[x]) && OnlyChanged(s, t, c.devices[x].binds)
    ensures Inv(c, t)
  {
    forall y | y in c.devices ensures InvAt(c.devices[y], t, t.phase[y]) {
      if y != x {
        assert InvAt(c.devices[y], s, s.phase[y]);
        forall ch | ch in c.devices[y].binds ensures ch !in c.devices[x].binds {
          if ch in c.devices[x].binds { OwnedByOne(c, x, y, ch); }
        }
      }
    }
  }

  lemma InvStep(c: Setup, s: State, t: State)
    requires Valid(c) && Inv(c, s) && NextOrDisturbed(c, s, t)
    ensures Inv(c, t)
  {
    if Next(c, s, t) {
      var x :| Steps(c, s, x, t);
      InvNext(c, s, t, x);
    } else {
      var x :| Disturbs(c, s, x, t);
      InvDisturbed(c, s, t, x);
    }
  }

  lemma InvNext(c: Setup, s: State, t: State, x: Name)
    requires Valid(c) && Inv(c, s) && Steps(c, s, x, t)
    ensures Inv(c, t)
  {
    assert ValidDevice(c, c.devices[x]) && InvAt(c.devices[x], s, s.phase[x]);
    StepExact(c, c.devices[x], s, x);
    InvMove(c, s, t, x);
  }

  lemma InvDisturbed(c: Setup, s: State, t: State, x: Name)
    requires Valid(c) && Inv(c, s) && Disturbs(c, s, x, t)
    ensures Inv(c, t)
  {
    assert InvAt(c.devices[x], s, s.phase[x]);
    DisturbExact(c, c.devices[x], s, x, t);
    InvMove(c, s, t, x);
  }

  lemma DisturbExact(c: Setup, d: Device, s: State, x: Name, t: State)
    requires Disturbs(c, s, x, t) && x in c.devices && d == c.devices[x] && InvAt(d, s, s.phase[x])
    ensures InvAt(d, t, t.phase[x]) && OnlyChanged(s, t, d.binds)
  {
    if Resets(c, s, x, t) {
      ResetExact(d, s, x);
    } else if Restarts(s, x, t) {
      assert Executed(d, Publishing(0)) == [];
    } else {
      assert Executed(d, Cancelled) == Executed(d, s.phase[x]);
    }
  }

  lemma InvInit(c: Setup, s: State)
    requires Init(c, s)
    ensures Inv(c, s)
  {
    forall x | x in c.devices ensures InvAt(c.devices[x], s, s.phase[x]) {
      assert Executed(c.devices[x], Publishing(0)) == [];
    }
  }

  lemma {:induction false} InvAlways(c: Setup, run: seq<State>, i: nat)
    requires Valid(c) && DisturbedRun(c, run) && i < |run|
    ensures Inv(c, run[i])
  {
    if i == 0 {
      InvInit(c, run[0]);
    } else {
      InvAlways(c, run, i - 1);
      StepAt(c, run, i - 1);
      InvStep(c, run[i - 1], run[i]);
    }
  }

  // ---- the addresses an instance looks up -------------------------------------------------

  predicate AllPresent(c: Setup, s: State, ch: Name)
    requires ch in c.sockets
  {
    forall i: nat :: i < c.sockets[ch] ==> (ch, i) in s.sockets
  }

  /** While its channel is bound, all sub-sockets of an instance are in the registry, for they are
      queued before the bound mark. */
  lemma BoundHasAddresses(c: Setup, s: State, y: Name, ch: Name)
    requires Valid(c) && Inv(c, s) && y in c.devices && ch in c.devices[y].binds && ch in s.bound
    ensures ch in c.sockets && AllPresent(c, s, ch)
  {
    var d := c.devices[y];
    assert ValidDevice(c, d) && InvAt(d, s, s.phase[y]);
    var done := Executed(d, s.phase[y]);
    var m :| 0 <= m < |done| && done[m] == SetBound(ch);
    forall i: nat | i < c.sockets[ch] ensures (ch, i) in s.sockets {
      var j := SocketsBeforeBound(d.binds, c.sockets, m, i);
      assert done[j] in done;
    }
  }

  lemma DownHasNone(c: Setup, s: State, y: Name, ch: Name)
    requires Inv(c, s) && y in c.devices && ch in c.devices[y].binds && s.phase[y] == Down
    ensures ch !in s.bound && forall i: nat :: (ch, i) !in s.sockets
  {
    assert InvAt(c.devices[y], s, s.phase[y]);
  }

  /** This instance has not been reset from the i-th state of the run on. */
  ghost predicate UpSince(run: seq<State>, i: nat, y: Name) {
    forall m :: i <= m < |run| ==> y in run[m].phase && run[m].phase[y] != Down
  }

  /** It has not been started again from then on. */
  ghost predicate NotRestarted(run: seq<State>, i: nat, y: Name) {
    forall m: nat :: i <= m ==> KeptDown(run, m, y)
  }

  ghost predicate IsDown(s: State, y: Name) {
    y in s.phase && s.phase[y] == Down
  }

  ghost predicate KeptDown(run: seq<State>, m: nat, y: Name) {
    m + 1 < |run| && IsDown(run[m], y) ==> IsDown(run[m + 1], y)
  }

  lemma StepKeepsBound(c: Setup, s: State, t: State)
    requires Next(c, s, t)
    ensures s.bound <= t.bound
  {
  }

  lemma DisturbKeepsBound(c: Setup, s: State, t: State, x: Name, y: Name, ch: Name)
    requires Valid(c) && Disturbs(c, s, x, t) && y in c.devices && ch in c.devices[y].binds && ch in s.bound
    requires y in t.phase && t.phase[y] != Down
    ensures ch in t.bound
  {
    if Resets(c, s, x, t) && ch in c.devices[x].binds { OwnedByOne(c, x, y, ch); }
  }

  lemma BoundStays(c: Setup, s: State, t: State, y: Name, ch: Name)
    requires Valid(c) && NextOrDisturbed(c, s, t) && y in c.devices && ch in c.devices[y].binds && ch in s.bound
    requires y in t.phase && t.phase[y] != Down
    ensures ch in t.bound
  {
    if Next(c, s, t) {
      StepKeepsBound(c, s, t);
    } else {
      var x :| Disturbs(c, s, x, t);
      DisturbKeepsBound(c, s, t, x, y, ch);
    }
  }

  lemma {:induction false} StillBound(c: Setup, run: seq<State>, i: nat, j: nat, y: Name, ch: Name)
    requires Valid(c) && DisturbedRun(c, run) && i <= j < |run| && y in c.devices && ch in c.devices[y].binds
    requires ch in run[i].bound && forall m :: i <= m <= j ==> y in run[m].phase && run[m].phase[y] != Down
    ensures ch in run[j].bound
  {
    if i < j {
      StillBound(c, run, i, j - 1, y, ch);
      BoundStaysAt(c, run, j - 1, y, ch);
    }
  }

  lemma BoundStaysAt(c: Setup, run: seq<State>, j: nat, y: Name, ch: Name)
    requires Valid(c) && DisturbedRun(c, run) && j + 1 < |run| && y in c.devices && ch in c.devices[y].binds
    requires ch in run[j].bound && y in run[j + 1].phase && run[j + 1].phase[y] != Down
    ensures ch in run[j + 1].bound
  {
    StepAt(c, run, j);
    BoundStays(c, run[j], run[j + 1], y, ch);
  }

  lemma StepAt(c: Setup, run: seq<State>, j: nat)
    requires DisturbedRun(c, run) && j + 1 < |run|
    ensures NextOrDisturbed(c, run[j], run[j + 1])
  {
    assert DisturbedAt(c, run, j);
  }

  lemma {:induction false} StaysDown(run: seq<State>, i: nat, m: nat, j: nat, y: Name)
    requires NotRestarted(run, i, y) && i <= m <= j < |run| && y in run[m].phase && run[m].phase[y] == Down
    ensures y in run[j].phase && run[j].phase[y] == Down
  {
    if m < j {
      StaysDown(run, i, m, j - 1, y);
      assert KeptDown(run, j - 1, y);
    }
  }

  /** At the i-th state the instance was still waiting for the channel, which was bound; from the
      next state on to the j-th it was past that wait. */
  ghost predicate SeenAt(d: Device, run: seq<State>, i: nat, j: nat, x: Name, k: nat)
    requires k < |d.needs|
  {
    && i <= j < |run| && d.needs[k] in run[i].bound && x in run[i].phase && SeenBound(d, run[i].phase[x]) <= k
    && forall m :: i < m <= j ==> x in run[m].phase && k < SeenBound(d, run[m].phase[x])
  }

  ghost predicate SomeSeen(d: Device, run: seq<State>, j: nat, x: Name, k: nat)
    requires k < |d.needs|
  {
    exists i: nat :: SeenAt(d, run, i, j, x, k)
  }

  /** When an instance has passed the wait for a channel, there was a state of the run in which
      the channel was bound. */
  lemma {:induction false} WasBound(c: Setup, run: seq<State>, x: Name, k: nat, j: nat)
    requires Valid(c) && DisturbedRun(c, run) && j < |run| && x in c.devices && k < |c.devices[x].needs|
    ensures x in run[j].phase
    ensures SeenBound(c.devices[x], run[j].phase[x]) <= k || SomeSeen(c.devices[x], run, j, x, k)
  {
    if j == 0 {
      SeesNothing(c, run[0], x);
    } else {
      WasBound(c, run, x, k, j - 1);
      StillSeen(c, run, x, k, j - 1, j);
    }
  }

  lemma StillSeen(c: Setup, run: seq<State>, x: Name, k: nat, j: nat, next: nat)
    requires Valid(c) && DisturbedRun(c, run) && next == j + 1 < |run| && x in c.devices && k < |c.devices[x].needs|
    requires x in run[j].phase
    requires SeenBound(c.devices[x], run[j].phase[x]) <= k || SomeSeen(c.devices[x], run, j, x, k)
    ensures x in run[next].phase
    ensures SeenBound(c.devices[x], run[next].phase[x]) <= k || SomeSeen(c.devices[x], run, next, x, k)
  {
    InvAlways(c, run, j);
    InvAlways(c, run, next);
    StepAt(c, run, j);
    JustSeen(c, run[j], run[next], x, k);
    if SeenBound(c.devices[x], run[next].phase[x]) > k { SeenOn(c.devices[x], run, j, next, x, k); }
  }

  lemma SeenOn(d: Device, run: seq<State>, j: nat, next: nat, x: Name, k: nat)
    requires next == j + 1 < |run| && k < |d.needs| && x in run[next].phase && k < SeenBound(d, run[next].phase[x])
    requires x in run[j].phase
    requires SomeSeen(d, run, j, x, k) || (d.needs[k] in run[j].bound && SeenBound(d, run[j].phase[x]) <= k)
    ensures SomeSeen(d, run, next, x, k)
  {
    if SomeSeen(d, run, j, x, k) {
      var i: nat :| SeenAt(d, run, i, j, x, k);
      assert SeenAt(d, run, i, next, x, k);
    } else {
      assert SeenAt(d, run, j, next, x, k);
    }
  }

  lemma SeesNothing(c: Setup, s: State, x: Name)
    requires Init(c, s) && x in c.devices
    ensures x in s.phase && SeenBound(c.devices[x], s.phase[x]) == 0
  {
  }

  lemma DisturbedSeesLess(c: Setup, s: State, t: State, x: Name, y: Name)
    requires Disturbs(c, s, y, t) && x in c.devices && x in s.phase && x in t.phase
    ensures SeenBound(c.devices[x], t.phase[x]) <= SeenBound(c.devices[x], s.phase[x])
  {
  }

  lemma JustSeen(c: Setup, s: State, t: State, x: Name, k: nat)
    requires Inv(c, s) && Inv(c, t) && NextOrDisturbed(c, s, t) && x in c.devices && k < |c.devices[x].needs|
    ensures SeenBound(c.devices[x], t.phase[x]) <= k || SeenBound(c.devices[x], s.phase[x]) > k ||
        c.devices[x].needs[k] in s.bound
  {
    if Next(c, s, t) {
      var y :| Steps(c, s, y, t);
      assert InvAt(c.devices[x], s, s.phase[x]);
    } else {
      var y :| Disturbs(c, s, y, t);
      DisturbedSeesLess(c, s, t, x, y);
    }
  }

  /** An instance in this phase has published all sub-sockets of a channel. */
  predicate PublishedBy(c: Setup, d: Device, p: Phase, ch: Name)
    requires ch in c.sockets
  {
    forall i: nat :: i < c.sockets[ch] ==> SetSocket(ch, i) in Executed(d, p)
  }

  lemma PresentIffPublished(c: Setup, s: State, y: Name, ch: Name)
    requires Inv(c, s) && y in c.devices && ch in c.devices[y].binds && ch in c.sockets
    ensures AllPresent(c, s, ch) <==> PublishedBy(c, c.devices[y], s.phase[y], ch)
  {
    assert InvAt(c.devices[y], s, s.phase[y]);
    forall i: nat | i < c.sockets[ch]
      ensures (ch, i) in s.sockets <==> SetSocket(ch, i) in Executed(c.devices[y], s.phase[y])
    {
    }
  }

  lemma PresentUpSince(c: Setup, run: seq<State>, i: nat, y: Name, ch: Name)
    requires Valid(c) && DisturbedRun(c, run) && i < |run| && ch in run[i].bound
    requires y in c.devices && ch in c.devices[y].binds && UpSince(run, i, y)
    ensures ch in c.sockets && AllPresent(c, Last(run), ch)
  {
    StillBound(c, run, i, |run| - 1, y, ch);
    PresentAt(c, run, |run| - 1, y, ch);
  }

  lemma PresentAt(c: Setup, run: seq<State>, j: nat, y: Name, ch: Name)
    requires Valid(c) && DisturbedRun(c, run) && j < |run| && y in c.devices && ch in c.devices[y].binds
    requires ch in run[j].bound
    ensures ch in c.sockets && AllPresent(c, run[j], ch)
  {
    InvAlways(c, run, j);
    BoundHasAddresses(c, run[j], y, ch);
  }

  lemma AbsentAt(c: Setup, run: seq<State>, j: nat, y: Name, ch: Name)
    requires Valid(c) && DisturbedRun(c, run) && j < |run| && y in c.devices && ch in c.devices[y].binds
    requires IsDown(run[j], y) && ch in c.sockets && c.sockets[ch] > 0
    ensures !AllPresent(c, run[j], ch)
  {
    InvAlways(c, run, j);
    DownHasNone(c, run[j], y, ch);
    assert (ch, 0) !in run[j].sockets;
  }

  lemma PublishedAt(c: Setup, run: seq<State>, j: nat, y: Name, ch: Name)
    requires Valid(c) && DisturbedRun(c, run) && j < |run| && y in c.devices && ch in c.devices[y].binds
    requires ch in c.sockets
    ensures y in run[j].phase
    ensures AllPresent(c, run[j], ch) <==> PublishedBy(c, c.devices[y], run[j].phase[y], ch)
  {
    InvAlways(c, run, j);
    PresentIffPublished(c, run[j], y, ch);
  }

  lemma KnownAt(c: Setup, run: seq<State>, j: nat, y: Name)
    requires Valid(c) && DisturbedRun(c, run) && j < |run| && y in c.devices
    ensures y in run[j].phase
  {
    InvAlways(c, run, j);
  }

  lemma AbsentAfterReset(c: Setup, run: seq<State>, i: nat, y: Name, ch: Name)
    requires Valid(c) && DisturbedRun(c, run) && i < |run| && y in c.devices && ch in c.devices[y].binds
    requires NotRestarted(run, i, y) && !UpSince(run, i, y) && ch in c.sockets && c.sockets[ch] > 0
    ensures !AllPresent(c, Last(run), ch)
  {
    var m :| i <= m < |run| && (y !in run[m].phase || run[m].phase[y] == Down);
    KnownAt(c, run, m, y);
    StaysDown(run, i, m, |run| - 1, y);
    AbsentAt(c, run, |run| - 1, y, ch);
  }

  lemma BinderIsValid(c: Setup, y: Name, ch: Name)
    requires Valid(c) && y in c.devices && ch in c.devices[y].binds
    ensures ch in c.sockets
  {
    assert ValidDevice(c, c.devices[y]);
  }

  /** In every run, with any cancellations, resets and restarts: let i be the last state in which
      an instance past its wait for a channel was still waiting; the channel was bound then. The
      instance finds all addresses if the binder has not been reset since, and, unless it has been
      started again, only then; in any case it finds exactly what the binder has published by
      now. */
  lemma AddressesPresentIff(c: Setup, run: seq<State>, x: Name, k: nat, y: Name) returns (i: nat)
    requires Valid(c) && DisturbedRun(c, run) && x in c.devices && y in c.devices && k < |c.devices[x].needs|
    requires x in Last(run).phase && k < SeenBound(c.devices[x], Last(run).phase[x])
    requires c.devices[x].needs[k] in c.devices[y].binds
    ensures SeenAt(c.devices[x], run, i, |run| - 1, x, k)
    ensures var ch := c.devices[x].needs[k];
            && i < |run| && ch in run[i].bound && ch in c.sockets && y in Last(run).phase
            && (UpSince(run, i, y) ==> AllPresent(c, Last(run), ch))
            && (NotRestarted(run, i, y) && c.sockets[ch] > 0 ==>
                  (AllPresent(c, Last(run), ch) <==> UpSince(run, i, y)))
            && (AllPresent(c, Last(run), ch) <==> PublishedBy(c, c.devices[y], Last(run).phase[y], ch))
  {
    var ch := c.devices[x].needs[k];
    BinderIsValid(c, y, ch);
    i := WaitBefore(c, run, x, k);
    PublishedAt(c, run, |run| - 1, y, ch);
    if UpSince(run, i, y) {
      PresentUpSince(c, run, i, y, ch);
    } else if NotRestarted(run, i, y) && c.sockets[ch] > 0 {
      AbsentAfterReset(c, run, i, y, ch);
    }
  }

  lemma WaitBefore(c: Setup, run: seq<State>, x: Name, k: nat) returns (i: nat)
    requires Valid(c) && DisturbedRun(c, run) && x in c.devices && k < |c.devices[x].needs|
    requires x in Last(run).phase && k < SeenBound(c.devices[x], Last(run).phase[x])
    ensures SeenAt(c.devices[x], run, i, |run| - 1, x, k)
  {
    WasBound(c, run, x, k, |run| - 1);
    i :| SeenAt(c.devices[x], run, i, |run| - 1, x, k);
  }

  function Told(px: Phase, py: Phase): map<Name, Phase> {
    map["x" := px, "y" := py]
  }

  /** Two instances: y binds a channel of one sub-socket, x waits for it. */
  function TwoInstances(): Setup {
    Setup(map["x" := Device([], ["b"], {}, [], DEVICE_READY),
              "y" := Device(["b"], [], {}, [SetSocket("b", 0), SetBound("b")], DEVICE_READY)], map["b" := 1])
  }

  lemma TwoInstancesValid()
    ensures Valid(TwoInstances())
  {
    var c := TwoInstances();
    assert Pipeline(["b"], c.sockets) == [SetSocket("b", 0), SetBound("b")] by { assert ["b"][1..] == []; }
    assert ValidDevice(c, c.devices["y"]);
    assert "b" in c.devices["y"].binds;
    assert ValidDevice(c, c.devices["x"]);
  }

  predicate IsResetRun(run: seq<State>) {
    var a: set<(Name, nat)> := {("b", 0)};
    && |run| == 9
    && run[0] == State({}, {}, Told(Publishing(0), Publishing(0)))
    && run[1] == State({}, {}, Told(WaitingBound(0), Publishing(0)))
    && run[2] == State(a, {}, Told(WaitingBound(0), Publishing(1)))
    && run[3] == State(a, {"b"}, Told(WaitingBound(0), Publishing(2)))
    && run[4] == State(a, {"b"}, Told(WaitingBound(0), WaitingBound(0)))
    && run[5] == State(a, {"b"}, Told(WaitingBound(1), WaitingBound(0)))
    && run[6] == State(a, {"b"}, Told(WaitingBound(1), Cancelled))
    && run[7] == State({}, {}, Told(WaitingBound(1), Down))
    && run[8] == State({}, {}, Told(Resolving, Down))
  }

  /** A run in which the binder y is cancelled and reset between the moment x sees its channel
      bound and the moment x looks its address up: there is none any more. */
  lemma ResetLosesAddresses(run: seq<State>)
    requires IsResetRun(run)
    ensures Valid(TwoInstances()) && DisturbedRun(TwoInstances(), run)
    ensures Last(run).phase["x"] == Resolving && !AllPresent(TwoInstances(), Last(run), "b")
  {
    TwoInstancesValid();
    FirstHalf(TwoInstances(), run);
    SecondHalf(TwoInstances(), run);
    Halves(TwoInstances(), run);
    assert ("b", 0) !in Last(run).sockets;
  }

  lemma Halves(c: Setup, run: seq<State>)
    requires |run| == 9 && Init(c, run[0])
    requires forall i :: 0 <= i < 4 ==> Next(c, run[i], run[i + 1])
    requires forall i :: 4 <= i < 8 ==> NextOrDisturbed(c, run[i], run[i + 1])
    ensures DisturbedRun(c, run)
  {
    forall i: nat ensures DisturbedAt(c, run, i) {
      if i < 4 { assert Next(c, run[i], run[i + 1]); }
    }
  }

  lemma FirstHalf(c: Setup, run: seq<State>)
    requires c == TwoInstances() && IsResetRun(run)
    ensures Init(c, run[0]) && forall i :: 0 <= i < 4 ==> Next(c, run[i], run[i + 1])
  {
    assert Steps(c, run[0], "x", run[1]);
    assert Steps(c, run[1], "y", run[2]);
    assert Steps(c, run[2], "y", run[3]);
    assert Steps(c, run[3], "y", run[4]);
  }

  lemma SecondHalf(c: Setup, run: seq<State>)
    requires c == TwoInstances() && IsResetRun(run)
    ensures forall i :: 4 <= i < 8 ==> NextOrDisturbed(c, run[i], run[i + 1])
  {
    assert Steps(c, run[4], "x", run[5]);
    CancelAndReset(c, run);
    assert Steps(c, run[7], "x", run[8]);
  }

  lemma CancelAndReset(c: Setup, run: seq<State>)
    requires c == TwoInstances() && IsResetRun(run)
    ensures Disturbs(c, run[5], "y", run[6]) && Disturbs(c, run[6], "y", run[7])
  {
    assert OwnSockets(run[6], ["b"]) == {("b", 0)} && OwnBound(run[6], ["b"]) == {"b"};
    assert Cancels(run[5], "y", run[6]) && Resets(c, run[6], "y", run[7]);
  }

  // ---- no deadlock, exactly for acyclic topologies with agreeing peers ---------------------

  ghost predicate Group(c: Setup, g: set<Name>) {
    g != {} && g <= c.devices.Keys
  }

  /** This member waits for nobody in the group. */
  ghost predicate FreeIn(c: Setup, g: set<Name>, x: Name) {
    x in g && x in c.devices && c.devices[x].waits !! g
  }

  /** Every group has a free member. */
  ghost predicate Acyclic(c: Setup) {
    forall g :: Group(c, g) ==> exists x :: FreeIn(c, g, x)
  }

  /** The peers an instance waits for are all told to go on to the same state. */
  ghost predicate SameGoal(c: Setup, x: Name)
    requires x in c.devices
  {
    forall y, z :: y in c.devices[x].waits && z in c.devices[x].waits && y in c.devices && z in c.devices ==>
      c.devices[y].goal == c.devices[z].goal
  }

  ghost predicate GoalsAgree(c: Setup) {
    forall x :: x in c.devices ==> SameGoal(c, x)
  }

  /** Every instance has become DeviceReady. */
  ghost predicate Finished(c: Setup, s: State) {
    forall x :: x in c.devices ==> x in s.phase && s.phase[x].Up?
  }

  ghost predicate Undisturbed(s: State) {
    forall x :: x in s.phase ==> s.phase[x] !in {Cancelled, Down}
  }

  lemma BinderPublished(c: Setup, d: Device, s: State, p: Phase, ch: Name)
    requires ValidDevice(c, d) && InvAt(d, s, p) && ch in d.binds && !p.Publishing? && p != Down
    ensures ch in s.bound
  {
    var m := BoundIsQueued(d.binds, c.sockets, ch);
    assert d.pipeline[m] in Executed(d, p);
  }

  lemma BinderOf(c: Setup, x: Name, ch: Name) returns (y: Name)
    requires Valid(c) && x in c.devices && ch in c.devices[x].needs
    ensures y in c.devices && ch in c.devices[y].binds && ValidDevice(c, c.devices[y])
  {
    assert ValidDevice(c, c.devices[x]);
    y :| y in c.devices && ch in c.devices[y].binds;
  }

  lemma BoundPublished(c: Setup, s: State, ch: Name, x: Name)
    requires Valid(c) && Inv(c, s) && Undisturbed(s) && x in c.devices && ch in c.devices[x].needs
    requires forall y :: y in s.phase ==> !s.phase[y].Publishing?
    ensures ch in s.bound
  {
    var y := BinderOf(c, x, ch);
    assert InvAt(c.devices[y], s, s.phase[y]);
    BinderPublished(c, c.devices[y], s, s.phase[y], ch);
  }

  /** Where nothing can move, every instance is at its goal or waits for its peers. */
  lemma RestShapes(c: Setup, s: State, x: Name, held: set<Name>)
    requires Valid(c) && Inv(c, s) && Undisturbed(s) && x in c.devices && Stuck(c, s, held)
    ensures s.phase[x] == WaitingPeers || s.phase[x] == Up(c.devices[x].goal)
  {
    assert InvAt(c.devices[x], s, s.phase[x]);
    forall y | y in s.phase ensures !s.phase[y].Publishing? {
      assert y in c.devices && MayStay(c, s, y, held);
    }
    assert MayStay(c, s, x, held);
    if s.phase[x].WaitingBound? && s.phase[x].k < |c.devices[x].needs| {
      BoundPublished(c, s, c.devices[x].needs[s.phase[x].k], x);
    }
  }

  /** An instance that cannot step, or is held back in its wait for connections. */
  ghost predicate MayStay(c: Setup, s: State, x: Name, held: set<Name>)
    requires x in c.devices
  {
    x in s.phase && (!Enabled(c.devices[x], s, s.phase[x]) || (x in held && s.phase[x] == WaitingPeers))
  }

  ghost predicate Stuck(c: Setup, s: State, held: set<Name>) {
    forall x :: x in c.devices ==> MayStay(c, s, x, held)
  }

  lemma AllRest(c: Setup, s: State)
    requires Valid(c) && Inv(c, s) && Undisturbed(s) && forall y :: y in c.devices ==>
        !Enabled(c.devices[y], s, s.phase[y])
    ensures forall y :: y in c.devices ==> s.phase[y] == WaitingPeers || s.phase[y] == Up(c.devices[y].goal)
  {
    assert Stuck(c, s, {});
    forall y | y in c.devices
      ensures s.phase[y] == WaitingPeers || s.phase[y] == Up(c.devices[y].goal)
    {
      RestShapes(c, s, y, {});
    }
  }

  /** A free member of those still waiting has all its peers at their common goal. */
  lemma FreeCanGo(c: Setup, s: State) returns (x: Name)
    requires Valid(c) && Acyclic(c) && GoalsAgree(c) && s.phase.Keys == c.devices.Keys
    requires forall y :: y in c.devices ==> s.phase[y] == WaitingPeers || s.phase[y] == Up(c.devices[y].goal)
    requires exists y :: y in c.devices && s.phase[y] == WaitingPeers
    ensures x in c.devices && s.phase[x] == WaitingPeers && PeersAgree(s, c.devices[x].waits)
  {
    var g := StillWaiting(c, s);
    var z :| z in c.devices && s.phase[z] == WaitingPeers;
    assert z in g;
    x := SomeFree(c, g);
    PeersAtGoal(c, s, x, g);
  }

  ghost function StillWaiting(c: Setup, s: State): (g: set<Name>)
    requires s.phase.Keys == c.devices.Keys
    ensures g <= c.devices.Keys && forall y :: y in g <==> y in c.devices && s.phase[y] == WaitingPeers
  {
    set y | y in c.devices && s.phase[y] == WaitingPeers
  }

  lemma SomeFree(c: Setup, g: set<Name>) returns (x: Name)
    requires Acyclic(c) && g != {} && g <= c.devices.Keys
    ensures FreeIn(c, g, x)
  {
    assert Group(c, g);
    x :| FreeIn(c, g, x);
  }

  /** As long as somebody is not DeviceReady, somebody can move. */
  lemma SomebodyMoves(c: Setup, s: State) returns (x: Name)
    requires Valid(c) && Acyclic(c) && GoalsAgree(c) && Inv(c, s) && Undisturbed(s) && !Finished(c, s)
    ensures x in c.devices && x in s.phase && Enabled(c.devices[x], s, s.phase[x])
  {
    if y :| y in c.devices && Enabled(c.devices[y], s, s.phase[y]) {
      x := y;
    } else {
      AllRest(c, s);
      x := FreeCanGo(c, s);
    }
  }

  lemma PeersAtGoal(c: Setup, s: State, x: Name, g: set<Name>)
    requires Valid(c) && GoalsAgree(c) && FreeIn(c, g, x) && s.phase.Keys == c.devices.Keys
    requires forall y :: y in c.devices && y !in g ==> s.phase[y] == Up(c.devices[y].goal)
    ensures PeersAgree(s, c.devices[x].waits)
  {
    var d := c.devices[x];
    assert ValidDevice(c, d) && SameGoal(c, x);
    if y :| y in d.waits {
      assert ValidDevice(c, c.devices[y]);
      assert AllAt(s, d.waits, c.devices[y].goal);
    } else {
      assert AllAt(s, d.waits, DEVICE_READY);
    }
  }

  function Remaining(d: Device, p: Phase): nat {
    match p
    case Publishing(n) => (if n < |d.pipeline| then |d.pipeline| - n else 0) + |d.needs| + d.goal + 5
    case WaitingBound(k) => (if k < |d.needs| then |d.needs| - k else 0) + d.goal + 4
    case Resolving => d.goal + 3
    case WritingConnect => d.goal + 2
    case WaitingPeers => d.goal + 1
    case Up(l) => if l < d.goal then d.goal - l else 0
    case _ => 0
  }

  /** The steps left to a set of instances. */
  ghost function Work(c: Setup, s: State, names: set<Name>): nat
    requires names <= c.devices.Keys && names <= s.phase.Keys
  {
    if names == {} then 0 else
      var x := PickOne(names);
      Remaining(c.devices[x], s.phase[x]) + Work(c, s, names - {x})
  }

  ghost function PickOne(names: set<Name>): (x: Name)
    requires names != {}
    ensures x in names
  {
    var x :| x in names; x
  }

  lemma {:induction false} WorkFalls(c: Setup, s: State, t: State, x: Name, names: set<Name>)
    requires names <= c.devices.Keys == s.phase.Keys == t.phase.Keys && x in c.devices
    requires forall y :: y in s.phase && y != x ==> t.phase[y] == s.phase[y]
    requires Remaining(c.devices[x], t.phase[x]) < Remaining(c.devices[x], s.phase[x])
    ensures if x in names then Work(c, t, names) < Work(c, s, names) else Work(c, t, names) == Work(c, s, names)
  {
    if names != {} {
      WorkFalls(c, s, t, x, names - {PickOne(names)});
    }
  }

  lemma RemainingFalls(d: Device, s: State, p: Phase)
    requires Enabled(d, s, p)
    ensures Remaining(d, NextPhase(d, p)) < Remaining(d, p)
  {
  }

  lemma StepWorks(c: Setup, s: State, t: State)
    requires Valid(c) && Inv(c, s) && Undisturbed(s) && Next(c, s, t)
    ensures Inv(c, t) && Undisturbed(t) && Work(c, t, c.devices.Keys) < Work(c, s, c.devices.Keys)
  {
    assert NextOrDisturbed(c, s, t);
    InvStep(c, s, t);
    var x :| Steps(c, s, x, t);
    StepFalls(c, s, t, x);
  }

  lemma StepFalls(c: Setup, s: State, t: State, x: Name)
    requires s.phase.Keys == c.devices.Keys && Undisturbed(s) && Steps(c, s, x, t)
    ensures t.phase.Keys == c.devices.Keys && Undisturbed(t) && Work(c, t, c.devices.Keys) < Work(c, s, c.devices.Keys)
  {
    RemainingFalls(c.devices[x], s, s.phase[x]);
    WorkFalls(c, s, t, x, c.devices.Keys);
  }

  /** A later state has that many steps' less work left. */
  ghost predicate Worked(c: Setup, s: State, t: State, n: nat) {
    && Inv(c, s) && Inv(c, t) && Undisturbed(t)
    && Work(c, t, c.devices.Keys) + n <= Work(c, s, c.devices.Keys)
  }

  lemma WorkedMore(c: Setup, run: seq<State>, n: nat)
    requires Valid(c) && Run(c, run) && 0 < n < |run| && Worked(c, run[0], run[n - 1], n - 1)
    ensures Worked(c, run[0], run[n], n)
  {
    assert NextAt(c, run, n - 1);
    StepWorks(c, run[n - 1], run[n]);
  }

  lemma {:induction false} WorkedTo(c: Setup, run: seq<State>, n: nat)
    requires Valid(c) && Run(c, run) && n < |run|
    ensures Worked(c, run[0], run[n], n)
  {
    if n == 0 {
      InvInit(c, run[0]);
    } else {
      WorkedTo(c, run, n - 1);
      WorkedMore(c, run, n);
    }
  }

  lemma RunKeeps(c: Setup, run: seq<State>)
    requires Valid(c) && Run(c, run)
    ensures Worked(c, run[0], Last(run), |run| - 1)
  {
    WorkedTo(c, run, |run| - 1);
  }

  /** In an acyclic topology whose peers agree every run is bounded, and one that cannot go on has
      brought every instance to DeviceReady. */
  lemma AllReachDeviceReady(c: Setup, run: seq<State>)
    requires Valid(c) && Acyclic(c) && GoalsAgree(c) && Run(c, run)
    ensures Inv(c, run[0]) && |run| <= Work(c, run[0], c.devices.Keys) + 1
    ensures Finished(c, Last(run)) || CanMove(c, Last(run))
  {
    RunKeeps(c, run);
    var s := Last(run);
    if !Finished(c, s) {
      var x := SomebodyMoves(c, s);
      assert Steps(c, s, x, Step(c.devices[x], s, x));
      assert Next(c, s, Step(c.devices[x], s, x));
    }
  }

  /** A group that waits in a circle. */
  ghost predicate Circle(c: Setup, g: set<Name>) {
    Group(c, g) && forall x :: !FreeIn(c, g, x)
  }

  ghost predicate NoneReady(s: State, g: set<Name>) {
    forall x :: x in g && x in s.phase ==> !s.phase[x].Up?
  }

  lemma CircleHolds(c: Setup, g: set<Name>, s: State, t: State)
    requires Circle(c, g) && NoneReady(s, g) && s.phase.Keys == c.devices.Keys && Next(c, s, t)
    ensures NoneReady(t, g) && t.phase.Keys == c.devices.Keys
  {
    var x :| Steps(c, s, x, t);
    forall y | y in g ensures !t.phase[y].Up? {
      if y == x { WaitsInCircle(c, g, s, x); }
    }
  }

  lemma WaitsInCircle(c: Setup, g: set<Name>, s: State, x: Name)
    requires Group(c, g) && !FreeIn(c, g, x) && x in g && NoneReady(s, g) && s.phase.Keys == c.devices.Keys
    ensures !PeersAgree(s, c.devices[x].waits)
  {
    var y :| y in c.devices[x].waits && y in g;
    assert y in s.phase && !s.phase[y].Up?;
  }

  lemma {:induction false} CircleNeverReady(c: Setup, g: set<Name>, run: seq<State>, n: nat)
    requires Circle(c, g) && Run(c, run) && n < |run|
    ensures NoneReady(run[n], g) && run[n].phase.Keys == c.devices.Keys
  {
    if n > 0 {
      CircleNeverReady(c, g, run, n - 1);
      assert NextAt(c, run, n - 1);
      CircleHolds(c, g, run[n - 1], run[n]);
    }
  }

  // ---- runs that go on as long as they can -------------------------------------------------

  ghost predicate HeldBack(s: State, held: set<Name>) {
    forall x :: x in held && x in s.phase ==> !s.phase[x].Up?
  }

  lemma HeldStep(c: Setup, s: State, x: Name, held: set<Name>) returns (t: State)
    requires Valid(c) && Inv(c, s) && Undisturbed(s) && HeldBack(s, held) && x in c.devices && !MayStay(c, s, x, held)
    ensures Next(c, s, t) && Inv(c, t) && Undisturbed(t) && HeldBack(t, held)
    ensures Work(c, t, c.devices.Keys) < Work(c, s, c.devices.Keys)
  {
    t := Step(c.devices[x], s, x);
    assert Steps(c, s, x, t);
    StepWorks(c, s, t);
    StaysHeld(c, s, x, t, held);
  }

  lemma StaysHeld(c: Setup, s: State, x: Name, t: State, held: set<Name>)
    requires HeldBack(s, held) && Steps(c, s, x, t) && !(x in held && s.phase[x] == WaitingPeers)
    ensures HeldBack(t, held)
  {
  }

  /** Every run can be continued, without letting the held instances out of their wait, until
      nobody else can move. */
  lemma RunOn(c: Setup, run: seq<State>, held: set<Name>) returns (longer: seq<State>)
    requires Valid(c) && Run(c, run) && Inv(c, Last(run)) && Undisturbed(Last(run)) && HeldBack(Last(run), held)
    ensures Run(c, longer) && Stuck(c, Last(longer), held) && HeldBack(Last(longer), held)
    decreases Work(c, Last(run), c.devices.Keys)
  {
    if x :| x in c.devices && !MayStay(c, Last(run), x, held) {
      var t := HeldStep(c, Last(run), x, held);
      Appended(c, run, t);
      longer := RunOn(c, run + [t], held);
    } else {
      longer := run;
    }
  }

  lemma Appended(c: Setup, run: seq<State>, t: State)
    requires Run(c, run) && Next(c, Last(run), t)
    ensures Run(c, run + [t]) && Last(run + [t]) == t
  {
    var r := run + [t];
    forall i: nat ensures NextAt(c, r, i) {
      assert NextAt(c, run, i);
      if i + 1 < |run| { assert r[i] == run[i] && r[i + 1] == run[i + 1]; }
    }
  }

  lemma StuckRun(c: Setup, held: set<Name>) returns (run: seq<State>)
    requires Valid(c)
    ensures Run(c, run) && Stuck(c, Last(run), held) && HeldBack(Last(run), held)
  {
    var s := State({}, {}, map x | x in c.devices :: Publishing(0));
    assert Init(c, s);
    InvInit(c, s);
    assert Run(c, [s]);
    run := RunOn(c, [s], held);
  }

  /** The rendezvous completes in every run that goes on as long as it can. */
  ghost predicate AlwaysCompletes(c: Setup) {
    forall run :: Run(c, run) && !CanMove(c, Last(run)) ==> Finished(c, Last(run))
  }

  lemma NobodyMoves(c: Setup, s: State)
    requires forall x :: x in c.devices && x in s.phase ==> !Enabled(c.devices[x], s, s.phase[x])
    ensures !CanMove(c, s)
  {
  }

  /** With everybody else at rest, peers with different goals keep the held instance waiting. */
  lemma BlockedAt(c: Setup, s: State, x: Name, y: Name, z: Name)
    requires Valid(c) && Inv(c, s) && Undisturbed(s) && Stuck(c, s, {x}) && x in c.devices
    requires y in c.devices[x].waits && z in c.devices[x].waits && y in c.devices && z in c.devices &&
        c.devices[y].goal != c.devices[z].goal
    ensures !PeersAgree(s, c.devices[x].waits)
  {
    RestShapes(c, s, y, {x});
    RestShapes(c, s, z, {x});
    TwoStates(s, c.devices[x].waits, y, z);
  }

  lemma HeldForGood(c: Setup, s: State, x: Name)
    requires Stuck(c, s, {x}) && x in c.devices && x in s.phase && s.phase[x] == WaitingPeers &&
        !PeersAgree(s, c.devices[x].waits)
    ensures !CanMove(c, s)
  {
    forall w | w in c.devices ensures !Enabled(c.devices[w], s, s.phase[w]) { assert MayStay(c, s, w, {x}); }
    NobodyMoves(c, s);
  }

  /** Peers with different goals can all be past DeviceReady, in different states, before the
      instance waiting for them looks. */
  lemma DifferentGoalsBlock(c: Setup, x: Name)
    requires Valid(c) && x in c.devices && !SameGoal(c, x)
    ensures !AlwaysCompletes(c)
  {
    var run := StuckRun(c, {x});
    RunKeeps(c, run);
    var y, z :| y in c.devices[x].waits && z in c.devices[x].waits && y in c.devices && z in c.devices &&
      c.devices[y].goal != c.devices[z].goal;
    RestShapes(c, Last(run), x, {x});
    BlockedAt(c, Last(run), x, y, z);
    HeldForGood(c, Last(run), x);
  }

  lemma TwoStates(s: State, names: set<Name>, y: Name, z: Name)
    requires y in names && z in names && y in s.phase && z in s.phase
    requires s.phase[y].Up? && s.phase[z].Up? ==> s.phase[y].level != s.phase[z].level
    ensures !PeersAgree(s, names)
  {
  }

  lemma CircleBlocks(c: Setup)
    requires Valid(c) && !Acyclic(c)
    ensures !AlwaysCompletes(c)
  {
    var g :| Group(c, g) && !exists x :: FreeIn(c, g, x);
    var run := StuckRun(c, {});
    var s := Last(run);
    CircleNeverReady(c, g, run, |run| - 1);
    assert s == run[|run| - 1];
    forall w | w in c.devices ensures !Enabled(c.devices[w], s, s.phase[w]) { assert MayStay(c, s, w, {}); }
    NobodyMoves(c, s);
    var x :| x in g;
    assert x in c.devices.Keys;
  }

  /** The rendezvous is sure to complete if and only if no group of instances waits in a circle
      and each instance waits for peers that go on to one and the same state. */
  lemma AlwaysCompletesIff(c: Setup)
    requires Valid(c)
    ensures AlwaysCompletes(c) <==> Acyclic(c) && GoalsAgree(c)
  {
    if !Acyclic(c) {
      CircleBlocks(c);
    } else if !GoalsAgree(c) {
      var x :| x in c.devices && !SameGoal(c, x);
      DifferentGoalsBlock(c, x);
    } else {
      forall run | Run(c, run) && !CanMove(c, Last(run)) ensures Finished(c, Last(run)) {
        AllReachDeviceReady(c, run);
      }
    }
  }
}
