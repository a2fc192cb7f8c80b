/** The controller's publish-and-wait sequences over the devices' command queues
    (controller/WebGui.cxx, RedisPublishDaqCommand and Wait; the receiving side is
    plugins/DaqServicePlugin.cxx, SubscribeToDaqCommand). */
module Barrier {
  import opened DeviceStates
  import Text

  datatype Name = Name(service: string, id: string)

  function LongId(n: Name): string {
    n.service + [Text.SEP] + n.id
  }

  /** The services, in the order in which the controller's set yields them, and the instances. */
  datatype Selection = Selection(services: seq<string>, instances: set<string>)

  /** A device acts on a message that selects it. */
  predicate Selected(sel: Selection, n: Name) {
    && sel.services != [] && sel.instances != {}
    && ("all" in sel.services || (n.service in sel.services && ("all" in sel.instances || LongId(n) in sel.instances)))
  }

  /** The devices one wait looks at. */
  datatype Group = Everything | OfService(service: string) | Listed(ids: set<string>)

  predicate InGroup(g: Group, n: Name) {
    match g
    case Everything => true
    case OfService(s) => n.service == s
    case Listed(ids) => LongId(n) in ids
  }

  datatype Stage = WaitDeviceReady | WaitReady

  function Targets(w: Stage): seq<State> {
    if w == WaitDeviceReady then [DeviceReady, Ready, Running] else [Ready, Running]
  }

  datatype Action = Publish(c: Command) | Await(g: Group, w: Stage)

  function Groups(sel: Selection): seq<Group> {
    if "all" in sel.services then [Everything]
    else if "all" in sel.instances then seq(|sel.services|,
      i requires 0 <= i < |sel.services| => OfService(sel.services[i]))
    else [Listed(sel.instances)]
  }

  function Waits(sel: Selection, w: Stage): seq<Action> {
    seq(|Groups(sel)|, i requires 0 <= i < |Groups(sel)| => Await(Groups(sel)[i], w))
  }

  /** A command, and the wait for its stage if that is asked for. */
  function Part(c: Command, sel: Selection, w: Stage, wait: bool): seq<Action> {
    [Publish(c)] + if wait then Waits(sel, w) else []
  }

  /** What a command of the web page makes the controller do. */
  function Plan(c: Command, sel: Selection, waitDeviceReady: bool, waitReady: bool): seq<Action> {
    var connect := Part(CmdConnect, sel, WaitDeviceReady, waitDeviceReady);
    var initTask := Part(CmdInitTask, sel, WaitReady, waitReady);
    match c
    case CmdConnect => connect
    case CmdInitTask => (if waitDeviceReady then connect else []) + initTask
    case CmdRun => (if waitDeviceReady then connect else []) + (if waitReady then initTask else []) + [Publish(CmdRun)]
    case _ => [Publish(c)]
  }

  // ---- the controller ---------------------------------------------------------------------

  /** One look at the registry: the keys found, and the values still there when they are read. */
  datatype View = View(keys: set<Name>, values: map<Name, State>)

  /** Every state read is one and the same target. */
  ghost predicate Passes(v: View, g: Group, w: Stage) {
    exists t :: t in Targets(w) && forall n :: n in v.keys && InGroup(g, n) && n in v.values ==> v.values[n] == t
  }

  ghost predicate NonePasses(views: seq<View>, g: Group, w: Stage) {
    forall k :: 0 <= k < |views| ==> !Passes(views[k], g, w)
  }

  /** The states found for a group, in any order. */
  method States(v: View, g: Group) returns (found: seq<State>)
    ensures forall x :: x in found <==> exists n :: n in v.keys && InGroup(g, n) && n in v.values && v.values[n] == x
  {
    found := [];
    var rest := v.keys;
    while rest != {}
      invariant rest <= v.keys
      invariant forall x :: x in found <==>
          exists n :: n in v.keys - rest && InGroup(g, n) && n in v.values && v.values[n] == x
    {
      var n :| n in rest;
      ghost var before := rest;
      rest := rest - {n};
      assert v.keys - rest == v.keys - before + {n};
      if InGroup(g, n) && n in v.values { found := found + [v.values[n]]; }
    }
    assert v.keys - rest == v.keys;
  }

  class WebGui {
    /** What has been published and awaited, and the views the coming looks will get. */
    var log: seq<Action>
    var views: seq<View>

    constructor (views: seq<View>)
      ensures log == [] && this.views == views
    {
      log, this.views := [], views;
    }

    method Publish(c: Command)
      modifies this`log
      ensures log == old(log) + [Action.Publish(c)]
    {
      log := log + [Action.Publish(c)];
    }

    /** The wait ends at the first look that shows every device of the group in one target. */
    method Wait(g: Group, w: Stage) returns (ok: bool)
      modifies this
      ensures exists used :: |used| <= |old(views)| && old(views) == used + views &&
                if ok then |used| > 0 && NonePasses(used[..|used| - 1], g, w) && Passes(used[|used| - 1], g, w)
                else views == [] && NonePasses(used, g, w)
      ensures log == old(log) + if ok then [Await(g, w)] else []
    {
      ok := false;
      ghost var used := [];
      while views != [] && !ok
        invariant old(views) == used + views && log == old(log)
        invariant ok ==> |used| > 0 && NonePasses(used[..|used| - 1], g, w) && Passes(used[|used| - 1], g, w)
        invariant !ok ==> NonePasses(used, g, w)
        decreases |views|
      {
        var v := views[0];
        views := views[1..];
        used := used + [v];
        assert used[..|used| - 1] == used[..|used| - 1];
        var found := States(v, g);
        ok := AllOne(v, found, g, w);
      }
      if ok { log := log + [Await(g, w)]; }
    }

    method WaitAll(sel: Selection, w: Stage) returns (ok: bool, ghost n: nat)
      modifies this
      ensures Followed(old(log), log, Waits(sel, w), n, ok) && (!ok ==> views == [])
    {
      ghost var l0 := log;
      var groups := Groups(sel);
      var i := 0;
      while i < |groups|
        invariant i <= |groups| && log == l0 + Waits(sel, w)[..i]
      {
        ok := Wait(groups[i], w);
        if !ok { return false, i; }
        NextWait(sel, w, i);
        i := i + 1;
      }
      n, ok := i, true;
    }

    method PublishAndWait(c: Command, sel: Selection, w: Stage, wait: bool) returns (ok: bool, ghost n: nat)
      modifies this
      ensures Followed(old(log), log, Part(c, sel, w, wait), n, ok) && (!ok ==> views == [])
    {
      ghost var before := log;
      Publish(c);
      n, ok := 1, true;
      if wait {
        ok, n := WaitAll(sel, w);
        assert Part(c, sel, w, wait)[..n + 1] == [Action.Publish(c)] + Waits(sel, w)[..n];
        n := n + 1;
      }
    }

    /** The first stage of the sequence, if the command has it, and the second. */
    method Connecting(c: Command, sel: Selection, waitDeviceReady: bool) returns (ok: bool, ghost n: nat)
      modifies this
      ensures Followed(old(log), log, Connects(c, sel, waitDeviceReady), n, ok) && (!ok ==> views == [])
    {
      n, ok := 0, true;
      if c == CmdConnect || (waitDeviceReady && (c == CmdInitTask || c == CmdRun)) {
        ok, n := PublishAndWait(CmdConnect, sel, WaitDeviceReady, waitDeviceReady);
      }
    }

    method Initializing(c: Command, sel: Selection, waitReady: bool) returns (ok: bool, ghost n: nat)
      modifies this
      ensures Followed(old(log), log, Inits(c, sel, waitReady), n, ok) && (!ok ==> views == [])
    {
      n, ok := 0, true;
      if c == CmdInitTask || (waitReady && c == CmdRun) {
        ok, n := PublishAndWait(CmdInitTask, sel, WaitReady, waitReady);
      }
    }

    /** Publishing and waiting follow the plan; they stop short only inside a wait that no look
        ends. */
    method RedisPublishDaqCommand(c: Command, sel: Selection, waitDeviceReady: bool, waitReady: bool) returns (ok: bool)
      modifies this
      ensures exists n :: Followed(old(log), log, Plan(c, sel, waitDeviceReady, waitReady), n, ok)
      ensures !ok ==> views == []
    {
      ghost var l0 := log;
      ghost var n;
      ok, n := Connecting(c, sel, waitDeviceReady);
      if ok {
        ghost var l1 := log;
        ok, n := Initializing(c, sel, waitReady);
        if ok && c != CmdConnect && c != CmdInitTask { Publish(c); }
        SecondStage(c, sel, waitDeviceReady, waitReady, l0, l1, log, n, ok);
      } else {
        FirstStage(c, sel, waitDeviceReady, waitReady, l0, log, n);
      }
    }
  }

  lemma FirstStage(c: Command, sel: Selection, waitDeviceReady: bool, waitReady: bool, l0: seq<Action>,
      l1: seq<Action>, n: nat)
    requires Followed(l0, l1, Connects(c, sel, waitDeviceReady), n, false)
    ensures Followed(l0, l1, Plan(c, sel, waitDeviceReady, waitReady), n, false)
  {
    PlanParts(c, sel, waitDeviceReady, waitReady);
    Extend(l0, l1, Connects(c, sel, waitDeviceReady), n, Plan(c, sel, waitDeviceReady, waitReady));
  }

  lemma SecondStage(c: Command, sel: Selection, waitDeviceReady: bool, waitReady: bool, l0: seq<Action>,
      l1: seq<Action>, l2: seq<Action>,
      n: nat, ok: bool)
    requires Followed(l0, l1, Connects(c, sel, waitDeviceReady), |Connects(c, sel, waitDeviceReady)|, true)
    requires if ok then l2 == l1 + Inits(c, sel, waitReady) + Last(c)
        else Followed(l1, l2, Inits(c, sel, waitReady), n, false)
    ensures exists k :: Followed(l0, l2, Plan(c, sel, waitDeviceReady, waitReady), k, ok)
  {
    PlanParts(c, sel, waitDeviceReady, waitReady);
    Stages(l0, l1, l2, Connects(c, sel, waitDeviceReady), Inits(c, sel, waitReady), Last(c), n, ok);
  }

  lemma Stages(l0: seq<Action>, l1: seq<Action>, l2: seq<Action>, p: seq<Action>, q: seq<Action>, last: seq<Action>,
      n: nat, ok: bool)
    requires Followed(l0, l1, p, |p|, true)
    requires if ok then l2 == l1 + q + last else Followed(l1, l2, q, n, false)
    ensures exists k :: Followed(l0, l2, p + q + last, k, ok)
  {
    assert p[..|p|] == p;
    if ok {
      assert l2 == l0 + (p + q + last);
      Whole(l0, l2, p + q + last);
    } else {
      Then(l0, l1, l2, p, q, n, false);
      Extend(l0, l2, p + q, |p| + n, p + q + last);
    }
  }

  /** The first stage of a command's plan, and the second. */
  function Connects(c: Command, sel: Selection, waitDeviceReady: bool): seq<Action> {
    if c == CmdConnect || (waitDeviceReady && (c == CmdInitTask || c == CmdRun))
    then Part(CmdConnect, sel, WaitDeviceReady, waitDeviceReady)
    else []
  }

  function Inits(c: Command, sel: Selection, waitReady: bool): seq<Action> {
    if c == CmdInitTask || (waitReady && c == CmdRun) then Part(CmdInitTask, sel, WaitReady, waitReady) else []
  }

  function Last(c: Command): seq<Action> {
    if c != CmdConnect && c != CmdInitTask then [Publish(c)] else []
  }

  lemma PlanParts(c: Command, sel: Selection, waitDeviceReady: bool, waitReady: bool)
    ensures Plan(c, sel, waitDeviceReady, waitReady) ==
        Connects(c, sel, waitDeviceReady) + Inits(c, sel, waitReady) + Last(c)
  {
  }

  lemma NextWait(sel: Selection, w: Stage, i: nat)
    requires i < |Groups(sel)|
    ensures Waits(sel, w)[..i + 1] == Waits(sel, w)[..i] + [Await(Groups(sel)[i], w)]
  {
  }

  lemma Whole(a: seq<Action>, b: seq<Action>, plan: seq<Action>)
    requires b == a + plan
    ensures Followed(a, b, plan, |plan|, true)
  {
    assert plan[..|plan|] == plan;
  }

  /** The log has grown by the first n actions of a plan; by all of them, or up to a wait. */
  ghost predicate Followed(before: seq<Action>, after: seq<Action>, plan: seq<Action>, n: nat, ok: bool) {
    n <= |plan| && after == before + plan[..n] && (ok <==> n == |plan|) && (!ok ==> plan[n].Await?)
  }

  lemma Then(a: seq<Action>, b: seq<Action>, c: seq<Action>, p: seq<Action>, q: seq<Action>, n: nat, ok: bool)
    requires b == a + p && Followed(b, c, q, n, ok)
    ensures Followed(a, c, p + q, |p| + n, ok)
  {
    assert (p + q)[..|p| + n] == p + q[..n];
    if !ok { assert (p + q)[|p| + n] == q[n]; }
  }

  lemma Extend(a: seq<Action>, b: seq<Action>, p: seq<Action>, n: nat, plan: seq<Action>)
    requires Followed(a, b, p, n, false) && p <= plan
    ensures Followed(a, b, plan, n, false)
  {
    assert plan[..n] == p[..n];
  }

  /** all_of over each target in turn. */
  method AllOne(v: View, found: seq<State>, g: Group, w: Stage) returns (ok: bool)
    requires forall x :: x in found <==> exists n :: n in v.keys && InGroup(g, n) && n in v.values && v.values[n] == x
    ensures ok <==> Passes(v, g, w)
  {
    var targets := Targets(w);
    ok := false;
    for i := 0 to |targets|
      invariant !ok && forall k :: 0 <= k < i ==> exists x :: x in found && x != targets[k]
    {
      if forall x :: x in found ==> x == targets[i] {
        assert targets[i] in Targets(w);
        assert forall n :: n in v.keys && InGroup(g, n) && n in v.values ==> v.values[n] in found;
        ok := true;
        return;
      }
    }
  }

  // ---- the controller and its devices -----------------------------------------------------

  /** A device: its state, the state its registry key shows, the rest of the command it is
      working on, and the messages that have not been delivered yet. */
  datatype Device = Device(state: State, shown: State, script: seq<Transition>, inbox: seq<Command>)

  /** All devices, those whose keys the controller finds, and how far the plan has come. */
  datatype System = System(devices: map<Name, Device>, visible: set<Name>, done: nat)

  ghost predicate DeviceStep(d: Device, e: Device) {
    || e == d.(shown := d.state)
    || (d.script == [] && d.inbox != [] && Settled(d.state) &&
         e == d.(script := Script(d.state, d.inbox[0]), inbox := d.inbox[1..]))
    || (d.script != [] && Settled(d.state) && e == d.(state := Fire(d.state, d.script[0]), script := d.script[1..]))
    || (Spontaneous(d.state, e.state) && e == d.(state := e.state))
  }

  function Delivered(sel: Selection, c: Command, devices: map<Name, Device>): map<Name, Device> {
    map n | n in devices :: if Selected(sel, n) then devices[n].(inbox := devices[n].inbox + [c]) else devices[n]
  }

  function Shown(s: System): View {
    View(s.visible, map n | n in s.devices :: s.devices[n].shown)
  }

  ghost predicate ControllerStep(sel: Selection, plan: seq<Action>, s: System, r: System) {
    s.done < |plan| &&
    match plan[s.done]
    case Publish(c) => r == s.(devices := Delivered(sel, c, s.devices), done := s.done + 1)
    case Await(g, w) => Passes(Shown(s), g, w) && r == s.(done := s.done + 1)
  }

  ghost predicate Moves(s: System, r: System, n: Name) {
    n in s.devices && n in r.devices && DeviceStep(s.devices[n], r.devices[n]) &&
      r == s.(devices := s.devices[n := r.devices[n]])
  }

  ghost predicate Step(sel: Selection, plan: seq<Action>, s: System, r: System) {
    ControllerStep(sel, plan, s, r) || exists n :: Moves(s, r, n)
  }

  ghost predicate Execution(sel: Selection, plan: seq<Action>, x: seq<System>) {
    x != [] && forall i :: 0 <= i < |x| - 1 ==> Step(sel, plan, x[i], x[i + 1])
  }

  // ---- what a forward command cannot undo -------------------------------------------------

  /** How far a device has come, whatever it is doing; a failure counts as past everything. */
  function Progress(s: State): int {
    match s
    case InitializingDevice => 1
    case Initialized => 2
    case Binding => 2
    case Bound => 3
    case Connecting => 3
    case DeviceReady => 4
    case InitializingTask => 4
    case Ready => 5
    case Running => 5
    case Error => 6
    case _ => 0
  }

  /** Only forward commands are under way, and the registry is not ahead of the device. */
  ghost predicate Forward(d: Device) {
    && (forall c :: c in d.inbox ==> Target(c) >= 0)
    && (forall t :: t in d.script ==> t in FORWARD)
    && Progress(d.shown) <= Progress(d.state)
    && d.state !in {ResettingTask, ResettingDevice, Exiting}
  }

  ghost predicate AllForward(s: System) {
    forall n :: n in s.devices ==> Forward(s.devices[n])
  }

  lemma ForwardScripts(s: State, c: Command)
    requires Settled(s) && Target(c) >= 0
    ensures forall t :: t in Script(s, c) ==> t in FORWARD
    ensures |Script(s, c)| == if Level(s) <= Target(c) then Target(c) - Level(s) else 0
  {
    ForwardScript(s, c);
    if Level(s) <= Target(c) {
      assert forall t :: t in FORWARD[Level(s)..Target(c)] ==> t in FORWARD;
    }
  }

  lemma ForwardFire(s: State, t: Transition)
    requires Settled(s) && t in FORWARD
    ensures Progress(s) <= Progress(Fire(s, t)) && Fire(s, t) !in {ResettingTask, ResettingDevice, Exiting}
  {
  }

  lemma ForwardStep(d: Device, e: Device)
    requires Forward(d) && DeviceStep(d, e)
    ensures Forward(e) && Progress(d.state) <= Progress(e.state)
  {
    if d.script == [] && d.inbox != [] && Settled(d.state) { ForwardScripts(d.state, d.inbox[0]); }
    if d.script != [] && Settled(d.state) { ForwardFire(d.state, d.script[0]); }
  }

  /** Every wait that has passed has left a lasting mark on the devices it saw. */
  ghost predicate Marked(s: System, g: Group, w: Stage) {
    forall n :: n in s.visible && n in s.devices && InGroup(g, n) ==> Progress(s.devices[n].state) >= Floor(w)
  }

  function Floor(w: Stage): int {
    if w == WaitDeviceReady then 4 else 5
  }

  ghost predicate PlanForward(plan: seq<Action>) {
    forall k :: 0 <= k < |plan| && plan[k].Publish? ==> Target(plan[k].c) >= 0
  }

  ghost predicate PassedWaits(plan: seq<Action>, s: System) {
    forall k :: 0 <= k < s.done && k < |plan| && plan[k].Await? ==> Marked(s, plan[k].g, plan[k].w)
  }

  ghost predicate Inv(plan: seq<Action>, s: System) {
    AllForward(s) && PassedWaits(plan, s)
  }

  lemma MoveKeeps(plan: seq<Action>, s: System, r: System, n: Name)
    requires Inv(plan, s) && Moves(s, r, n)
    ensures Inv(plan, r)
  {
    ForwardStep(s.devices[n], r.devices[n]);
    forall m | m in r.devices
      ensures Forward(r.devices[m]) && Progress(s.devices[m].state) <= Progress(r.devices[m].state)
    {
      if m != n { assert r.devices[m] == s.devices[m]; }
    }
  }

  lemma DeliveredForward(sel: Selection, c: Command, devices: map<Name, Device>, n: Name)
    requires Target(c) >= 0 && n in devices && Forward(devices[n])
    ensures Forward(Delivered(sel, c, devices)[n]) && Delivered(sel, c, devices)[n].state == devices[n].state
  {
    var d := devices[n];
    assert Delivered(sel, c, devices)[n] in {d, d.(inbox := d.inbox + [c])};
  }

  lemma AllDelivered(sel: Selection, c: Command, s: System, r: System)
    requires AllForward(s) && Target(c) >= 0 && r.devices == Delivered(sel, c, s.devices)
    ensures AllForward(r) && r.devices.Keys == s.devices.Keys
    ensures forall n :: n in s.devices ==> s.devices[n].state == r.devices[n].state
  {
    forall n | n in s.devices ensures Forward(r.devices[n]) && s.devices[n].state == r.devices[n].state {
      DeliveredForward(sel, c, s.devices, n);
    }
  }

  lemma PublishKeeps(sel: Selection, plan: seq<Action>, s: System, r: System)
    requires Inv(plan, s) && PlanForward(plan) && ControllerStep(sel, plan, s, r) && plan[s.done].Publish?
    ensures Inv(plan, r)
  {
    AllDelivered(sel, plan[s.done].c, s, r);
    WaitsStay(plan, s, r);
  }

  lemma WaitsStay(plan: seq<Action>, s: System, r: System)
    requires PassedWaits(plan, s) && s.done < |plan| && plan[s.done].Publish? && r.done == s.done + 1
    requires r.visible == s.visible && r.devices.Keys == s.devices.Keys
    requires forall n :: n in s.devices ==> s.devices[n].state == r.devices[n].state
    ensures PassedWaits(plan, r)
  {
    forall k | 0 <= k < r.done && k < |plan| && plan[k].Await? ensures Marked(r, plan[k].g, plan[k].w) {
      MarkStays(s, r, plan[k].g, plan[k].w);
    }
  }

  lemma MarkStays(s: System, r: System, g: Group, w: Stage)
    requires Marked(s, g, w) && r.visible == s.visible && r.devices.Keys == s.devices.Keys
    requires forall n :: n in s.devices ==> Progress(s.devices[n].state) <= Progress(r.devices[n].state)
    ensures Marked(r, g, w)
  {
  }

  lemma PassMarks(s: System, g: Group, w: Stage)
    requires AllForward(s) && Passes(Shown(s), g, w)
    ensures Marked(s, g, w)
  {
    var t :| t in Targets(w) && forall n :: n in s.visible && InGroup(g, n) && n in s.devices ==>
      Shown(s).values[n] == t;
    forall n | n in s.visible && n in s.devices && InGroup(g, n) ensures Progress(s.devices[n].state) >= Floor(w) {
      assert Shown(s).values[n] == t && Forward(s.devices[n]);
    }
  }

  lemma StepKeeps(sel: Selection, plan: seq<Action>, s: System, r: System)
    requires Inv(plan, s) && PlanForward(plan) && Step(sel, plan, s, r)
    ensures Inv(plan, r) && r.visible == s.visible && r.devices.Keys == s.devices.Keys
  {
    if ControllerStep(sel, plan, s, r) {
      if plan[s.done].Publish? {
        PublishKeeps(sel, plan, s, r);
      } else {
        PassMarks(s, plan[s.done].g, plan[s.done].w);
        forall k | 0 <= k < r.done && k < |plan| && plan[k].Await? ensures Marked(r, plan[k].g, plan[k].w) {
          assert k < s.done ==> Marked(s, plan[k].g, plan[k].w);
        }
      }
    } else {
      var n :| Moves(s, r, n);
      MoveKeeps(plan, s, r, n);
    }
  }

  lemma {:induction false} Keeps(sel: Selection, plan: seq<Action>, x: seq<System>, i: nat)
    requires Execution(sel, plan, x) && PlanForward(plan) && Inv(plan, x[0]) && i < |x|
    ensures Inv(plan, x[i]) && x[i].visible == x[0].visible && x[i].devices.Keys == x[0].devices.Keys
  {
    if i > 0 {
      Keeps(sel, plan, x, i - 1);
      assert Step(sel, plan, x[i - 1], x[i - 1 + 1]);
      StepKeeps(sel, plan, x[i - 1], x[i]);
    }
  }

  // ---- the barrier ------------------------------------------------------------------------

  /** Every device that acts on the messages is looked at by one of the waits. */
  lemma SelectedAreAwaited(sel: Selection, n: Name) returns (i: nat)
    requires Selected(sel, n)
    ensures i < |Groups(sel)| && InGroup(Groups(sel)[i], n)
  {
    i := 0;
    if "all" !in sel.services && "all" in sel.instances {
      i :| i < |sel.services| && sel.services[i] == n.service;
    }
  }

  /** The publications that a wait guards, and the stage of that wait. */
  predicate Guards(c: Command, waitDeviceReady: bool, waitReady: bool, b: Command, w: Stage) {
    || (b == CmdRun && c == CmdRun && waitReady && w == WaitReady)
    || (b == CmdInitTask && waitDeviceReady && c in {CmdInitTask, CmdRun} && w == WaitDeviceReady)
  }

  lemma WaitsComeFirst(c: Command, sel: Selection, waitDeviceReady: bool, waitReady: bool, b: Command, w: Stage,
      k: nat, i: nat)
      returns (m: nat)
    requires Guards(c, waitDeviceReady, waitReady, b, w) && i < |Groups(sel)|
    requires k < |Plan(c, sel, waitDeviceReady, waitReady)| && Plan(c, sel, waitDeviceReady, waitReady)[k] == Publish(b)
    ensures m < k && Plan(c, sel, waitDeviceReady, waitReady)[m] == Await(Groups(sel)[i], w)
  {
    PlanParts(c, sel, waitDeviceReady, waitReady);
    var p, q := Connects(c, sel, waitDeviceReady), Inits(c, sel, waitReady);
    if b == CmdRun {
      m := |p| + 1 + i;
      assert q[1 + i] == Await(Groups(sel)[i], w);
    } else {
      m := 1 + i;
      assert p[1 + i] == Await(Groups(sel)[i], w);
    }
  }

  lemma PlanIsForward(c: Command, sel: Selection, waitDeviceReady: bool, waitReady: bool)
    requires Target(c) >= 0
    ensures PlanForward(Plan(c, sel, waitDeviceReady, waitReady))
  {
    var plan := Plan(c, sel, waitDeviceReady, waitReady);
    forall k | 0 <= k < |plan| && plan[k].Publish? ensures Target(plan[k].c) >= 0 {
      assert plan[k].c in {CmdConnect, CmdInitTask, c};
    }
  }

  /** The start of a run: nothing but forward commands is still under way. */
  ghost predicate Starts(s: System) {
    AllForward(s) && s.done == 0
  }

  /** From the moment a guarded command is published, and in whatever way the devices move, every
      selected device that the controller can see has at most that command's one transition left
      to make, or has failed. */
  lemma OneTransitionLeft(c: Command, sel: Selection, waitDeviceReady: bool, waitReady: bool, x: seq<System>, i: nat,
      b: Command, w: Stage, k: nat, n: Name)
    requires var plan := Plan(c, sel, waitDeviceReady, waitReady);
             && Execution(sel, plan, x) && Starts(x[0]) && i < |x|
             && k < |plan| && plan[k] == Publish(b) && Guards(c, waitDeviceReady, waitReady, b, w) && k <= x[i].done
    requires n in x[0].devices && n in x[0].visible && Selected(sel, n)
    ensures n in x[i].devices && Progress(x[i].devices[n].state) >= Floor(w)
    ensures Settled(x[i].devices[n].state) ==> |Script(x[i].devices[n].state, b)| <= 1
  {
    var plan := Plan(c, sel, waitDeviceReady, waitReady);
    PlanIsForward(c, sel, waitDeviceReady, waitReady);
    Keeps(sel, plan, x, i);
    var g := SelectedAreAwaited(sel, n);
    var m := WaitsComeFirst(c, sel, waitDeviceReady, waitReady, b, w, k, g);
    assert Marked(x[i], plan[m].g, plan[m].w);
    if Settled(x[i].devices[n].state) { ForwardScripts(x[i].devices[n].state, b); }
  }

  /** A run that has come to its last publication with the device in sight. */
  ghost predicate Before(plan: seq<Action>, sel: Selection, x: seq<System>, i: nat, n: Name) {
    && Execution(sel, plan, x) && Starts(x[0]) && n in x[0].devices && n in x[0].visible
    && i < |x| && x[i].done == |plan| - 1
  }

  /** Whenever a run gets to its last publication, a selected device in sight needs at most one
      transition for it. */
  ghost predicate Guarded(c: Command, sel: Selection, waitDeviceReady: bool, waitReady: bool, n: Name) {
    var plan := Plan(c, sel, waitDeviceReady, waitReady);
    forall x: seq<System>, i: nat :: Before(plan, sel, x, i, n) ==>
      n in x[i].devices && (Settled(x[i].devices[n].state) ==> |Script(x[i].devices[n].state, c)| <= 1)
  }

  /** This holds of the two commands that start a run exactly when the command is RUN and the
      ready flag is set; START is published without any wait. */
  lemma GuardedIff(c: Command, sel: Selection, waitDeviceReady: bool, waitReady: bool, n: Name)
    requires c in {CmdRun, CmdStart} && Selected(sel, n)
    ensures Guarded(c, sel, waitDeviceReady, waitReady, n) <==> c == CmdRun && waitReady
  {
    var plan := Plan(c, sel, waitDeviceReady, waitReady);
    if c == CmdRun && waitReady {
      forall x: seq<System>, i: nat | Before(plan, sel, x, i, n)
        ensures n in x[i].devices && (Settled(x[i].devices[n].state) ==> |Script(x[i].devices[n].state, c)| <= 1)
      {
        OneTransitionLeft(c, sel, waitDeviceReady, waitReady, x, i, c, WaitReady, |plan| - 1, n);
      }
    } else {
      var x := seq(|plan|, i requires 0 <= i < |plan| => Behind(n, i));
      BehindRuns(c, sel, waitDeviceReady, waitReady, n, x);
      assert Before(plan, sel, x, |plan| - 1, n);
      assert |Script(DeviceReady, c)| == 2;
    }
  }

  /** One device that waits in DeviceReady while the plan has come to its i-th action. */
  function Behind(n: Name, i: nat): System {
    System(map[n := Device(DeviceReady, DeviceReady, [], if i == 0 then [] else [CmdConnect])], {n}, i)
  }

  lemma BehindRuns(c: Command, sel: Selection, waitDeviceReady: bool, waitReady: bool, n: Name, x: seq<System>)
    requires c in {CmdRun, CmdStart} && Selected(sel, n) && !(c == CmdRun && waitReady)
    requires var plan := Plan(c, sel, waitDeviceReady, waitReady);
             x == seq(|plan|, i requires 0 <= i < |plan| => Behind(n, i))
    ensures Execution(sel, Plan(c, sel, waitDeviceReady, waitReady), x) && Starts(x[0])
  {
    var plan := Plan(c, sel, waitDeviceReady, waitReady);
    forall i | 0 <= i < |x| - 1 ensures Step(sel, plan, x[i], x[i + 1]) {
      BehindStep(sel, plan, n, i);
    }
  }

  lemma BehindStep(sel: Selection, plan: seq<Action>, n: Name, i: nat)
    requires i < |plan| && Selected(sel, n)
    requires if i == 0 then plan[0] == Publish(CmdConnect) else plan[i].Await? && plan[i].w == WaitDeviceReady
    ensures Step(sel, plan, Behind(n, i), Behind(n, i + 1))
  {
    if i == 0 {
      assert [] + [CmdConnect] == [CmdConnect];
      assert Delivered(sel, CmdConnect, Behind(n, 0).devices) == Behind(n, 1).devices;
    } else {
      assert DeviceReady in Targets(plan[i].w);
      assert forall m :: m in Shown(Behind(n, i)).values ==> Shown(Behind(n, i)).values[m] == DeviceReady;
      assert Passes(Shown(Behind(n, i)), plan[i].g, plan[i].w);
    }
  }

  // ---- a mixture never passes -------------------------------------------------------------

  /** A device that stays among some states, with nothing but CONNECT on its way. */
  ghost predicate Stays(d: Device, among: set<State>) {
    && d.state in among && d.shown in among && d.script == [] && forall c :: c in d.inbox ==> c == CmdConnect
  }

  const LOW: set<State> := {DeviceReady, Error}
  const HIGH: set<State> := {Ready, Running, Error}

  lemma StaysOn(d: Device, e: Device, among: set<State>)
    requires Stays(d, among) && (among == LOW || among == HIGH) && DeviceStep(d, e)
    ensures Stays(e, among)
  {
    if d.inbox != [] && Settled(d.state) {
      assert d.inbox[0] in d.inbox && Level(d.state) >= 4;
      ForwardScripts(d.state, d.inbox[0]);
      assert Script(d.state, d.inbox[0]) == [];
    }
    assert forall c :: c in e.inbox ==> c in d.inbox;
  }

  ghost predicate StaysMixed(s: System, g: Group, n: Name, m: Name) {
    && n in s.visible && m in s.visible && InGroup(g, n) && InGroup(g, m)
    && n in s.devices && m in s.devices && Stays(s.devices[n], LOW) && Stays(s.devices[m], HIGH)
  }

  /** When some devices of a group rest in DeviceReady and others are past it, the first wait
      never passes, however long the controller looks and whatever the devices do: the states
      shown never agree on a target. */
  lemma {:induction false} MixtureNeverPasses(sel: Selection, plan: seq<Action>, x: seq<System>, i: nat, g: Group,
      n: Name, m: Name)
    requires Execution(sel, plan, x) && x[0].done < |plan| && plan[x[0].done] == Await(g, WaitDeviceReady)
    requires StaysMixed(x[0], g, n, m) && i < |x|
    ensures x[i].done == x[0].done && StaysMixed(x[i], g, n, m)
  {
    if i > 0 {
      MixtureNeverPasses(sel, plan, x, i - 1, g, n, m);
      var s, r := x[i - 1], x[i - 1 + 1];
      assert Step(sel, plan, s, r);
      assert !ControllerStep(sel, plan, s, r) by {
        assert Shown(s).values[n] == s.devices[n].shown && Shown(s).values[m] == s.devices[m].shown;
      }
      var k :| Moves(s, r, k);
      if k == n { StaysOn(s.devices[n], r.devices[n], LOW); }
      if k == m { StaysOn(s.devices[m], r.devices[m], HIGH); }
    }
  }
}
