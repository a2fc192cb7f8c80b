/** The rendezvous of the instances of a given topology: who binds, needs and waits for what
    follows from the links (plugins/TopologyConfig.cxx, WaitBindAddress, WaitForPeerConnection,
    WriteAddress). */
module Assembly {
  import opened Text
  import opened Wiring
  import opened Topology
  import Rendezvous

  function InstanceName(service: string, id: string): string {
    service + [SEP] + id
  }

  predicate Exists(w: World, service: string, id: string) {
    service in w.ids && id in w.ids[service]
  }

  /** The channels an instance binds and publishes, with or without a peer. */
  ghost predicate Binds(w: World, service: string, id: string, ch: string) {
    exists e :: BindEnd(w, e) && e.service == service && ch == Key(e, id)
  }

  /** The channels an instance waits to see bound: the peers of its connecting ends. */
  ghost predicate Needs(w: World, service: string, ch: string) {
    exists e :: ConnectEnd(w, e) && e.service == service && ch in Peers(w, e)
  }

  /** A service waits for another if one of its binding ends that wait for connections is linked
      to it. */
  ghost predicate WaitsFor(w: World, waiting: set<End>, s: string, t: string) {
    exists e, f :: e in waiting && BindEnd(w, e) && e.service == s && f in FarEnds(w, e) && f.service == t
  }

  ghost predicate WaitsName(w: World, waiting: set<End>, s: string, name: string) {
    exists t, j :: WaitsFor(w, waiting, s, t) && Exists(w, t, j) && name == InstanceName(t, j)
  }

  ghost predicate DeviceOf(w: World, waiting: set<End>, service: string, id: string, d: Rendezvous.Device) {
    && (forall ch :: ch in d.binds <==> Binds(w, service, id, ch))
    && (forall ch :: ch in d.needs <==> Needs(w, service, ch))
    && (forall name :: name in d.waits <==> WaitsName(w, waiting, service, name))
  }

  /** An instance queues what it binds, and has been told where to stop. */
  ghost predicate Publishes(c: Rendezvous.Setup, d: Rendezvous.Device) {
    && (forall ch :: ch in d.binds ==> ch in c.sockets) && d.pipeline == Rendezvous.Pipeline(d.binds, c.sockets)
    && d.goal in {Rendezvous.DEVICE_READY, Rendezvous.READY, Rendezvous.RUNNING}
  }

  /** The rendezvous belongs to this topology. */
  ghost predicate Models(c: Rendezvous.Setup, w: World, waiting: set<End>) {
    && (forall name :: name in c.devices <==> exists s, i :: Exists(w, s, i) && name == InstanceName(s, i))
    && (forall s, i :: Exists(w, s, i) ==>
         InstanceName(s, i) in c.devices && DeviceOf(w, waiting, s, i, c.devices[InstanceName(s, i)]))
    && (forall x :: x in c.devices ==> Publishes(c, c.devices[x]))
  }

  /** Every channel waited for is bound by an instance: the link is seen alike from both ends. */
  lemma NeededIsBound(w: World, service: string, ch: string) returns (s: string, i: string)
    requires Valid(w) && Needs(w, service, ch) && exists j :: Exists(w, service, j)
    ensures Exists(w, s, i) && Binds(w, s, i, ch)
  {
    var e :| ConnectEnd(w, e) && e.service == service && ch in Peers(w, e);
    var k :| 0 <= k < |Peers(w, e)| && Peers(w, e)[k] == ch;
    var f;
    f, i := PeerAt(w, e, k);
    s := f.service;
    var j :| Exists(w, service, j);
    assert CleanEnd(e) && !Has(j, SEP);
    PeerIff(w, f, e, j);
    FarEndsBind(w, e, f);
  }

  lemma NeedsMet(c: Rendezvous.Setup, w: World, waiting: set<End>, service: string, ch: string) returns (y: string)
    requires Valid(w) && Models(c, w, waiting) && Needs(w, service, ch) && exists j :: Exists(w, service, j)
    ensures y in c.devices && ch in c.devices[y].binds
  {
    var t, j := NeededIsBound(w, service, ch);
    y := InstanceName(t, j);
    assert DeviceOf(w, waiting, t, j, c.devices[y]);
  }

  lemma WaitsExist(c: Rendezvous.Setup, w: World, waiting: set<End>, service: string, name: string)
    requires Models(c, w, waiting) && WaitsName(w, waiting, service, name)
    ensures name in c.devices
  {
    var t, j :| WaitsFor(w, waiting, service, t) && Exists(w, t, j) && name == InstanceName(t, j);
  }

  lemma DeviceIsValid(c: Rendezvous.Setup, w: World, waiting: set<End>, s: string, i: string, d: Rendezvous.Device)
    requires Valid(w) && Models(c, w, waiting) && Exists(w, s, i) && DeviceOf(w, waiting, s, i, d) && Publishes(c, d)
    ensures Rendezvous.ValidDevice(c, d)
  {
    forall ch | ch in d.needs ensures exists y :: y in c.devices && ch in c.devices[y].binds {
      var y := NeedsMet(c, w, waiting, s, ch);
    }
    forall name | name in d.waits ensures name in c.devices { WaitsExist(c, w, waiting, s, name); }
  }

  /** No two instances bind the same channel. */
  lemma BindsOnce(w: World, s: string, i: string, t: string, j: string, ch: string)
    requires Valid(w) && Exists(w, s, i) && Exists(w, t, j) && Binds(w, s, i, ch) && Binds(w, t, j, ch)
    ensures s == t && i == j
  {
    var e :| BindEnd(w, e) && e.service == s && ch == Key(e, i);
    var f :| BindEnd(w, f) && f.service == t && ch == Key(f, j);
    assert CleanEnd(e) && CleanEnd(f);
    KeyInjective(e, i, f, j);
  }

  lemma InstanceOf(c: Rendezvous.Setup, w: World, waiting: set<End>, x: string) returns (s: string, i: string)
    requires Models(c, w, waiting) && x in c.devices
    ensures Exists(w, s, i) && x == InstanceName(s, i) && DeviceOf(w, waiting, s, i, c.devices[x])
  {
    s, i :| Exists(w, s, i) && x == InstanceName(s, i);
  }

  lemma BoundByOne(c: Rendezvous.Setup, w: World, waiting: set<End>, x: string, y: string, ch: string)
    requires Valid(w) && Models(c, w, waiting) && x in c.devices && y in c.devices
    requires ch in c.devices[x].binds && ch in c.devices[y].binds
    ensures x == y
  {
    var s, i := InstanceOf(c, w, waiting, x);
    var t, j := InstanceOf(c, w, waiting, y);
    BindsOnce(w, s, i, t, j, ch);
  }

  lemma ModelIsValid(c: Rendezvous.Setup, w: World, waiting: set<End>)
    requires Valid(w) && Models(c, w, waiting)
    ensures Rendezvous.Valid(c)
  {
    forall x | x in c.devices ensures Rendezvous.ValidDevice(c, c.devices[x]) {
      var s, i := InstanceOf(c, w, waiting, x);
      DeviceIsValid(c, w, waiting, s, i, c.devices[x]);
    }
    forall x, y, ch | Rendezvous.Owns(c, x, ch) && Rendezvous.Owns(c, y, ch) ensures x == y {
      BoundByOne(c, w, waiting, x, y, ch);
    }
  }

  // ---- the order of services --------------------------------------------------------------

  ghost predicate Inhabited(w: World, services: set<string>) {
    services != {} && forall s :: s in services ==> exists i :: Exists(w, s, i)
  }

  /** This service waits for none of the others. */
  ghost predicate FreeService(w: World, waiting: set<End>, services: set<string>, s: string) {
    s in services && forall t :: t in services ==> !WaitsFor(w, waiting, s, t)
  }

  /** Among any services with instances there is one that waits for none of them. */
  ghost predicate AcyclicServices(w: World, waiting: set<End>) {
    forall services :: Inhabited(w, services) ==> exists s :: FreeService(w, waiting, services, s)
  }

  ghost predicate ServiceIn(w: World, g: set<string>, s: string) {
    exists i :: Exists(w, s, i) && InstanceName(s, i) in g
  }

  ghost function ServicesOf(w: World, g: set<string>): set<string> {
    set s | s in w.ids && ServiceIn(w, g, s)
  }

  lemma ServicesInhabited(c: Rendezvous.Setup, w: World, waiting: set<End>, g: set<string>)
    requires Models(c, w, waiting) && Rendezvous.Group(c, g)
    ensures Inhabited(w, ServicesOf(w, g))
  {
    var y :| y in g;
    assert y in c.devices;
    var s, i :| Exists(w, s, i) && y == InstanceName(s, i);
    assert ServiceIn(w, g, s);
    assert s in ServicesOf(w, g);
    forall t | t in ServicesOf(w, g) ensures exists j :: Exists(w, t, j) {
      var j :| Exists(w, t, j) && InstanceName(t, j) in g;
    }
  }

  /** A free service among those of a group gives a free instance. */
  lemma FreeInstance(c: Rendezvous.Setup, w: World, waiting: set<End>, g: set<string>, s: string, i: string)
    requires Models(c, w, waiting) && FreeService(w, waiting, ServicesOf(w, g), s)
    requires Exists(w, s, i) && InstanceName(s, i) in g
    ensures Rendezvous.FreeIn(c, g, InstanceName(s, i))
  {
    var x := InstanceName(s, i);
    assert DeviceOf(w, waiting, s, i, c.devices[x]);
    forall name | name in c.devices[x].waits ensures name !in g {
      assert WaitsName(w, waiting, s, name);
      var t, j :| WaitsFor(w, waiting, s, t) && Exists(w, t, j) && name == InstanceName(t, j);
      assert t in w.ids;
    }
  }

  lemma GroupFree(c: Rendezvous.Setup, w: World, waiting: set<End>, g: set<string>) returns (x: string)
    requires Models(c, w, waiting) && AcyclicServices(w, waiting) && Rendezvous.Group(c, g)
    ensures Rendezvous.FreeIn(c, g, x)
  {
    ServicesInhabited(c, w, waiting, g);
    var s :| FreeService(w, waiting, ServicesOf(w, g), s);
    assert ServiceIn(w, g, s);
    var i :| Exists(w, s, i) && InstanceName(s, i) in g;
    x := InstanceName(s, i);
    FreeInstance(c, w, waiting, g, s, i);
  }

  lemma FreeServiceOf(c: Rendezvous.Setup, w: World, waiting: set<End>, services: set<string>) returns (s: string)
    requires Models(c, w, waiting) && Rendezvous.Acyclic(c) && Inhabited(w, services)
    ensures FreeService(w, waiting, services, s)
  {
    var g := set t, j | t in services && t in w.ids && j in w.ids[t] :: InstanceName(t, j);
    var s0 :| s0 in services;
    var i0 :| Exists(w, s0, i0);
    assert InstanceName(s0, i0) in g;
    assert Rendezvous.Group(c, g);
    var x :| Rendezvous.FreeIn(c, g, x);
    var i;
    s, i :| s in services && s in w.ids && i in w.ids[s] && x == InstanceName(s, i);
    assert DeviceOf(w, waiting, s, i, c.devices[x]);
    forall t | t in services ensures !WaitsFor(w, waiting, s, t) {
      if WaitsFor(w, waiting, s, t) {
        var j :| Exists(w, t, j);
        assert InstanceName(t, j) in g;
        assert WaitsName(w, waiting, s, InstanceName(t, j));
      }
    }
  }

  ghost predicate AwaitedInstance(w: World, waiting: set<End>, s: string, t: string, j: string) {
    WaitsFor(w, waiting, s, t) && Exists(w, t, j)
  }

  /** The instances of all the services that one service waits for go on to the same state. */
  ghost predicate PeersGoTogether(c: Rendezvous.Setup, w: World, waiting: set<End>, s: string) {
    forall t, j, u, k :: AwaitedInstance(w, waiting, s, t, j) && AwaitedInstance(w, waiting, s, u, k) ==>
      GoalOf(c, InstanceName(t, j)) == GoalOf(c, InstanceName(u, k))
  }

  function GoalOf(c: Rendezvous.Setup, x: string): nat {
    if x in c.devices then c.devices[x].goal else 0
  }

  ghost predicate ServicesGoTogether(c: Rendezvous.Setup, w: World, waiting: set<End>) {
    forall s, i :: Exists(w, s, i) ==> PeersGoTogether(c, w, waiting, s)
  }

  lemma SameGoalIff(c: Rendezvous.Setup, w: World, waiting: set<End>, s: string, i: string)
    requires Models(c, w, waiting) && Exists(w, s, i)
    ensures InstanceName(s, i) in c.devices
    ensures Rendezvous.SameGoal(c, InstanceName(s, i)) <==> PeersGoTogether(c, w, waiting, s)
  {
    var d := c.devices[InstanceName(s, i)];
    assert DeviceOf(w, waiting, s, i, d);
    if Rendezvous.SameGoal(c, InstanceName(s, i)) {
      forall t, j, u, k | WaitsFor(w, waiting, s, t) && Exists(w, t, j) && WaitsFor(w, waiting, s, u) && Exists(w, u, k)
        ensures GoalOf(c, InstanceName(t, j)) == GoalOf(c, InstanceName(u, k))
      {
        assert WaitsName(w, waiting, s, InstanceName(t, j)) && WaitsName(w, waiting, s, InstanceName(u, k));
      }
    }
    if PeersGoTogether(c, w, waiting, s) {
      forall y, z | y in d.waits && z in d.waits && y in c.devices && z in c.devices
        ensures c.devices[y].goal == c.devices[z].goal
      {
        assert WaitsName(w, waiting, s, y) && WaitsName(w, waiting, s, z);
        var t, j :| WaitsFor(w, waiting, s, t) && Exists(w, t, j) && y == InstanceName(t, j);
        var u, k :| WaitsFor(w, waiting, s, u) && Exists(w, u, k) && z == InstanceName(u, k);
        assert GoalOf(c, y) == GoalOf(c, z);
      }
    }
  }

  lemma AcyclicIff(c: Rendezvous.Setup, w: World, waiting: set<End>)
    requires Models(c, w, waiting)
    ensures Rendezvous.Acyclic(c) <==> AcyclicServices(w, waiting)
  {
    if AcyclicServices(w, waiting) {
      forall g | Rendezvous.Group(c, g) ensures exists x :: Rendezvous.FreeIn(c, g, x) {
        var x := GroupFree(c, w, waiting, g);
      }
    }
    if Rendezvous.Acyclic(c) {
      forall services | Inhabited(w, services) ensures exists s :: FreeService(w, waiting, services, s) {
        var s := FreeServiceOf(c, w, waiting, services);
      }
    }
  }

  lemma GoalsAgreeIff(c: Rendezvous.Setup, w: World, waiting: set<End>)
    requires Models(c, w, waiting)
    ensures Rendezvous.GoalsAgree(c) <==> ServicesGoTogether(c, w, waiting)
  {
    if Rendezvous.GoalsAgree(c) {
      forall s, i | Exists(w, s, i) ensures PeersGoTogether(c, w, waiting, s) { SameGoalIff(c, w, waiting, s, i); }
    }
    if ServicesGoTogether(c, w, waiting) {
      forall x | x in c.devices ensures Rendezvous.SameGoal(c, x) {
        var s, i := InstanceOf(c, w, waiting, x);
        SameGoalIff(c, w, waiting, s, i);
      }
    }
  }

  /** In a topology the rendezvous is sure to complete if and only if no services wait for each
      other in a circle, however many instances they have, and all instances that one service
      waits for go on to the same state. */
  lemma CompletesIffServicesAcyclic(c: Rendezvous.Setup, w: World, waiting: set<End>)
    requires Valid(w) && Models(c, w, waiting)
    ensures Rendezvous.AlwaysCompletes(c) <==> AcyclicServices(w, waiting) && ServicesGoTogether(c, w, waiting)
  {
    ModelIsValid(c, w, waiting);
    Rendezvous.AlwaysCompletesIff(c);
    AcyclicIff(c, w, waiting);
    GoalsAgreeIff(c, w, waiting);
  }
}
