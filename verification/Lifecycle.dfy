/** What an instance writes to the registry between initialising and resetting
    (plugins/TopologyConfig.cxx, Initialize, WriteChannel, WriteAddress, Reset, Unregister). */
module Lifecycle {
  import opened Text
  import opened Wiring
  import opened Links

  /** The registry keys of one instance. */
  datatype Entry = ChannelEntry(name: string) | PeersEntry(name: string) | SocketEntry(name: string, index: nat)

  datatype Value =
    | ChannelHash(numSockets: nat, bound: bool)
    | BoundOnly
    | PeerList(items: seq<string>)
    | SocketHash(numSockets: nat)

  datatype Endpoint = Endpoint(bind: bool, autoSubChannel: bool, numSockets: nat)

  /** The registry's topology part as one initialisation finds it. */
  datatype Setup = Setup(ids: Ids, endpoints: map<string, Endpoint>, linkTexts: seq<string>)

  ghost function Found(ids: Ids, links: map<string, Link>, channel: string): set<string> {
    set l, i | l in links.Values && Selected(l, channel) && i in Instances(ids, FarEnd(l, channel).service)
      :: Key(FarEnd(l, channel), i)
  }

  /** The peers that the current records alone would give. */
  ghost function Current(ids: Ids, service: string, texts: seq<string>, channel: string): set<string> {
    PeersVia(ids, Readings(service, texts), channel)
  }

  /** A link of the channel that is no longer recorded but still leads to an instance. */
  ghost predicate Stale(ids: Ids, links: map<string, Link>, read: seq<Link>, channel: string, l: Link) {
    l in links.Values && l !in read && Selected(l, channel) && Instances(ids, FarEnd(l, channel).service) != {}
  }

  /** Links from this service to others, with names that fit into keys. */
  ghost predicate PlainTable(service: string, links: map<string, Link>) {
    forall l :: l in links.Values ==>
      l.near.service == service && l.far.service != service && CleanEnd(l.far) && PlainLink(l)
  }

  lemma FoundVia(ids: Ids, links: map<string, Link>, channel: string, l: Link, i: string)
    requires l in links.Values && Selected(l, channel) && i in Instances(ids, FarEnd(l, channel).service)
    ensures Key(FarEnd(l, channel), i) in Found(ids, links, channel)
  {
  }

  /** The table is never emptied, so a channel's peers are those of the current records if and
      only if no link that was removed from the registry still leads from this channel to a
      service with an instance. */
  lemma FoundIsCurrentIff(ids: Ids, service: string, links: map<string, Link>, texts: seq<string>, channel: string)
    requires CleanIds(ids) && PlainTable(service, links) && forall l :: l in Readings(service, texts) ==>
        l in links.Values
    ensures Found(ids, links, channel) == Current(ids, service, texts, channel) <==>
            !exists l :: Stale(ids, links, Readings(service, texts), channel, l)
    ensures |Found(ids, links, channel)| == |Current(ids, service, texts, channel)| <==>
            !exists l :: Stale(ids, links, Readings(service, texts), channel, l)
  {
    var read := Readings(service, texts);
    var found, current := Found(ids, links, channel), Current(ids, service, texts, channel);
    CurrentIsFound(ids, links, read, channel);
    assert found == current <==> |found| == |current| by { assert |found - current| == |found| - |current|; }
    if l :| Stale(ids, links, read, channel, l) {
      StaleKeyIsExtra(ids, service, links, read, channel, l);
    } else {
      FoundIsRead(ids, links, read, channel);
    }
  }

  lemma CurrentIsFound(ids: Ids, links: map<string, Link>, read: seq<Link>, channel: string)
    requires forall l :: l in read ==> l in links.Values
    ensures PeersVia(ids, read, channel) <= Found(ids, links, channel)
  {
    forall key | key in PeersVia(ids, read, channel) ensures key in Found(ids, links, channel) {
      var l, i :| l in read && Selected(l, channel) && i in Instances(ids, FarEnd(l, channel).service) &&
        key == Key(FarEnd(l, channel), i);
      FoundVia(ids, links, channel, l, i);
    }
  }

  lemma FoundIsRead(ids: Ids, links: map<string, Link>, read: seq<Link>, channel: string)
    requires !exists l :: Stale(ids, links, read, channel, l)
    ensures Found(ids, links, channel) <= PeersVia(ids, read, channel)
  {
    forall key | key in Found(ids, links, channel) ensures key in PeersVia(ids, read, channel) {
      var l, i :| l in links.Values && Selected(l, channel) && i in Instances(ids, FarEnd(l, channel).service) &&
        key == Key(FarEnd(l, channel), i);
      assert !Stale(ids, links, read, channel, l);
    }
  }

  /** Names fit into keys, in the table and in the records. */
  ghost predicate PlainRecords(s: Setup, service: string, links: map<string, Link>) {
    CleanIds(s.ids) && PlainTable(service, links) && forall l :: l in Readings(service, s.linkTexts) ==> PlainLink(l)
  }

  ghost predicate NoStale(s: Setup, service: string, links: map<string, Link>, name: string) {
    !exists l :: Stale(s.ids, links, Readings(service, s.linkTexts), name, l)
  }

  /** Both the peers and their number are those of the current records exactly without stale links. */
  ghost predicate CurrentIff(s: Setup, service: string, links: map<string, Link>, name: string) {
    var found, current := Found(s.ids, links, name), Current(s.ids, service, s.linkTexts, name);
    && (found == current <==> NoStale(s, service, links, name))
    && (|found| == |current| <==> NoStale(s, service, links, name))
  }

  lemma AllCurrentIff(s: Setup, service: string, before: map<string, Link>, links: map<string, Link>)
    requires PlainRecords(s, service, links) && Keyed(before) && links == Merged(before, Readings(service, s.linkTexts))
    ensures forall name :: CurrentIff(s, service, links, name)
  {
    ReadIsKept(service, before, links, s.linkTexts);
    forall name ensures CurrentIff(s, service, links, name) {
      FoundIsCurrentIff(s.ids, service, links, s.linkTexts, name);
    }
  }

  lemma StaleKeyIsExtra(ids: Ids, service: string, links: map<string, Link>, read: seq<Link>, channel: string, l: Link)
    requires CleanIds(ids) && PlainTable(service, links) && (forall m :: m in read ==> m in links.Values)
    requires Stale(ids, links, read, channel, l)
    ensures Found(ids, links, channel) != PeersVia(ids, read, channel)
  {
    var i :| i in Instances(ids, FarEnd(l, channel).service);
    FoundVia(ids, links, channel, l, i);
    var key := Key(FarEnd(l, channel), i);
    if key in PeersVia(ids, read, channel) {
      var m, j :| m in read && Selected(m, channel) && j in Instances(ids, FarEnd(m, channel).service) &&
        key == Key(FarEnd(m, channel), j);
      KeyInjective(l.far, i, m.far, j);
    }
  }

  function SubSockets(e: Endpoint): nat {
    if e.numSockets == 0 then 1 else e.numSockets
  }

  method LinkList(links: map<string, Link>) returns (r: seq<Link>)
    requires Keyed(links)
    ensures Distinct(r) && forall l :: l in r <==> l in links.Values
  {
    r := [];
    var rest := links.Keys;
    while rest != {}
      invariant rest <= links.Keys && Distinct(r)
      invariant forall l :: l in r ==> LinkKey(l) in links.Keys - rest && links[LinkKey(l)] == l
      invariant forall k :: k in links.Keys - rest ==> links[k] in r
    {
      var k :| k in rest;
      assert k == LinkKey(links[k]);
      assert links[k] !in r;
      r, rest := r + [links[k]], rest - {k};
    }
  }

  ghost predicate IsListOf(v: Value, found: set<string>) {
    v.PeerList? && Sorted(v.items) && Elements(v.items) == found
  }

  class TopologyConfig {
    const service: string
    var channels: map<string, Endpoint>
    var links: map<string, Link>
    var registered: seq<Entry>
    /** The part of the registry under this instance's prefix. */
    var own: map<Entry, Value>

    constructor (service: string)
      ensures this.service == service && Unused() && own == map[] && links == map[]
    {
      this.service := service;
      channels, links, registered, own := map[], map[], [], map[];
    }

    /** Between cycles nothing is registered; only channel hashes may be left behind. */
    ghost predicate Unused()
      reads this
    {
      && channels == map[] && registered == [] && Keyed(links)
      && forall k :: k in own ==> k.ChannelEntry?
    }

    ghost predicate PlainService(ids: Ids)
      reads this
    {
      && CleanIds(ids)
      && forall l :: l in links.Values ==> l.near.service == service && l.far.service != service && CleanEnd(l.far)
    }

    /** The channel's peer list holds each instance behind its links once, and an automatic
        channel has one sub-socket for each. */
    ghost predicate Listed(name: string, e: Endpoint, found: set<string>, plain: bool)
      reads this
    {
      && name in channels && channels[name].bind == e.bind
      && (found == {} ==> PeersEntry(name) !in own)
      && (found != {} ==> PeersEntry(name) in own && IsListOf(own[PeersEntry(name)], found))
      && (!e.autoSubChannel ==> channels[name].numSockets == e.numSockets)
      && (e.autoSubChannel && plain ==> channels[name].numSockets == e.numSockets + |found|)
    }

    /** Exactly the registered keys, and these others, are in the registry. */
    ghost predicate Accounted(others: set<Entry>)
      reads this
    {
      forall k :: k in own <==> k in others || k in registered
    }

    ghost function ListItems(name: string): seq<string>
      reads this
    {
      if PeersEntry(name) in own && own[PeersEntry(name)].PeerList? then own[PeersEntry(name)].items else []
    }

    /** The list is pushed to: a list still in the registry would grow. */
    method WriteChannel(name: string, peers: seq<string>)
      requires name in channels
      modifies this`own, this`registered
      ensures peers == [] ==> own == old(own) && registered == old(registered)
      ensures peers != [] ==> registered == old(registered) + [ChannelEntry(name), PeersEntry(name)]
      ensures peers != [] ==> own == old(own)[ChannelEntry(name) := ChannelHash(channels[name].numSockets, false)]
                                             [PeersEntry(name) := PeerList(old(ListItems(name)) + peers)]
    {
      if peers == [] { return; }
      own := own[ChannelEntry(name) := ChannelHash(channels[name].numSockets, false)];
      var before := if PeersEntry(name) in own &&
        own[PeersEntry(name)].PeerList? then own[PeersEntry(name)].items else [];
      own := own[PeersEntry(name) := PeerList(before + peers)];
      registered := registered + [ChannelEntry(name)];
      registered := registered + [PeersEntry(name)];
    }

    method CountChannel(ids: Ids, list: seq<Link>, name: string, sp: Endpoint, ghost found: set<string>,
        ghost plain: bool)
      returns (peers: seq<string>, n: nat)
      requires Distinct(list) && forall l :: l in list <==> l in links.Values
      requires found == Found(ids, links, name) && (plain ==> PlainService(ids))
      ensures (peers == [] <==> found == {}) && IsListOf(PeerList(peers), found)
      ensures !sp.autoSubChannel ==> n == sp.numSockets
      ensures sp.autoSubChannel && plain ==> n == sp.numSockets + |found|
    {
      peers, n := CountPeers(ids, list, name, sp.autoSubChannel, sp.numSockets);
      FoundIs(ids, links, list, name, peers);
      SortedSize(peers);
      if plain {
        assert FromService(list, service);
        assert PlainLinks(ids, list);
      }
    }

    /** Counting and registering one channel keeps what is done for the others. */
    method InitializeChannel(ids: Ids, list: seq<Link>, name: string, ghost endpoints: map<string, Endpoint>,
        ghost found: map<string, set<string>>, ghost plain: bool, ghost others: set<Entry>)
      requires name in channels && name in endpoints && channels[name] == endpoints[name] && PeersEntry(name) !in own
      requires Distinct(list) && forall l :: l in list <==> l in links.Values
      requires found.Keys == endpoints.Keys && found[name] == Found(ids, links, name) && (plain ==> PlainService(ids))
      modifies this`channels, this`own, this`registered
      ensures channels.Keys == old(channels.Keys) && Listed(name, endpoints[name], found[name], plain)
      ensures forall n :: n in endpoints && n != name ==>
          old(Listed(n, endpoints[n], found[n], plain)) ==> Listed(n, endpoints[n], found[n], plain)
      ensures forall n :: n in channels && n != name ==> channels[n] == old(channels[n])
      ensures forall n :: n != name && PeersEntry(n) !in old(own) ==> PeersEntry(n) !in own
      ensures forall n :: ChannelEntry(n) in registered <==>
          ChannelEntry(n) in old(registered) || (n == name && found[n] != {})
      ensures old(Accounted(others)) ==> Accounted(others)
    {
      var sp := channels[name];
      var peers, n := CountChannel(ids, list, name, sp, found[name], plain);
      channels := channels[name := sp.(numSockets := n)];
      WriteChannel(name, peers);
    }

    /** Every initialisation rebuilds the peer lists and the socket counts from the instances in
        the registry and from the link table, without doubling. The table keeps the links of
        earlier cycles, so the lists are those of the current records exactly when no removed link
        of the channel still leads to an instance. */
    method Initialize(s: Setup) returns (ghost found: map<string, set<string>>)
      requires Unused()
      modifies this
      ensures channels.Keys == s.endpoints.Keys == found.Keys && Keyed(links)
      ensures links == Merged(old(links), Readings(service, s.linkTexts))
      ensures forall name :: name in s.endpoints ==> found[name] == Found(s.ids, links, name)
      ensures PlainRecords(s, service, links) ==> forall name :: name in s.endpoints ==>
          CurrentIff(s, service, links, name)
      ensures forall name :: name in s.endpoints ==> Listed(name, s.endpoints[name], found[name], PlainService(s.ids))
      ensures Accounted(old(own.Keys))
      ensures forall name :: ChannelEntry(name) in registered <==> name in s.endpoints && found[name] != {}
      ensures forall name :: name in s.endpoints ==> channels[name].bind == s.endpoints[name].bind
    {
      ghost var before := links;
      links := MergeLinks(service, links, s.linkTexts);
      found := map name | name in s.endpoints :: Found(s.ids, links, name);
      InitializeChannels(s, found, PlainService(s.ids));
      if PlainRecords(s, service, links) { AllCurrentIff(s, service, before, links); }
    }

    /** The channels outside `rest` are initialised, those in `rest` are untouched. */
    ghost predicate Progress(endpoints: map<string, Endpoint>, rest: set<string>, found: map<string, set<string>>,
        plain: bool, others: set<Entry>)
      requires found.Keys == endpoints.Keys
      reads this
    {
      && rest <= endpoints.Keys == channels.Keys && Accounted(others)
      && (forall n :: n in endpoints && n !in rest ==> Listed(n, endpoints[n], found[n], plain))
      && (forall n :: n in rest ==> channels[n] == endpoints[n] && PeersEntry(n) !in own)
      && (forall n :: ChannelEntry(n) in registered <==> n in endpoints && n !in rest && found[n] != {})
    }

    method InitializeNext(ids: Ids, list: seq<Link>, name: string, ghost endpoints: map<string, Endpoint>,
        ghost rest: set<string>,
        ghost found: map<string, set<string>>, ghost plain: bool, ghost others: set<Entry>)
      requires name in rest && found.Keys == endpoints.Keys && Progress(endpoints, rest, found, plain, others)
      requires Distinct(list) && forall l :: l in list <==> l in links.Values
      requires found[name] == Found(ids, links, name) && (plain ==> PlainService(ids))
      modifies this`channels, this`own, this`registered
      ensures Progress(endpoints, rest - {name}, found, plain, others)
    {
      InitializeChannel(ids, list, name, endpoints, found, plain, others);
    }

    method InitializeChannels(s: Setup, ghost found: map<string, set<string>>, ghost plain: bool)
      requires Unused() && found.Keys == s.endpoints.Keys && (plain ==> PlainService(s.ids))
      requires forall name :: name in found ==> found[name] == Found(s.ids, links, name)
      modifies this`channels, this`own, this`registered
      ensures Progress(s.endpoints, {}, found, plain, old(own.Keys))
    {
      channels := s.endpoints;
      ghost var left := own.Keys;
      var list := LinkList(links);
      var rest := channels.Keys;
      while rest != {}
        invariant Progress(s.endpoints, rest, found, plain, left)
      {
        var name :| name in rest;
        InitializeNext(s.ids, list, name, s.endpoints, rest, found, plain, left);
        rest := rest - {name};
      }
    }

    /** The keys of a published channel's sub-sockets; they are all registered. */
    method WriteSockets(name: string)
      requires name in channels
      modifies this`own, this`registered
      ensures forall others :: old(Accounted(others)) ==> Accounted(others)
      ensures forall k :: k in registered ==> k in old(registered) || k.SocketEntry?
      ensures forall k :: k in old(registered) ==> k in registered
      ensures forall i: nat :: i < SubSockets(channels[name]) ==>
          SocketEntry(name, i) in registered && SocketEntry(name, i) in own
    {
      var i := 0;
      while i < SubSockets(channels[name])
        invariant i <= SubSockets(channels[name])
        invariant forall others :: old(Accounted(others)) ==> Accounted(others)
        invariant forall k :: k in registered ==> k in old(registered) || k.SocketEntry?
        invariant forall k :: k in old(registered) ==> k in registered
        invariant forall j: nat :: j < i ==> SocketEntry(name, j) in registered && SocketEntry(name, j) in own
      {
        own := own[SocketEntry(name, i) := SocketHash(channels[name].numSockets)];
        registered := registered + [SocketEntry(name, i)];
        i := i + 1;
      }
    }

    /** The bound mark is written for every binding channel, registered or not. */
    method WriteBindAddress(name: string)
      requires name in channels
      modifies this`own, this`registered
      ensures forall others :: old(Accounted(others)) ==> Accounted(others + {ChannelEntry(name)})
      ensures forall k :: k in registered ==> k in old(registered) || k.SocketEntry?
      ensures forall k :: k in old(registered) ==> k in registered
      ensures ChannelEntry(name) in own &&
          (own[ChannelEntry(name)].BoundOnly? ||
            (own[ChannelEntry(name)].ChannelHash? && own[ChannelEntry(name)].bound))
    {
      WriteSockets(name);
      var hash := if ChannelEntry(name) in own && own[ChannelEntry(name)].ChannelHash?
                  then own[ChannelEntry(name)].(bound := true) else BoundOnly;
      own := own[ChannelEntry(name) := hash];
    }

    ghost function BindMarks(): set<Entry>
      reads this
    {
      set n | n in channels && channels[n].bind :: ChannelEntry(n)
    }

    /** The Bound callback: binding channels first, connecting channels unless cancelled. */
    method OnBound(cancelled: bool)
      modifies this`own, this`registered
      ensures forall others :: old(Accounted(others)) ==> Accounted(others + BindMarks())
      ensures forall k :: k in registered ==> k in old(registered) || k.SocketEntry?
      ensures forall k :: k in old(registered) ==> k in registered
    {
      var rest := channels.Keys;
      ghost var marks := {};
      while rest != {}
        invariant rest <= channels.Keys
        invariant marks == set n | n in channels.Keys - rest && channels[n].bind :: ChannelEntry(n)
        invariant forall others :: old(Accounted(others)) ==> Accounted(others + marks)
        invariant forall k :: k in registered ==> k in old(registered) || k.SocketEntry?
        invariant forall k :: k in old(registered) ==> k in registered
      {
        var name :| name in rest;
        if channels[name].bind {
          WriteBindAddress(name);
          marks := marks + {ChannelEntry(name)};
        }
        rest := rest - {name};
      }
      assert marks == BindMarks();
      if !cancelled {
        rest := channels.Keys;
        while rest != {}
          invariant rest <= channels.Keys
          invariant forall others :: old(Accounted(others)) ==> Accounted(others + marks)
          invariant forall k :: k in registered ==> k in old(registered) || k.SocketEntry?
          invariant forall k :: k in old(registered) ==> k in registered
        {
          var name :| name in rest;
          if !channels[name].bind { WriteSockets(name); }
          rest := rest - {name};
        }
      }
    }

    method Reset()
      requires Keyed(links)
      modifies this
      ensures channels == map[] && registered == [] && links == old(links)
      ensures own == old(own) - set k | k in old(registered)
    {
      channels := map[];
      own := own - set k | k in registered;
      registered := [];
    }

    /** One pass from InitializingDevice to ResettingDevice, with or without Bound in between: the
        channels with peers are removed at its end, the bound marks of the others are left. */
    method Cycle(p: Pass)
      requires Unused()
      modifies this
      ensures Unused() && links == Merged(old(links), Readings(service, p.setup.linkTexts))
      ensures own.Keys == old(own.Keys) - EffectOf(p, links).clears + EffectOf(p, links).marks
    {
      ghost var left := own.Keys;
      ghost var found := Initialize(p.setup);
      ghost var marks := {};
      if p.bound {
        marks := BindMarks();
        OnBound(p.cancelled);
      }
      ghost var written := registered;
      assert Accounted(left + marks) by { if !p.bound { assert left + marks == left; } }
      Reset();
      KeysLeft(p.setup, found, links, left, marks, written, own.Keys, p.bound);
    }

    /** Any number of passes, each with the registry as it is then: something is left exactly when
        some pass wrote the bound mark of a channel without peers and no later pass registered
        that channel. */
    method Cycles(passes: seq<Pass>)
      requires Unused() && own == map[] && links == map[]
      modifies this
      ensures Unused() && links == LinksAfter(service, passes) && own.Keys == Left(service, passes)
      ensures own == map[] <==> forall k: nat, name :: Marks(service, passes, k, name) ==>
          exists j: nat :: k < j && Clears(service, passes, j, name)
    {
      for i := 0 to |passes|
        invariant Unused() && links == LinksAfter(service, passes[..i]) && own.Keys == Left(service, passes[..i])
      {
        assert passes[..i + 1] == passes[..i] + [passes[i]];
        LinksNext(service, passes[..i], passes[i]);
        LeftNext(service, passes[..i], passes[i]);
        Cycle(passes[i]);
      }
      assert passes[..|passes|] == passes;
      NothingLeftIff(service, passes);
      assert own == map[] <==> own.Keys == {};
    }
  }

  // ---- what passes leave ------------------------------------------------------------------

  /** One pass: the registry it finds, whether it gets to Bound, whether the waits are cancelled. */
  datatype Pass = Pass(setup: Setup, bound: bool, cancelled: bool)

  function Fold<S, P>(f: (S, P) -> S, start: S, ps: seq<P>): S
    decreases |ps|
  {
    if ps == [] then start else f(Fold(f, start, ps[..|ps| - 1]), ps[|ps| - 1])
  }

  /** An output for each step of a fold, from the step and the state after it. */
  function Outputs<S, P, E>(f: (S, P) -> S, g: (P, S) -> E, start: S, ps: seq<P>): (es: seq<E>)
    ensures |es| == |ps|
    decreases |ps|
  {
    if ps == [] then [] else Outputs(f, g, start, ps[..|ps| - 1]) + [g(ps[|ps| - 1], Fold(f, start, ps))]
  }

  lemma {:induction false} OutputAt<S, P, E>(f: (S, P) -> S, g: (P, S) -> E, start: S, ps: seq<P>, k: nat)
    requires k < |ps|
    ensures Outputs(f, g, start, ps)[k] == g(ps[k], Fold(f, start, ps[..k + 1]))
    decreases |ps|
  {
    var z := |ps| - 1;
    if k < z {
      OutputAt(f, g, start, ps[..z], k);
      assert ps[..z][..k + 1] == ps[..k + 1];
    } else {
      assert ps[..k + 1] == ps;
    }
  }

  ghost function ReadPass(service: string): (map<string, Link>, Pass) -> map<string, Link> {
    (m: map<string, Link>, p: Pass) => Merged(m, Readings(service, p.setup.linkTexts))
  }

  /** The link table after all passes. */
  ghost function LinksAfter(service: string, passes: seq<Pass>): map<string, Link> {
    Fold(ReadPass(service), map[], passes)
  }

  lemma LinksNext(service: string, before: seq<Pass>, p: Pass)
    ensures LinksAfter(service, before + [p]) ==
        Merged(LinksAfter(service, before), Readings(service, p.setup.linkTexts))
  {
    assert (before + [p])[..|before|] == before;
  }

  ghost function Registers(s: Setup, links: map<string, Link>): set<Entry> {
    set n | n in s.endpoints && Found(s.ids, links, n) != {} :: ChannelEntry(n)
  }

  ghost function Peerless(s: Setup, links: map<string, Link>): set<Entry> {
    set n | n in s.endpoints && s.endpoints[n].bind && Found(s.ids, links, n) == {} :: ChannelEntry(n)
  }

  /** The channel keys a pass removes at its end, and those it leaves. */
  datatype Effect = Effect(clears: set<Entry>, marks: set<Entry>)

  ghost function EffectOf(p: Pass, links: map<string, Link>): Effect {
    Effect(Registers(p.setup, links), if p.bound then Peerless(p.setup, links) else {})
  }

  ghost function Leaves(): (Pass, map<string, Link>) -> Effect {
    (p: Pass, links: map<string, Link>) => EffectOf(p, links)
  }

  ghost function Effects(service: string, passes: seq<Pass>): (es: seq<Effect>)
    ensures |es| == |passes|
  {
    Outputs(ReadPass(service), Leaves(), map[], passes)
  }

  ghost function LeftBy(es: seq<Effect>): set<Entry>
    decreases |es|
  {
    if es == [] then {} else LeftBy(es[..|es| - 1]) - es[|es| - 1].clears + es[|es| - 1].marks
  }

  /** The keys left in the registry after all passes. */
  ghost function Left(service: string, passes: seq<Pass>): set<Entry> {
    LeftBy(Effects(service, passes))
  }

  /** Pass k writes the bound mark of a binding channel that has no peers. */
  ghost predicate Marks(service: string, passes: seq<Pass>, k: nat, name: string) {
    k < |passes| && passes[k].bound &&
      ChannelEntry(name) in Peerless(passes[k].setup, LinksAfter(service, passes[..k + 1]))
  }

  /** Pass k registers the channel, and so its reset removes the channel's key. */
  ghost predicate Clears(service: string, passes: seq<Pass>, k: nat, name: string) {
    k < |passes| && ChannelEntry(name) in Registers(passes[k].setup, LinksAfter(service, passes[..k + 1]))
  }

  lemma EffectAt(service: string, passes: seq<Pass>, k: nat)
    requires k < |passes|
    ensures Effects(service, passes)[k] == EffectOf(passes[k], LinksAfter(service, passes[..k + 1]))
  {
    OutputAt(ReadPass(service), Leaves(), map[], passes, k);
  }

  lemma MarksAndClears(service: string, passes: seq<Pass>, k: nat, name: string)
    requires k < |passes|
    ensures Marks(service, passes, k, name) <==> ChannelEntry(name) in Effects(service, passes)[k].marks
    ensures Clears(service, passes, k, name) <==> ChannelEntry(name) in Effects(service, passes)[k].clears
  {
    EffectAt(service, passes, k);
  }

  ghost predicate Lasts(es: seq<Effect>, k: nat, e: Entry) {
    k < |es| && e in es[k].marks && forall j :: k < j < |es| ==> e !in es[j].clears
  }

  lemma {:induction false} LeftIff(es: seq<Effect>, e: Entry)
    ensures e in LeftBy(es) <==> exists k: nat :: Lasts(es, k, e)
    decreases |es|
  {
    if es != [] {
      var z := |es| - 1;
      LeftIff(es[..z], e);
      if k: nat :| Lasts(es, k, e) {
        if k < z { assert Lasts(es[..z], k, e); }
      }
      if e in LeftBy(es[..z]) && e !in es[z].clears {
        var k: nat :| Lasts(es[..z], k, e);
        assert Lasts(es, k, e);
      }
      if e in es[z].marks { assert Lasts(es, z, e); }
    }
  }

  lemma OnlyChannels(service: string, passes: seq<Pass>, e: Entry)
    requires e in Left(service, passes)
    ensures e.ChannelEntry?
  {
    LeftIff(Effects(service, passes), e);
    var k: nat :| Lasts(Effects(service, passes), k, e);
    EffectAt(service, passes, k);
  }

  lemma LastingMark(service: string, passes: seq<Pass>, k: nat, name: string)
    requires Marks(service, passes, k, name) && Left(service, passes) == {}
    ensures exists j: nat :: k < j && Clears(service, passes, j, name)
  {
    var es := Effects(service, passes);
    LeftIff(es, ChannelEntry(name));
    MarksAndClears(service, passes, k, name);
    assert !Lasts(es, k, ChannelEntry(name));
    var j: nat :| k < j < |es| && ChannelEntry(name) in es[j].clears;
    MarksAndClears(service, passes, j, name);
  }

  lemma MarkOf(service: string, passes: seq<Pass>, e: Entry) returns (k: nat)
    requires e in Left(service, passes)
    ensures e.ChannelEntry? && Marks(service, passes, k, e.name) && forall j: nat :: k < j ==>
        !Clears(service, passes, j, e.name)
  {
    var es := Effects(service, passes);
    OnlyChannels(service, passes, e);
    LeftIff(es, e);
    k :| Lasts(es, k, e);
    MarksAndClears(service, passes, k, e.name);
    forall j: nat | k < j ensures !Clears(service, passes, j, e.name) {
      if j < |passes| { MarksAndClears(service, passes, j, e.name); }
    }
  }

  lemma NothingLeftIff(service: string, passes: seq<Pass>)
    ensures Left(service, passes) == {} <==>
            forall k: nat, name :: Marks(service, passes, k, name) ==>
              exists j: nat :: k < j && Clears(service, passes, j, name)
  {
    if Left(service, passes) == {} {
      forall k: nat, name | Marks(service, passes, k, name)
        ensures exists j: nat :: k < j && Clears(service, passes, j, name)
      {
        LastingMark(service, passes, k, name);
      }
    } else {
      var e :| e in Left(service, passes);
      var k := MarkOf(service, passes, e);
    }
  }

  lemma LeftNext(service: string, before: seq<Pass>, p: Pass)
    ensures var e := EffectOf(p, LinksAfter(service, before + [p]));
            Left(service, before + [p]) == Left(service, before) - e.clears + e.marks
  {
    var all := before + [p];
    EffectAt(service, all, |before|);
    assert all[..|all| - 1] == before && all[..|before| + 1] == all;
    assert Effects(service, all)[..|before|] == Effects(service, before);
  }

  lemma KeysLeft(s: Setup, found: map<string, set<string>>, links: map<string, Link>, left: set<Entry>,
      marks: set<Entry>,
      written: seq<Entry>, own: set<Entry>, bound: bool)
    requires found.Keys == s.endpoints.Keys && forall n :: n in found ==> found[n] == Found(s.ids, links, n)
    requires forall e :: e in own <==> e in left + marks && e !in written
    requires (forall e :: e in left ==> e.ChannelEntry?)
    requires forall n :: ChannelEntry(n) in written <==> n in s.endpoints && found[n] != {}
    requires marks == if bound then set n | n in s.endpoints && s.endpoints[n].bind :: ChannelEntry(n) else {}
    ensures own == left - Registers(s, links) + if bound then Peerless(s, links) else {}
  {
  }

  lemma ReadIsKept(service: string, before: map<string, Link>, links: map<string, Link>, texts: seq<string>)
    requires Keyed(before) && links == Merged(before, Readings(service, texts)) && PlainTable(service, links)
    requires forall l :: l in Readings(service, texts) ==> PlainLink(l)
    ensures forall l :: l in Readings(service, texts) ==> l in links.Values
  {
    var read := Readings(service, texts);
    MergedIs(before, read);
    forall l | l in read ensures l in links.Values {
      var i :| 0 <= i < |read| && read[i] == l;
      assert KeyRead(read, LinkKey(l));
      PlainKey(l, links[LinkKey(l)]);
    }
  }

  lemma FoundIs(ids: Ids, links: map<string, Link>, list: seq<Link>, name: string, peers: seq<string>)
    requires forall l :: l in list <==> l in links.Values
    requires Elements(peers) == PeersVia(ids, list, name)
    ensures Elements(peers) == Found(ids, links, name) && (peers == [] <==> Found(ids, links, name) == {})
  {
    assert peers != [] ==> peers[0] in Elements(peers);
    assert PeersVia(ids, list, name) == Found(ids, links, name);
  }

  // ---- one registry for all passes, and a changing one ------------------------------------

  lemma {:induction false} SameLinks(service: string, s: Setup, passes: seq<Pass>)
    requires passes != [] && forall p :: p in passes ==> p.setup == s
    ensures LinksAfter(service, passes) == Merged(map[], Readings(service, s.linkTexts))
    decreases |passes|
  {
    var front, p := passes[..|passes| - 1], passes[|passes| - 1];
    var read := Readings(service, s.linkTexts);
    assert passes == front + [p] && p in passes;
    LinksNext(service, front, p);
    if front != [] {
      assert forall q :: q in front ==> q in passes;
      SameLinks(service, s, front);
      MergedIs(map[], read);
      forall i | 0 <= i < |read|
        ensures LinkKey(read[i]) in Merged(map[], read)
      {
        assert KeyRead(read, LinkKey(read[i]));
      }
      MergedNothing(Merged(map[], read), read);
    } else {
      assert passes == [p];
    }
  }

  /** With a registry that stays the same, nothing is left if and only if no pass got to Bound or
      every binding channel has a peer. */
  lemma SameRegistryLeavesIff(service: string, s: Setup, passes: seq<Pass>)
    requires forall p :: p in passes ==> p.setup == s
    ensures Left(service, passes) == {} <==>
            (forall p :: p in passes ==> !p.bound) || Peerless(s, Merged(map[], Readings(service, s.linkTexts))) == {}
  {
    var links := Merged(map[], Readings(service, s.linkTexts));
    forall k | 0 <= k < |passes| ensures LinksAfter(service, passes[..k + 1]) == links && passes[k].setup == s {
      assert forall p :: p in passes[..k + 1] ==> p in passes;
      SameLinks(service, s, passes[..k + 1]);
      assert passes[k] in passes;
    }
    NothingLeftIff(service, passes);
    assert Registers(s, links) !! Peerless(s, links);
    if p :| p in passes && p.bound && Peerless(s, links) != {} {
      var k :| 0 <= k < |passes| && passes[k] == p;
      var e :| e in Peerless(s, links);
      assert Marks(service, passes, k, e.name);
      forall j: nat ensures !Clears(service, passes, j, e.name) {}
    }
  }

  /** A link record removed between two passes still gives its peer to the second one. */
  lemma RemovedLinkStays(a: End, b: End, id: string)
    requires Plain(a) && Plain(b) && a.service != b.service
    ensures var ids := map[b.service := {id}];
            var first := Pass(Setup(ids, map[a.channel := Endpoint(true, true, 0)], [LinkText(a, b)]), true, false);
            var second := first.(setup := first.setup.(linkTexts := []));
            && Found(ids, LinksAfter(a.service, [first, second]), a.channel) == {Key(b, id)}
            && Current(ids, a.service, second.setup.linkTexts, a.channel) == {}
  {
    var ids := map[b.service := {id}];
    var first := Pass(Setup(ids, map[a.channel := Endpoint(true, true, 0)], [LinkText(a, b)]), true, false);
    var second := first.(setup := first.setup.(linkTexts := []));
    var l := Link(a, b);
    ReadsBack(a.service, a, b);
    assert Readings(a.service, [LinkText(a, b)]) == [l];
    assert [first, second] == ([] + [first]) + [second];
    LinksNext(a.service, [], first);
    LinksNext(a.service, [] + [first], second);
    assert Readings(a.service, []) == [];
    OneLink(l);
    var links := LinksAfter(a.service, [first, second]);
    assert links == map[LinkKey(l) := l];
    assert links.Values == {l} && Selected(l, a.channel) && FarEnd(l, a.channel) == b;
    assert Found(ids, links, a.channel) == {Key(b, id)} by { FoundVia(ids, links, a.channel, l, id); }
  }

  lemma OneLink(l: Link)
    ensures Merged(map[], [l]) == map[LinkKey(l) := l] && Merged(map[LinkKey(l) := l], []) == map[LinkKey(l) := l]
  {
    assert [l][..0] == [];
  }
}
