/** The wiring of a whole topology: which sub-socket talks to which, for any number of
    services, instances and links (plugins/TopologyConfig.cxx, Initialize to
    ResolveConnectAddress). */
module Topology {
  import opened Text
  import opened Wiring
  import opened Resolution

  /** A link between a binding and a connecting channel. */
  datatype Wire = Wire(bind: End, connect: End)

  /** A frozen registry: instances, links, channels with autoSubChannel, configured numSockets. */
  datatype World = World(ids: Ids, wires: set<Wire>, auto: set<End>, preset: map<End, nat>)

  ghost predicate Valid(w: World) {
    && CleanIds(w.ids)
    && (forall x :: x in w.wires ==> CleanEnd(x.bind) && CleanEnd(x.connect) && x.bind.service != x.connect.service)
    && (forall x, y :: x in w.wires && y in w.wires ==> x.bind != y.connect)
  }

  function FarEnds(w: World, e: End): set<End> {
    (set x | x in w.wires && x.bind == e :: x.connect) + (set x | x in w.wires && x.connect == e :: x.bind)
  }

  ghost predicate BindEnd(w: World, e: End) {
    exists x :: x in w.wires && x.bind == e
  }

  ghost predicate ConnectEnd(w: World, e: End) {
    exists x :: x in w.wires && x.connect == e
  }

  /** The far ends of a connecting end bind. */
  lemma FarEndsBind(w: World, c: End, b: End)
    requires Valid(w) && ConnectEnd(w, c) && b in FarEnds(w, c)
    ensures BindEnd(w, b) && CleanEnd(c)
  {
    var x :| x in w.wires && x.connect == c;
    var y :| y in w.wires && ((y.bind == c && y.connect == b) || (y.connect == c && y.bind == b));
    assert y.bind != x.connect;
  }

  function PeerKeys(w: World, e: End): set<string> {
    set f, i | f in FarEnds(w, e) && i in Instances(w.ids, f.service) :: Key(f, i)
  }

  ghost function SortedList(s: set<string>): (r: seq<string>)
    ensures Sorted(r) && Elements(r) == s
  {
    if s == {} then [] else
      var x :| x in s;
      var t := SortedList(s - {x});
      assert forall y :: y in t <==> y in s - {x} by { assert forall y :: y in t <==> y in Elements(t); }
      Insert(x, t)
  }

  /** The peer list every instance with this channel writes to the registry. */
  ghost function Peers(w: World, e: End): (r: seq<string>)
    ensures Sorted(r) && Elements(r) == PeerKeys(w, e)
  {
    SortedList(PeerKeys(w, e))
  }

  /** The link records a device of this service reads, in any order. */
  ghost predicate ReadBy(w: World, service: string, links: seq<Link>) {
    && Distinct(links)
    && forall l: Link :: l in links <==>
        l.near.service == service && (Wire(l.near, l.far) in w.wires || Wire(l.far, l.near) in w.wires)
  }

  /** What a device counts from its own records is the topology's peer list: the relation is
      seen alike from both ends. */
  lemma CountedPeers(w: World, e: End, links: seq<Link>, peers: seq<string>)
    requires Valid(w) && ReadBy(w, e.service, links)
    requires Sorted(peers) && Elements(peers) == PeersVia(w.ids, links, e.channel)
    ensures peers == Peers(w, e) && PlainLinks(w.ids, links)
  {
    forall l | l in links ensures l.near.service != l.far.service && CleanEnd(l.far) {}
    assert FromService(links, e.service);
    forall k ensures k in PeersVia(w.ids, links, e.channel) <==> k in PeerKeys(w, e) {
      if k in PeersVia(w.ids, links, e.channel) {
        var l, i :| l in links && Selected(l, e.channel) && i in Instances(w.ids, FarEnd(l, e.channel).service)
          && k == Key(FarEnd(l, e.channel), i);
        assert l.near == e;
        assert l.far in FarEnds(w, e);
      }
      if k in PeerKeys(w, e) {
        var f, i :| f in FarEnds(w, e) && i in Instances(w.ids, f.service) && k == Key(f, i);
        assert Link(e, f) in links;
        assert FarEnd(Link(e, f), e.channel) == f;
      }
    }
    SortedUnique(peers, Peers(w, e));
  }

  lemma PeerIff(w: World, e: End, f: End, i: string)
    requires Valid(w) && CleanEnd(f) && !Has(i, SEP)
    ensures Key(f, i) in Peers(w, e) <==> f in FarEnds(w, e) && i in Instances(w.ids, f.service)
  {
    assert Key(f, i) in Peers(w, e) <==> Key(f, i) in Elements(Peers(w, e));
    if Key(f, i) in PeerKeys(w, e) {
      var g, j :| g in FarEnds(w, e) && j in Instances(w.ids, g.service) && Key(f, i) == Key(g, j);
      KeyInjective(f, i, g, j);
    }
  }

  lemma PeerAt(w: World, e: End, k: nat) returns (f: End, i: string)
    requires Valid(w) && k < |Peers(w, e)|
    ensures f in FarEnds(w, e) && i in Instances(w.ids, f.service) && Peers(w, e)[k] == Key(f, i)
    ensures CleanEnd(f) && !Has(i, SEP) && e in FarEnds(w, f)
  {
    assert Peers(w, e)[k] in Elements(Peers(w, e));
    f, i :| f in FarEnds(w, e) && i in Instances(w.ids, f.service) && Peers(w, e)[k] == Key(f, i);
  }

  // ---- every sub-socket has exactly one partner -------------------------------------------

  /** Instance `id` of channel `e`. */
  ghost predicate Present(w: World, e: End, id: string) {
    id in Instances(w.ids, e.service) && FarEnds(w, e) != {}
  }

  /** Sub-socket j of (c, cid) takes the address at position i of (b, bid): (b, bid) is its j-th
      peer and it is the i-th in that peer's list. */
  ghost predicate Claims(w: World, c: End, cid: string, j: nat, b: End, bid: string, i: nat) {
    && Present(w, c, cid) && Present(w, b, bid) && b in FarEnds(w, c)
    && j < |Peers(w, c)| && Peers(w, c)[j] == Key(b, bid)
    && i < |Peers(w, b)| && Peers(w, b)[i] == Key(c, cid)
  }

  /** From either side: sub-socket i of (b, bid) is claimed by one sub-socket, and by no other. */
  lemma ExactlyOneClaim(w: World, b: End, bid: string, i: nat)
    returns (c: End, cid: string, j: nat)
    requires Valid(w) && Present(w, b, bid) && CleanEnd(b) && i < |Peers(w, b)|
    ensures Claims(w, c, cid, j, b, bid, i) && Claims(w, b, bid, i, c, cid, j)
    ensures forall d, did, m :: Claims(w, d, did, m, b, bid, i) ==> d == c && did == cid && m == j
  {
    c, cid := PeerAt(w, b, i);
    assert !Has(bid, SEP);
    PeerIff(w, c, b, bid);
    j := Rank(Peers(w, c), Key(b, bid));
    forall d, did, m | Claims(w, d, did, m, b, bid, i) ensures d == c && did == cid && m == j {
      assert Key(d, did) == Key(c, cid);
      assert CleanEnd(d) && !Has(did, SEP);
      KeyInjective(d, did, c, cid);
      RankOf(Peers(w, c), m);
    }
  }

  // ---- what the devices resolve -----------------------------------------------------------

  ghost function Sockets(w: World, e: End): nat {
    (if e in w.preset then w.preset[e] else 0) + if e in w.auto then |Peers(w, e)| else 0
  }

  /** The registry after every device has initialised and the binding channels have published
      their addresses; a channel without peers is not in it. */
  ghost predicate Registered(st: Store, w: World) {
    forall e, id :: Present(w, e, id) ==> ChannelRegistered(st, w, e, id)
  }

  ghost predicate ChannelRegistered(st: Store, w: World, e: End, id: string) {
    && PeersOf(st, Key(e, id)) == Peers(w, e)
    && (Peers(w, e) != [] ==> SocketsOf(st, Key(e, id)) == Sockets(w, e))
    && (Peers(w, e) != [] && BindEnd(w, e) ==>
         |AddressesOf(st, Key(e, id))| == if Sockets(w, e) <= 1 then 1 else Sockets(w, e))
  }

  ghost predicate AllAuto(w: World, c: End) {
    forall e :: e == c || e in FarEnds(w, c) ==> e in w.auto && e !in w.preset
  }

  /** The address at my rank, from every peer in turn. */
  ghost predicate OnePerPeer(st: Store, me: string, s: seq<string>) {
    var v := View(st, me);
    |s| == |v| && forall k :: 0 <= k < |v| ==> v[k].rank < |v[k].address| && s[k] == v[k].address[v[k].rank]
  }

  lemma AutoPeer(st: Store, w: World, c: End, cid: string, k: nat)
    requires Valid(w) && Registered(st, w) && AllAuto(w, c) && Present(w, c, cid) && ConnectEnd(w, c)
    requires k < |Peers(w, c)|
    ensures PeersOf(st, Key(c, cid)) == Peers(w, c)
    ensures var p := View(st, Key(c, cid))[k]; p.rank < |p.address| && Pickable(p) && (!p.many ==> p.rank == 0)
  {
    var b, bid := PeerAt(w, c, k);
    FarEndsBind(w, c, b);
    assert Present(w, b, bid) && !Has(cid, SEP);
    assert ChannelRegistered(st, w, b, bid) && ChannelRegistered(st, w, c, cid);
    PeerIff(w, b, c, cid);
  }

  /** With automatic sub-channels on both ends the four branches of the loop all compute the
      same thing, and neither assertion nor index of the original fails: one address from each
      peer, appended to the text that the search of a channel with several peers starts from. */
  lemma AutomaticWiring(st: Store, w: World, c: End, cid: string, start: string, r: Result) returns (s: seq<string>)
    requires Valid(w) && Registered(st, w) && AllAuto(w, c) && Present(w, c, cid) && ConnectEnd(w, c)
    requires Answer(st, Key(c, cid), Sockets(w, c), start, r)
    ensures OnePerPeer(st, Key(c, cid), s) && r == Address(if |s| == 1 then s[0] else JoinedFrom(start, s))
  {
    var v, n := View(st, Key(c, cid)), |Peers(w, c)|;
    assert ChannelRegistered(st, w, c, cid);
    forall k | 0 <= k < n ensures v[k].rank < |v[k].address| && Pickable(v[k]) && (!v[k].many ==> v[k].rank == 0) {
      AutoPeer(st, w, c, cid, k);
    }
    if n > 1 {
      s := Picks(v);
    } else if n == 1 {
      s := [v[0].address[v[0].rank]];
      assert Visited(v, 0);
      assert s[..0] == [];
      assert if v[0].many then Overwrites(v, 0) else Stops(v, 0);
    } else {
      s := [];
    }
  }

  /** A single-socket channel facing many-socket peers keeps the last peer's address only. */
  lemma LastPeerWins(st: Store, me: string, mySockets: nat, start: string, r: Result)
    requires mySockets <= 1 && PeersOf(st, me) != [] && Answer(st, me, mySockets, start, r)
    requires forall k :: 0 <= k < |PeersOf(st, me)| ==> var p := View(st, me)[k]; p.many && p.rank < |p.address|
    ensures var p := View(st, me)[|PeersOf(st, me)| - 1]; r == Address(p.address[p.rank])
  {
    var v := View(st, me);
    forall k | 0 <= k < |v| ensures Overwrites(v, k) && !Stops(v, k) && !Breaks(v, k) {}
    assert LastWord(v, start, |v|, r.text);
    assert Overwrites(v, |v| - 1);
  }

  // ---- single sockets: pairs of the same rank, and of the same instance number -------------

  ghost predicate OnlyLink(w: World, b: End, c: End) {
    FarEnds(w, c) == {b} && FarEnds(w, b) == {c} && Sockets(w, b) <= 1 && Sockets(w, c) <= 1
  }

  function First(s: seq<string>): string {
    if s == [] then "" else s[0]
  }

  /** The connecting instance of rank r takes the binding instance of rank r; a lone binding
      instance is taken by all; without a partner the address stays unset. */
  lemma PairedByRank(st: Store, w: World, b: End, c: End, cid: string, start: string, r: Result)
    requires Valid(w) && Registered(st, w) && OnlyLink(w, b, c) && Present(w, c, cid) && ConnectEnd(w, c)
    requires Answer(st, Key(c, cid), Sockets(w, c), start, r)
    ensures var p, rank := Peers(w, c), Rank(Peers(w, b), Key(c, cid));
            r == Address(if |p| == 1 then First(AddressesOf(st, p[0]))
                         else if rank < |p| then First(AddressesOf(st, p[rank])) else start)
  {
    var me, p, rank := Key(c, cid), Peers(w, c), Rank(Peers(w, b), Key(c, cid));
    var v := View(st, me);
    assert ChannelRegistered(st, w, c, cid);
    FarEndsBind(w, c, b);
    forall k | 0 <= k < |p|
      ensures !v[k].many && v[k].rank == rank && v[k].address == AddressesOf(st, p[k]) && |v[k].address| == 1
    {
      var f, i := PeerAt(w, c, k);
      assert Present(w, f, i) && ChannelRegistered(st, w, f, i) && !Has(cid, SEP);
      PeerIff(w, b, c, cid);
    }
    forall k | 0 <= k < |p|
      ensures !Overwrites(v, k) && !Breaks(v, k) && (Stops(v, k) <==> k == rank || (k == 0 && |p| == 1))
    {
      assert !v[0].many;
    }
    assert r.Address?;
    if rank < |p| {
      assert Stops(v, rank);
    } else if |p| == 1 {
      assert Stops(v, 0);
    }
  }

  /** Instance ids as the allocator makes them. */
  function InstanceId(service: string, n: nat): string {
    service + "-" + Dec(n)
  }

  /** Ids as the allocator makes them satisfy what the wiring asks of ids. */
  lemma NumberedIsValid(w: World, numbers: map<string, set<nat>>)
    requires forall s :: s in w.ids ==>
        !Has(s, SEP) && s in numbers && w.ids[s] == set n | n in numbers[s] :: InstanceId(s, n)
    requires forall x :: x in w.wires ==> CleanEnd(x.bind) && CleanEnd(x.connect) && x.bind.service != x.connect.service
    requires forall x, y :: x in w.wires && y in w.wires ==> x.bind != y.connect
    ensures Valid(w)
  {
    forall s, i | s in w.ids && i in w.ids[s] ensures !Has(i, SEP) {
      var n :| n in numbers[s] && i == InstanceId(s, n);
      DecNoSep(n);
      forall k | 0 <= k < |i| ensures i[k] != SEP {
        assert i[k] == if k < |s| then s[k] else if k == |s| then '-' else Dec(n)[k - |s| - 1];
      }
    }
  }

  function NumberedKey(e: End, n: nat): string {
    Key(e, InstanceId(e.service, n))
  }

  /** Two instances of a service compare by their numbers' texts, whatever the service. */
  lemma NumberedLess(e: End, f: End, m: nat, n: nat)
    requires m != n
    ensures Less(NumberedKey(e, m), NumberedKey(e, n)) <==> Less(NumberedKey(f, m), NumberedKey(f, n))
  {
    NumberedLessBy(e, m, n);
    NumberedLessBy(f, m, n);
  }

  lemma NumberedKeyParts(e: End, n: nat, p: string, x: string)
    requires p == TOP + e.service + [SEP] + e.service + "-" && x == CHANNEL + e.channel
    ensures NumberedKey(e, n) == p + (Dec(n) + [SEP] + x)
  {
  }

  lemma NumberedLessBy(e: End, m: nat, n: nat)
    requires m != n
    ensures Less(NumberedKey(e, m), NumberedKey(e, n)) <==> Less(Dec(m) + [SEP], Dec(n) + [SEP])
  {
    var p, x := TOP + e.service + [SEP] + e.service + "-", CHANNEL + e.channel;
    NumberedKeyParts(e, m, p, x);
    NumberedKeyParts(e, n, p, x);
    LessCommonPrefix(p, Dec(m) + [SEP] + x, Dec(n) + [SEP] + x);
    if Dec(m) == Dec(n) { DecInjective(m, n); }
    LessSeparated(Dec(m), Dec(n), x, x);
  }

  ghost predicate Numbered(w: World, service: string, numbers: set<nat>) {
    Instances(w.ids, service) == set n | n in numbers :: InstanceId(service, n)
  }

  ghost predicate SameNumbers(w: World, b: End, c: End, numbers: set<nat>) {
    && Valid(w) && FarEnds(w, c) == {b} && FarEnds(w, b) == {c}
    && Numbered(w, b.service, numbers) && Numbered(w, c.service, numbers)
  }

  ghost function NumberedKeys(e: End, numbers: set<nat>): set<string> {
    set n | n in numbers :: NumberedKey(e, n)
  }

  lemma NumberedPeers(w: World, b: End, c: End, numbers: set<nat>)
    requires SameNumbers(w, b, c, numbers)
    ensures PeerKeys(w, b) == NumberedKeys(c, numbers)
  {
    forall n | n in numbers ensures NumberedKey(c, n) in PeerKeys(w, b) {
      assert InstanceId(c.service, n) in Instances(w.ids, c.service);
    }
  }

  /** The numbers in the order in which their keys are sorted. */
  ghost function Numbers(s: seq<string>, e: End, numbers: set<nat>): (num: seq<nat>)
    requires forall x :: x in s ==> x in NumberedKeys(e, numbers)
    ensures |num| == |s| && forall i :: 0 <= i < |s| ==> num[i] in numbers && s[i] == NumberedKey(e, num[i])
  {
    if s == [] then [] else
      assert s[0] in NumberedKeys(e, numbers);
      var n :| n in numbers && s[0] == NumberedKey(e, n);
      [n] + Numbers(s[1..], e, numbers)
  }

  lemma Renamed(b: End, c: End, num: seq<nat>, s: seq<string>, t: seq<string>)
    requires |num| == |s| == |t| && Sorted(s)
    requires forall i :: 0 <= i < |s| ==> s[i] == NumberedKey(c, num[i]) && t[i] == NumberedKey(b, num[i])
    ensures Sorted(t)
  {
    forall i, j | 0 <= i < j < |t| ensures Less(t[i], t[j]) {
      if num[i] == num[j] { LessIrreflexive(s[i]); }
      NumberedLess(b, c, num[i], num[j]);
    }
  }

  /** Both peer lists put the same instance numbers in the same places. */
  lemma SamePermutation(w: World, b: End, c: End, numbers: set<nat>) returns (num: seq<nat>)
    requires SameNumbers(w, b, c, numbers)
    ensures |num| == |Peers(w, b)| == |Peers(w, c)|
    ensures forall k :: 0 <= k < |num| ==> num[k] in numbers && Peers(w, b)[k] == NumberedKey(c, num[k])
    ensures forall k :: 0 <= k < |num| ==> Peers(w, c)[k] == NumberedKey(b, num[k])
  {
    var s := Peers(w, b);
    NumberedPeers(w, b, c, numbers);
    NumberedPeers(w, c, b, numbers);
    assert forall x :: x in s ==> x in Elements(s);
    num := Numbers(s, c, numbers);
    var t := seq(|s|, i requires 0 <= i < |s| => NumberedKey(b, num[i]));
    Renamed(b, c, num, s, t);
    SameElements(b, c, numbers, num, s, t);
    SortedUnique(t, Peers(w, c));
  }

  lemma SameElements(b: End, c: End, numbers: set<nat>, num: seq<nat>, s: seq<string>, t: seq<string>)
    requires |num| == |s| == |t| && Elements(s) == NumberedKeys(c, numbers)
    requires forall i :: 0 <= i < |s| ==>
        num[i] in numbers && s[i] == NumberedKey(c, num[i]) && t[i] == NumberedKey(b, num[i])
    ensures Elements(t) == NumberedKeys(b, numbers)
  {
    forall n | n in numbers ensures NumberedKey(b, n) in t {
      assert NumberedKey(c, n) in Elements(s);
      var i := Rank(s, NumberedKey(c, n));
      SameNumber(c, num[i], n);
      assert t[i] == NumberedKey(b, n);
    }
  }

  lemma SameNumber(e: End, m: nat, n: nat)
    requires NumberedKey(e, m) == NumberedKey(e, n)
    ensures m == n
  {
    if m != n {
      NumberedLessBy(e, m, n);
      NumberedLessBy(e, n, m);
      LessTotal(Dec(m) + [SEP], Dec(n) + [SEP]);
      LessIrreflexive(NumberedKey(e, m));
      assert (Dec(m) + [SEP])[..|Dec(m)|] == Dec(m) && (Dec(n) + [SEP])[..|Dec(n)|] == Dec(n);
      DecInjective(m, n);
    }
  }

  /** Each connecting instance talks to the binding instance of its own number, although both
      peer lists are sorted as text. */
  lemma PairedByNumber(st: Store, w: World, b: End, c: End, numbers: set<nat>, n: nat, start: string, r: Result)
    requires Valid(w) && Registered(st, w) && OnlyLink(w, b, c) && ConnectEnd(w, c)
    requires Numbered(w, b.service, numbers) && Numbered(w, c.service, numbers) && n in numbers
    requires Answer(st, NumberedKey(c, n), Sockets(w, c), start, r)
    ensures r == Address(First(AddressesOf(st, NumberedKey(b, n))))
  {
    var cid := InstanceId(c.service, n);
    assert cid in Instances(w.ids, c.service);
    FarEndsBind(w, c, b);
    PeerIff(w, b, c, cid);
    var rank := Rank(Peers(w, b), Key(c, cid));
    var num := SamePermutation(w, b, c, numbers);
    SameNumber(c, num[rank], n);
    PairedByRank(st, w, b, c, cid, start, r);
  }
}
