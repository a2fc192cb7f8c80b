/** The registry that all devices of a topology have written together, and what the connecting
    devices make of it: every sub-socket is configured with the address its partner has bound. */
module Registry {
  import opened Text
  import opened Wiring
  import opened Resolution
  import opened Topology
  import opened Addresses
  import opened ChannelConfig

  /** What a channel's sockets are bound to, and its instance's host. */
  datatype Bound = Bound(actual: seq<string>, ip: string)

  /** The outcome of counting the peers of a channel (Initialize). */
  ghost predicate Counted(w: World, e: End, links: seq<Link>, peers: seq<string>, n: nat) {
    var preset := if e in w.preset then w.preset[e] else 0;
    && ReadBy(w, e.service, links) && Sorted(peers) && Elements(peers) == PeersVia(w.ids, links, e.channel)
    && (e !in w.auto ==> n == preset)
    && (e in w.auto && PlainLinks(w.ids, links) ==> n == preset + |peers|)
  }

  /** The device counts its peers and writes its channel's key, unless it has found none. */
  ghost predicate Initialised(st: Store, w: World, e: End, id: string) {
    exists links, peers, n :: Counted(w, e, links, peers, n) && Stored(st, Key(e, id), peers, n)
  }

  predicate Stored(st: Store, key: string, peers: seq<string>, n: nat) {
    if peers == [] then key !in st.peers && key !in st.sockets
    else key in st.peers && key in st.sockets && st.peers[key] == peers && st.sockets[key] == n
  }

  function SocketPrefix(e: End, id: string): string {
    TOP + e.service + [SEP] + id + [SEP] + "socket" + [SEP] + "chans." + e.channel + "."
  }

  /** FairMQ has bound one socket for each address entry of the channel; WriteAddress publishes
      their addresses, and ReadPeerAddress reads them with the binder's host. */
  ghost predicate Announced(st: Store, w: World, e: End, id: string, b: Bound) {
    && |b.actual| == |Entries("", Sockets(w, e))|
    && exists written :: Written(e.channel, b.actual, written) &&
         ReadBack(SocketPrefix(e, id), written, b.ip, AddressesOf(st, Key(e, id)))
  }

  /** Every device has initialised, and the binding channels are announced. */
  ghost predicate Published(st: Store, w: World, bound: map<string, Bound>) {
    && (forall e, id :: Present(w, e, id) ==> Initialised(st, w, e, id))
    && (forall e, id :: Present(w, e, id) && BindEnd(w, e) ==>
         Key(e, id) in bound && Announced(st, w, e, id, bound[Key(e, id)]))
    && (forall k :: k in st.addresses && st.addresses[k] != [] ==>
         exists e, id :: Present(w, e, id) && BindEnd(w, e) && k == Key(e, id))
  }

  function AddressOf(b: Bound, i: nat): string
    requires i < |b.actual|
  {
    MakeAddress(b.actual[i], b.ip)
  }

  lemma InitialisedIs(st: Store, w: World, e: End, id: string)
    requires Valid(w) && Initialised(st, w, e, id)
    ensures PeersOf(st, Key(e, id)) == Peers(w, e)
    ensures Peers(w, e) != [] ==> SocketsOf(st, Key(e, id)) == Sockets(w, e)
  {
    var links, peers, n :| Counted(w, e, links, peers, n) && Stored(st, Key(e, id), peers, n);
    CountedPeers(w, e, links, peers);
  }

  lemma AnnouncedIs(st: Store, w: World, e: End, id: string, b: Bound)
    requires Announced(st, w, e, id, b)
    ensures |AddressesOf(st, Key(e, id))| == if Sockets(w, e) <= 1 then 1 else Sockets(w, e)
  {
    var written :| Written(e.channel, b.actual, written) &&
      ReadBack(SocketPrefix(e, id), written, b.ip, AddressesOf(st, Key(e, id)));
    ReadAllBack(SocketPrefix(e, id), written, b.ip, AddressesOf(st, Key(e, id)));
  }

  /** What the devices write is the registry that the wiring needs. */
  lemma PublishedIsRegistered(st: Store, w: World, bound: map<string, Bound>)
    requires Valid(w) && Published(st, w, bound)
    ensures Registered(st, w)
  {
    forall e, id | Present(w, e, id) ensures ChannelRegistered(st, w, e, id) {
      InitialisedIs(st, w, e, id);
      if BindEnd(w, e) { AnnouncedIs(st, w, e, id, bound[Key(e, id)]); }
    }
  }

  /** Up to ten sub-sockets, each address is read back at its own index; beyond, the one of
      sub-socket 1 is not read at all. */
  lemma ReadsBound(st: Store, w: World, e: End, id: string, b: Bound)
    requires Announced(st, w, e, id, b)
    ensures |b.actual| <= 10 ==> AddressesOf(st, Key(e, id)) == Made(b.actual, b.ip)
    ensures |b.actual| > 10 && AllDifferent(Made(b.actual, b.ip)) ==> AddressOf(b, 1) !in AddressesOf(st, Key(e, id))
  {
    var written :| Written(e.channel, b.actual, written) &&
      ReadBack(SocketPrefix(e, id), written, b.ip, AddressesOf(st, Key(e, id)));
    if |b.actual| <= 10 {
      UpToTen(e.channel, SocketPrefix(e, id), b.actual, written, b.ip, AddressesOf(st, Key(e, id)));
    } else if AllDifferent(Made(b.actual, b.ip)) {
      PublishedExactlyUpToTen(e.channel, SocketPrefix(e, id), b.actual, written, b.ip, AddressesOf(st, Key(e, id)));
    }
  }

  /** Bound addresses are set, and without a comma. */
  ghost predicate ProperBound(bound: map<string, Bound>) {
    forall k :: k in bound ==> Proper(Made(bound[k].actual, bound[k].ip))
  }

  lemma ReadProper(st: Store, w: World, e: End, id: string, b: Bound)
    requires Announced(st, w, e, id, b) && Proper(Made(b.actual, b.ip))
    ensures Proper(AddressesOf(st, Key(e, id)))
  {
    var address := AddressesOf(st, Key(e, id));
    AnnouncedIs(st, w, e, id, b);
    var written :| Written(e.channel, b.actual, written) && ReadBack(SocketPrefix(e, id), written, b.ip, address);
    forall k | 0 <= k < |address| ensures ',' !in address[k] && address[k] != "" && address[k] != UNSET {
      var i :| 0 <= i < |written| && address[k] == MakeAddress(written[i], b.ip);
      assert ShownAt(e.channel, b.actual, i, written[i]);
      var j: nat :| Shows(e.channel, |b.actual|, i, j) && written[i] == b.actual[j];
      assert address[k] == Made(b.actual, b.ip)[j];
    }
  }

  lemma AllReadProper(st: Store, w: World, bound: map<string, Bound>)
    requires Published(st, w, bound) && ProperBound(bound)
    ensures forall k :: k in st.addresses && st.addresses[k] != [] ==> Proper(st.addresses[k])
  {
    forall k | k in st.addresses && st.addresses[k] != [] ensures Proper(st.addresses[k]) {
      var e, id :| Present(w, e, id) && BindEnd(w, e) && k == Key(e, id);
      ReadProper(st, w, e, id, bound[k]);
    }
  }

  /** The results of resolving the addresses of all connecting channels, from empty ones. */
  ghost predicate Resolved(st: Store, w: World, results: map<string, Result>) {
    forall c, cid :: Present(w, c, cid) && ConnectEnd(w, c) ==>
      Key(c, cid) in results && Answer(st, Key(c, cid), Sockets(w, c), "", results[Key(c, cid)])
  }

  /** Sub-socket j of this channel is configured with this text. */
  ghost predicate Configured(w: World, c: End, r: Result, j: nat, text: string) {
    r.Address? && j < |Entries(r.text, Sockets(w, c))| && Entries(r.text, Sockets(w, c))[j] == text
  }

  /** It is configured with the very address that the one sub-socket claiming it has bound. */
  ghost predicate OwnConfigured(w: World, bound: map<string, Bound>, c: End, cid: string, r: Result, j: nat) {
    exists b, bid, i: nat :: ClaimedBy(w, bound, c, cid, r, j, b, bid, i)
  }

  ghost predicate ClaimedBy(w: World, bound: map<string, Bound>, c: End, cid: string, r: Result, j: nat, b: End,
      bid: string, i: nat) {
    && Claims(w, c, cid, j, b, bid, i) && Key(b, bid) in bound && i < |bound[Key(b, bid)].actual|
    && Configured(w, c, r, j, AddressOf(bound[Key(b, bid)], i))
  }

  /** In an automatic topology, sub-socket j of a connecting channel is configured with the very
      address that sub-socket i of its partner has bound, where (b, bid, i) is the one sub-socket
      that claims it, as long as no partner has more than ten sub-sockets and the search starts
      from an empty address or has a single peer. */
  lemma SubSocketConfigured(st: Store, w: World, bound: map<string, Bound>, c: End, cid: string, j: nat,
      start: string, r: Result)
    returns (b: End, bid: string, i: nat)
    requires Valid(w) && Published(st, w, bound) && ProperBound(bound)
    requires AllAuto(w, c) && Present(w, c, cid) && ConnectEnd(w, c) && j < |Peers(w, c)|
    requires start in {"", UNSET} && Answer(st, Key(c, cid), Sockets(w, c), start, r)
    requires Late(w, c, start) == 0 && forall e :: e in FarEnds(w, c) ==> Sockets(w, e) <= 10
    ensures ClaimedBy(w, bound, c, cid, r, j, b, bid, i) && |Entries(r.text, Sockets(w, c))| == |Peers(w, c)|
  {
    b, bid, i := SubSocketMade(st, w, bound, c, cid, j, j, start, r);
    FarEndsBind(w, c, b);
    ReadsBound(st, w, b, bid, bound[Key(b, bid)]);
  }

  /** Sub-socket j of this channel is configured with what is read at position i of a binding
      channel with as many addresses in the registry as it has bound. */
  ghost predicate MadeFrom(st: Store, w: World, bound: map<string, Bound>, c: End, r: Result, j: nat, key: string,
      i: nat) {
    && key in bound && i < |bound[key].actual| == |AddressesOf(st, key)|
    && Configured(w, c, r, j, AddressesOf(st, key)[i])
  }

  /** Without these bounds: what is configured, in its place or one too late, is what was read. */
  lemma SubSocketMade(st: Store, w: World, bound: map<string, Bound>, c: End, cid: string, j: nat, place: nat,
      start: string, r: Result)
    returns (b: End, bid: string, i: nat)
    requires Valid(w) && Published(st, w, bound) && ProperBound(bound)
    requires AllAuto(w, c) && Present(w, c, cid) && ConnectEnd(w, c) && j < |Peers(w, c)|
    requires start in {"", UNSET} && Answer(st, Key(c, cid), Sockets(w, c), start, r) && place == j + Late(w, c, start)
    ensures Claims(w, c, cid, j, b, bid, i) && MadeFrom(st, w, bound, c, r, place, Key(b, bid), i)
    ensures |Entries(r.text, Sockets(w, c))| == |Peers(w, c)| + Late(w, c, start)
    ensures Late(w, c, start) == 1 ==> Configured(w, c, r, 0, UNSET)
  {
    PublishedIsRegistered(st, w, bound);
    AllReadProper(st, w, bound);
    b, bid, i := SubSocketReads(st, w, c, cid, j, place, start, r);
    FarEndsBind(w, c, b);
    AnnouncedIs(st, w, b, bid, bound[Key(b, bid)]);
  }

  /** With partners of at most ten sub-sockets, every sub-socket of a connecting channel gets its
      own partner's address if and only if the search started from an empty text or the channel
      has no more than one peer: from the text "unspecified" every sub-socket gets its neighbour's
      address, and the first one none. */
  lemma ConfiguredIffFromEmpty(st: Store, w: World, bound: map<string, Bound>, c: End, cid: string, start: string,
      r: Result)
    requires Valid(w) && Published(st, w, bound) && ProperBound(bound)
    requires AllAuto(w, c) && Present(w, c, cid) && ConnectEnd(w, c)
    requires start in {"", UNSET} && Answer(st, Key(c, cid), Sockets(w, c), start, r)
    requires forall e :: e in FarEnds(w, c) ==> Sockets(w, e) <= 10
    ensures (forall j: nat :: j < |Peers(w, c)| ==> OwnConfigured(w, bound, c, cid, r, j)) <==>
        start == "" || |Peers(w, c)| <= 1
  {
    if Late(w, c, start) == 0 {
      forall j: nat | j < |Peers(w, c)| ensures OwnConfigured(w, bound, c, cid, r, j) {
        var b, bid, i := SubSocketConfigured(st, w, bound, c, cid, j, start, r);
      }
    } else {
      NotOwnConfigured(st, w, bound, c, cid, start, r);
    }
  }

  lemma NotOwnConfigured(st: Store, w: World, bound: map<string, Bound>, c: End, cid: string, start: string, r: Result)
    requires Valid(w) && Published(st, w, bound) && ProperBound(bound)
    requires AllAuto(w, c) && Present(w, c, cid) && ConnectEnd(w, c)
    requires start in {"", UNSET} && Answer(st, Key(c, cid), Sockets(w, c), start, r) && Late(w, c, start) == 1
    ensures !OwnConfigured(w, bound, c, cid, r, 0)
  {
    var b, bid, i := SubSocketMade(st, w, bound, c, cid, 0, 1, start, r);
    forall d, did, m: nat ensures !ClaimedBy(w, bound, c, cid, r, 0, d, did, m) {
      if ClaimedBy(w, bound, c, cid, r, 0, d, did, m) { ProperIsSet(bound, Key(d, did), m); }
    }
  }

  lemma ProperIsSet(bound: map<string, Bound>, k: string, i: nat)
    requires ProperBound(bound) && k in bound && i < |bound[k].actual|
    ensures AddressOf(bound[k], i) != UNSET
  {
    assert Made(bound[k].actual, bound[k].ip)[i] == AddressOf(bound[k], i);
  }

  ghost predicate ClaimPartnered(w: World, bound: map<string, Bound>, results: map<string, Result>, b: End, bid: string,
      c: End, cid: string, j: nat, i: nat) {
    && Key(b, bid) in bound && i < |bound[Key(b, bid)].actual| && Key(c, cid) in results
    && Configured(w, c, results[Key(c, cid)], j, AddressOf(bound[Key(b, bid)], i))
  }

  /** Every sub-socket that claims one of this binding instance is configured with the address
      bound there. */
  ghost predicate Partnered(w: World, bound: map<string, Bound>, results: map<string, Result>, b: End, bid: string) {
    forall c, cid, j: nat, i: nat :: ConnectEnd(w, c) && Claims(w, c, cid, j, b, bid, i) ==>
      ClaimPartnered(w, bound, results, b, bid, c, cid, j, i)
  }

  /** For distinct addresses this is so exactly up to ten sub-sockets. */
  lemma PartneredIffUpToTen(st: Store, w: World, bound: map<string, Bound>, results: map<string, Result>, b: End,
      bid: string)
    requires Valid(w) && Published(st, w, bound) && ProperBound(bound) && Resolved(st, w, results)
    requires Present(w, b, bid) && BindEnd(w, b) && forall c :: c in FarEnds(w, b) ==> AllAuto(w, c)
    requires AllDifferent(Made(bound[Key(b, bid)].actual, bound[Key(b, bid)].ip))
    ensures Partnered(w, bound, results, b, bid) <==> Sockets(w, b) <= 10
  {
    if Sockets(w, b) <= 10 {
      forall c, cid, j: nat, i: nat | ConnectEnd(w, c) && Claims(w, c, cid, j, b, bid, i)
        ensures ClaimPartnered(w, bound, results, b, bid, c, cid, j, i)
      {
        ClaimConfigured(st, w, bound, results, b, bid, c, cid, j, i);
      }
    } else {
      MissedClaim(st, w, bound, results, b, bid);
    }
  }

  lemma ClaimReads(st: Store, w: World, bound: map<string, Bound>, b: End, bid: string, c: End, cid: string, j: nat,
      i: nat, r: Result)
    requires Valid(w) && Published(st, w, bound) && ProperBound(bound) && Answer(st, Key(c, cid), Sockets(w, c), "", r)
    requires BindEnd(w, b) && ConnectEnd(w, c) && Claims(w, c, cid, j, b, bid, i) && AllAuto(w, c)
    ensures MadeFrom(st, w, bound, c, r, j, Key(b, bid), i)
  {
    var d, did, m := SubSocketMade(st, w, bound, c, cid, j, j, "", r);
    SameClaim(w, c, cid, j, b, bid, i, d, did, m);
  }

  /** A sub-socket claims one other. */
  lemma SameClaim(w: World, c: End, cid: string, j: nat, b: End, bid: string, i: nat, d: End, did: string, m: nat)
    requires Valid(w) && ConnectEnd(w, c) && Claims(w, c, cid, j, b, bid, i) && Claims(w, c, cid, j, d, did, m)
    ensures d == b && did == bid && m == i
  {
    FarEndsBind(w, c, b);
    FarEndsBind(w, c, d);
    assert CleanEnd(b) && CleanEnd(d) && !Has(bid, SEP) && !Has(did, SEP);
    KeyInjective(b, bid, d, did);
    SortedDistinct(Peers(w, b), i, m);
  }

  lemma ClaimConfigured(st: Store, w: World, bound: map<string, Bound>, results: map<string, Result>, b: End,
      bid: string,
      c: End, cid: string, j: nat, i: nat)
    requires Valid(w) && Published(st, w, bound) && ProperBound(bound) && Resolved(st, w, results) &&
        Sockets(w, b) <= 10
    requires BindEnd(w, b) && ConnectEnd(w, c) && Claims(w, c, cid, j, b, bid, i) &&
        forall e :: e in FarEnds(w, b) ==> AllAuto(w, e)
    ensures ClaimPartnered(w, bound, results, b, bid, c, cid, j, i)
  {
    assert c in FarEnds(w, b);
    assert Present(w, c, cid);
    ClaimReads(st, w, bound, b, bid, c, cid, j, i, results[Key(c, cid)]);
    ReadsBound(st, w, b, bid, bound[Key(b, bid)]);
  }

  lemma MissedClaim(st: Store, w: World, bound: map<string, Bound>, results: map<string, Result>, b: End, bid: string)
    requires Valid(w) && Published(st, w, bound) && ProperBound(bound) && Resolved(st, w, results) && Sockets(w, b) > 10
    requires Present(w, b, bid) && BindEnd(w, b) && forall c :: c in FarEnds(w, b) ==> AllAuto(w, c)
    requires AllDifferent(Made(bound[Key(b, bid)].actual, bound[Key(b, bid)].ip))
    ensures !Partnered(w, bound, results, b, bid)
  {
    assert |Peers(w, b)| == Sockets(w, b) by {
      var c :| c in FarEnds(w, b);
      assert b in FarEnds(w, c) && AllAuto(w, c);
    }
    assert CleanEnd(b);
    var c, cid, j := ExactlyOneClaim(w, b, bid, 1);
    assert c in FarEnds(w, b);
    assert ConnectEnd(w, c) by { FarEndsConnect(w, b, c); }
    assert Present(w, c, cid);
    ClaimReads(st, w, bound, b, bid, c, cid, j, 1, results[Key(c, cid)]);
    ReadsBound(st, w, b, bid, bound[Key(b, bid)]);
    assert !ClaimPartnered(w, bound, results, b, bid, c, cid, j, 1);
  }

  lemma FarEndsConnect(w: World, b: End, c: End)
    requires Valid(w) && BindEnd(w, b) && c in FarEnds(w, b)
    ensures ConnectEnd(w, c)
  {
    var x :| x in w.wires && x.bind == b;
    var y :| y in w.wires && ((y.bind == b && y.connect == c) || (y.connect == b && y.bind == c));
    assert x.bind != y.connect || y.bind == b;
  }

  /** With single sockets, instance n connects to the address that instance n has bound. */
  lemma PairedWithBound(st: Store, w: World, bound: map<string, Bound>, b: End, c: End, numbers: set<nat>, n: nat,
      start: string, r: Result)
    requires Valid(w) && Published(st, w, bound) && OnlyLink(w, b, c) && ConnectEnd(w, c)
    requires Numbered(w, b.service, numbers) && Numbered(w, c.service, numbers) && n in numbers
    requires Answer(st, NumberedKey(c, n), Sockets(w, c), start, r)
    ensures NumberedKey(b, n) in bound && |bound[NumberedKey(b, n)].actual| == 1
    ensures r == Address(AddressOf(bound[NumberedKey(b, n)], 0))
  {
    PublishedIsRegistered(st, w, bound);
    PairedByNumber(st, w, b, c, numbers, n, start, r);
    FarEndsBind(w, c, b);
    var bid := InstanceId(b.service, n);
    assert bid in Instances(w.ids, b.service);
    assert Present(w, b, bid);
    ReadsBound(st, w, b, bid, bound[Key(b, bid)]);
  }
}
