/** Which address a connecting channel takes from each peer
    (plugins/TopologyConfig.cxx, ResolveConnectAddress), and what that means for the whole
    topology: every sub-socket has exactly one partner. */
module Resolution {
  import opened Text
  import opened Wiring

  /** What a device reads back from the registry, by channel key. */
  datatype Store = Store(
    peers: map<string, seq<string>>, sockets: map<string, nat>, addresses: map<string, seq<string>>)

  function PeersOf(st: Store, key: string): seq<string> {
    if key in st.peers then st.peers[key] else []
  }

  function SocketsOf(st: Store, key: string): nat {
    if key in st.sockets then st.sockets[key] else 0
  }

  function AddressesOf(st: Store, key: string): seq<string> {
    if key in st.addresses then st.addresses[key] else []
  }

  /** The text set as the channel's address; or a failed assertion or index in the original; or
      nothing, because the address was preset. */
  datatype Result = Address(text: string) | Failed | Preset

  const UNSET: string := "unspecified"

  function Append(text: string, a: string): string {
    if text == "" then a else text + "," + a
  }

  /** Addresses appended one after the other to the text that is there. */
  function JoinedFrom(start: string, s: seq<string>): string {
    if s == [] then start else Append(JoinedFrom(start, s[..|s| - 1]), s[|s| - 1])
  }

  function Joined(s: seq<string>): string {
    JoinedFrom("", s)
  }

  function MyRank(st: Store, me: string, k: nat): nat
    requires k < |PeersOf(st, me)|
  {
    Rank(PeersOf(st, PeersOf(st, me)[k]), me)
  }

  predicate ManySockets(st: Store, me: string, k: nat)
    requires k < |PeersOf(st, me)|
  {
    SocketsOf(st, PeersOf(st, me)[k]) > 1
  }

  function PeerAddresses(st: Store, me: string, k: nat): seq<string>
    requires k < |PeersOf(st, me)|
  {
    AddressesOf(st, PeersOf(st, me)[k])
  }

  /** What the loop sees of one peer: my rank in its list, whether it has several sockets, its
      addresses. */
  datatype PeerView = PeerView(rank: nat, many: bool, address: seq<string>)

  ghost function View(st: Store, me: string): (v: seq<PeerView>)
    ensures |v| == |PeersOf(st, me)|
    ensures forall k :: 0 <= k < |v| ==>
        v[k] == PeerView(MyRank(st, me, k), ManySockets(st, me, k), PeerAddresses(st, me, k))
  {
    seq(|PeersOf(st, me)|, k requires 0 <= k < |PeersOf(st, me)| =>
      PeerView(MyRank(st, me, k), ManySockets(st, me, k), PeerAddresses(st, me, k)))
  }

  // ---- a channel with several sub-sockets: one address from each peer ---------------------

  predicate Pickable(p: PeerView) {
    if p.many then p.rank < |p.address| else |p.address| == 1
  }

  function Pick(p: PeerView): string
    requires Pickable(p)
  {
    p.address[if p.many then p.rank else 0]
  }

  ghost predicate AllPickable(v: seq<PeerView>) {
    forall k :: 0 <= k < |v| ==> Pickable(v[k])
  }

  ghost function Picks(v: seq<PeerView>): (s: seq<string>)
    requires AllPickable(v)
    ensures |s| == |v| && forall k :: 0 <= k < |v| ==> s[k] == Pick(v[k])
  {
    seq(|v|, k requires 0 <= k < |v| => Pick(v[k]))
  }

  // ---- a channel with one socket ----------------------------------------------------------

  /** Once a single-socket peer has been met, only peers at my own rank are looked at. */
  ghost predicate Visited(v: seq<PeerView>, k: nat)
    requires k < |v|
  {
    v[k].rank == k || forall j :: 0 <= j < k ==> v[j].many
  }

  /** The search ends here with this peer's first address. */
  ghost predicate Stops(v: seq<PeerView>, k: nat)
    requires k < |v|
  {
    Visited(v, k) && !v[k].many && (v[k].rank == k || |v| == 1)
  }

  /** A many-socket peer looked at replaces what was found before. */
  ghost predicate Overwrites(v: seq<PeerView>, k: nat)
    requires k < |v|
  {
    Visited(v, k) && v[k].many
  }

  /** The search gets past the first n peers. */
  ghost predicate RunsTo(v: seq<PeerView>, n: nat)
    requires n <= |v|
  {
    forall k :: 0 <= k < n ==> !Stops(v, k) && (Overwrites(v, k) ==> v[k].rank < |v[k].address|)
  }

  ghost predicate DecidedBy(v: seq<PeerView>, n: nat, m: nat, text: string)
    requires m < n <= |v|
  {
    && Overwrites(v, m) && v[m].rank < |v[m].address| && text == v[m].address[v[m].rank]
    && forall k :: m < k < n ==> !Overwrites(v, k)
  }

  /** The last visited many-socket peer among the first n decides the address. */
  ghost predicate LastWord(v: seq<PeerView>, start: string, n: nat, text: string)
    requires n <= |v|
  {
    || (text == start && forall k :: 0 <= k < n ==> !Overwrites(v, k))
    || exists m :: 0 <= m < n && DecidedBy(v, n, m, text)
  }

  ghost predicate EndsAt(v: seq<PeerView>, s: nat, text: string)
    requires s < |v|
  {
    Stops(v, s) && RunsTo(v, s) && v[s].address != [] && text == v[s].address[0]
  }

  ghost predicate Breaks(v: seq<PeerView>, k: nat)
    requires k < |v|
  {
    RunsTo(v, k) && if Stops(v, k) then v[k].address == [] else Overwrites(v, k) && v[k].rank >= |v[k].address|
  }

  /** The complete answer for a single-socket channel: the search ends at a peer, or runs out
      of peers, or indexes past the end of a peer's address list. */
  ghost predicate SingleAnswer(v: seq<PeerView>, start: string, r: Result) {
    match r
    case Address(text) => (exists s :: 0 <= s < |v| && EndsAt(v, s, text)) ||
      (RunsTo(v, |v|) && LastWord(v, start, |v|, text))
    case Failed => exists k :: 0 <= k < |v| && Breaks(v, k)
    case Preset => false
  }

  /** The complete answer: the loop over the peers with its four branches computes exactly this. */
  ghost predicate Answer(st: Store, me: string, mySockets: nat, start: string, r: Result) {
    Final(View(st, me), mySockets, start, r)
  }

  ghost predicate Final(v: seq<PeerView>, mySockets: nat, start: string, r: Result) {
    if mySockets <= 1 then SingleAnswer(v, start, r)
    else r == if AllPickable(v) then Address(JoinedFrom(start, Picks(v))) else Failed
  }

  /** The loop's state before peer k. */
  ghost predicate Before(v: seq<PeerView>, mySockets: nat, start: string, k: nat, text: string, is1to1: bool)
    requires k <= |v|
  {
    if mySockets > 1 then !is1to1 && AllPickable(v[..k]) && text == JoinedFrom(start, Picks(v[..k]))
    else
      && is1to1 == (exists j :: 0 <= j < k && !v[j].many)
      && RunsTo(v, k) && LastWord(v, start, k, text)
  }

  lemma LastWordKept(v: seq<PeerView>, start: string, k: nat, text: string)
    requires k < |v| && LastWord(v, start, k, text) && !Overwrites(v, k)
    ensures LastWord(v, start, k + 1, text)
  {
    if exists m :: 0 <= m < k && DecidedBy(v, k, m, text) {
      var m :| 0 <= m < k && DecidedBy(v, k, m, text);
      assert DecidedBy(v, k + 1, m, text);
    }
  }

  lemma Skip(v: seq<PeerView>, mySockets: nat, start: string, k: nat, text: string)
    requires k < |v| && Before(v, mySockets, start, k, text, true) && v[k].rank != k
    ensures Before(v, mySockets, start, k + 1, text, true)
  {
    assert !Visited(v, k);
    LastWordKept(v, start, k, text);
  }

  lemma Look(v: seq<PeerView>, mySockets: nat, start: string, k: nat, text: string, is1to1: bool)
    requires mySockets <= 1
    requires k < |v| && Before(v, mySockets, start, k, text, is1to1) && (is1to1 ==> v[k].rank == k)
    ensures Visited(v, k)
    ensures !v[k].many && !Stops(v, k) ==> Before(v, mySockets, start, k + 1, text, true)
    ensures v[k].many && v[k].rank < |v[k].address| ==>
        Before(v, mySockets, start, k + 1, v[k].address[v[k].rank], is1to1)
  {
    if !v[k].many {
      LastWordKept(v, start, k, text);
    } else if v[k].rank < |v[k].address| {
      assert DecidedBy(v, k + 1, k, v[k].address[v[k].rank]);
    }
  }

  lemma Collect(v: seq<PeerView>, mySockets: nat, start: string, k: nat, text: string)
    requires mySockets > 1
    requires k < |v| && Before(v, mySockets, start, k, text, false) && Pickable(v[k])
    ensures Before(v, mySockets, start, k + 1, Append(text, Pick(v[k])), false)
  {
    assert v[..k + 1][..k] == v[..k];
    assert Picks(v[..k + 1])[..k] == Picks(v[..k]);
  }

  /** One turn of the loop: skip this peer, end the search, or take an address from it. */
  method LookAt(ghost v: seq<PeerView>, mySockets: nat, ghost start: string, k: nat, p: PeerView, single: bool,
      text: string, is1to1: bool)
    returns (done: bool, r: Result, text': string, is1to1': bool)
    requires k < |v| && p == v[k] && single == (|v| == 1) && Before(v, mySockets, start, k, text, is1to1)
    ensures if done then Final(v, mySockets, start, r) else Before(v, mySockets, start, k + 1, text', is1to1')
  {
    done, r, text', is1to1' := false, Failed, text, is1to1;
    if is1to1 && p.rank != k {
      Skip(v, mySockets, start, k, text);
      return;
    }
    if mySockets > 1 {
      // n:1 takes the only address, n:m the one at my rank
      if !Pickable(p) { return true, Failed, text, is1to1; }
      Collect(v, mySockets, start, k, text);
      text' := Append(text, p.address[if p.many then p.rank else 0]);
      return;
    }
    Look(v, mySockets, start, k, text, is1to1);
    if !p.many {
      // 1:1 or fan-in/fan-out
      is1to1' := true;
      if p.rank == k || single {
        assert if p.address == [] then Breaks(v, k) else EndsAt(v, k, p.address[0]);
        return true, if p.address == [] then Failed else Address(p.address[0]), text, true;
      }
    } else {
      // 1:m
      if p.rank >= |p.address| {
        assert Breaks(v, k);
        return true, Failed, text, is1to1;
      }
      text' := p.address[p.rank];
    }
  }

  /** A channel with an address of its own is left alone; the search of another one goes on from
      its address text, which is empty or says that it is unspecified. */
  method ResolveConnectAddress(st: Store, me: string, mySockets: nat, start: string) returns (r: Result)
    ensures if start in {"", UNSET} then Answer(st, me, mySockets, start, r) else r == Preset
  {
    if start != "" && start != UNSET { return Preset; }
    var peers := PeersOf(st, me);
    ghost var v := View(st, me);
    var text, is1to1, done := start, false, false;
    for k := 0 to |peers|
      invariant Before(v, mySockets, start, k, text, is1to1)
    {
      var p := PeerView(Rank(PeersOf(st, peers[k]), me), SocketsOf(st, peers[k]) > 1, AddressesOf(st, peers[k]));
      done, r, text, is1to1 := LookAt(v, mySockets, start, k, p, |peers| == 1, text, is1to1);
      if done { return; }
    }
    assert v[..|v|] == v;
    r := Address(text);
  }
}
