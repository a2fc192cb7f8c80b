/** How a device finds its peers and picks one address from each of them
    (plugins/TopologyConfig.cxx, Initialize and ResolveConnectAddress). */
module Wiring {
  import opened Text

  const TOP: string := "daq_service:"
  const CHANNEL: string := "channel:"

  /** One end of a link: a channel of every instance of a service. */
  datatype End = End(service: string, channel: string)

  /** A link record seen by a device: its own end first. */
  datatype Link = Link(near: End, far: End)

  /** Registry key of one instance's channel. */
  function Key(e: End, id: string): string {
    TOP + (e.service + [SEP] + (id + [SEP] + (CHANNEL + e.channel)))
  }

  predicate CleanEnd(e: End) {
    !Has(e.service, SEP)
  }

  lemma KeyInjective(e: End, i: string, f: End, j: string)
    requires CleanEnd(e) && CleanEnd(f) && !Has(i, SEP) && !Has(j, SEP)
    requires Key(e, i) == Key(f, j)
    ensures e == f && i == j
  {
    var x, y := i + [SEP] + (CHANNEL + e.channel), j + [SEP] + (CHANNEL + f.channel);
    assert e.service + [SEP] + x == Key(e, i)[|TOP|..];
    assert f.service + [SEP] + y == Key(f, j)[|TOP|..];
    SplitUnique(e.service, x, f.service, y);
    SplitUnique(i, CHANNEL + e.channel, j, CHANNEL + f.channel);
    assert e.channel == (CHANNEL + e.channel)[|CHANNEL|..];
    assert f.channel == (CHANNEL + f.channel)[|CHANNEL|..];
  }

  // ---- counting peers (Initialize) --------------------------------------------------------

  type Ids = map<string, set<string>>

  predicate CleanIds(ids: Ids) {
    forall s, i :: s in ids && i in ids[s] ==> !Has(i, SEP)
  }

  function Instances(ids: Ids, service: string): set<string> {
    if service in ids then ids[service] else {}
  }

  /** The link takes part in the count for this channel. */
  predicate Selected(l: Link, channel: string) {
    l.near.service == l.far.service || l.near.channel == channel
  }

  /** The end counted as the peer; a link inside one service may be used from either side. */
  function FarEnd(l: Link, channel: string): End {
    if l.near.service == l.far.service && l.far.channel == channel then l.near else l.far
  }

  function FarKeys(ids: Ids, e: End): set<string> {
    set i | i in Instances(ids, e.service) :: Key(e, i)
  }

  ghost predicate Distinct(links: seq<Link>) {
    forall i, j :: 0 <= i < j < |links| ==> links[i] != links[j]
  }

  /** The links one service sees: it is the near service of each, and the far end is elsewhere. */
  ghost predicate FromService(links: seq<Link>, service: string) {
    && Distinct(links)
    && forall l :: l in links ==> l.near.service == service && l.far.service != service && CleanEnd(l.far)
  }

  lemma FarKeysSize(ids: Ids, e: End)
    requires CleanEnd(e) && CleanIds(ids)
    ensures |FarKeys(ids, e)| == |Instances(ids, e.service)|
  {
    KeysSize(e, Instances(ids, e.service));
  }

  lemma {:induction false} KeysSize(e: End, s: set<string>)
    requires CleanEnd(e) && forall i :: i in s ==> !Has(i, SEP)
    ensures |set i | i in s :: Key(e, i)| == |s|
  {
    if s != {} {
      var x :| x in s;
      KeysSize(e, s - {x});
      var t := set i | i in s - {x} :: Key(e, i);
      assert (set i | i in s :: Key(e, i)) == t + {Key(e, x)};
      forall i | i in s - {x} ensures Key(e, i) != Key(e, x) {
        if Key(e, i) == Key(e, x) { KeyInjective(e, i, e, x); }
      }
    }
  }

  lemma FarKeysDisjoint(ids: Ids, e: End, f: End)
    requires CleanEnd(e) && CleanEnd(f) && CleanIds(ids) && e != f
    ensures FarKeys(ids, e) !! FarKeys(ids, f)
  {
    forall k | k in FarKeys(ids, e) && k in FarKeys(ids, f) ensures false {
      var i :| i in Instances(ids, e.service) && k == Key(e, i);
      var j :| j in Instances(ids, f.service) && k == Key(f, j);
      KeyInjective(e, i, f, j);
    }
  }

  /** The peers found through the first links. */
  ghost function PeersVia(ids: Ids, links: seq<Link>, channel: string): set<string> {
    set l, i | l in links && Selected(l, channel) && i in Instances(ids, FarEnd(l, channel).service)
      :: Key(FarEnd(l, channel), i)
  }

  lemma PeersViaStep(ids: Ids, links: seq<Link>, k: nat, channel: string)
    requires k < |links|
    ensures PeersVia(ids, links[..k + 1], channel) == PeersVia(ids, links[..k], channel)
              + if Selected(links[k], channel) then FarKeys(ids, FarEnd(links[k], channel)) else {}
  {
    var a, b := links[..k + 1], links[..k];
    assert a == b + [links[k]];
    assert forall l :: l in a <==> l in b || l == links[k];
  }

  lemma FreshLink(ids: Ids, links: seq<Link>, k: nat, service: string, channel: string)
    requires FromService(links, service) && CleanIds(ids) && k < |links| && Selected(links[k], channel)
    ensures PeersVia(ids, links[..k], channel) !! FarKeys(ids, links[k].far)
  {
    forall key | key in PeersVia(ids, links[..k], channel) && key in FarKeys(ids, links[k].far) ensures false {
      var l, i :| l in links[..k] && Selected(l, channel) && i in Instances(ids, FarEnd(l, channel).service)
        && key == Key(FarEnd(l, channel), i);
      assert l.near == links[k].near == End(service, channel);
      assert l != links[k];
      assert key in FarKeys(ids, l.far);
      FarKeysDisjoint(ids, l.far, links[k].far);
    }
  }

  /** Links of one service to other services, and instance ids without the separator. */
  ghost predicate PlainLinks(ids: Ids, links: seq<Link>) {
    CleanIds(ids) && exists s :: FromService(links, s)
  }

  lemma CountStep(ids: Ids, links: seq<Link>, k: nat, channel: string)
    requires k < |links| && PlainLinks(ids, links) && Selected(links[k], channel)
    ensures |PeersVia(ids, links[..k + 1], channel)|
         == |PeersVia(ids, links[..k], channel)| + |Instances(ids, FarEnd(links[k], channel).service)|
  {
    var s :| FromService(links, s);
    PeersViaStep(ids, links, k, channel);
    FreshLink(ids, links, k, s, channel);
    FarKeysSize(ids, links[k].far);
  }

  method AppendKeys(peers: seq<string>, ids: Ids, e: End) returns (r: seq<string>)
    ensures Elements(r) == Elements(peers) + FarKeys(ids, e)
  {
    r := peers;
    var rest := Instances(ids, e.service);
    ghost var done := {};
    while rest != {}
      invariant done + rest == Instances(ids, e.service)
      invariant Elements(r) == Elements(peers) + set i | i in done :: Key(e, i)
    {
      var i :| i in rest;
      assert Elements(r + [Key(e, i)]) == Elements(r) + {Key(e, i)};
      r := r + [Key(e, i)];
      rest, done := rest - {i}, done + {i};
    }
    assert done == Instances(ids, e.service);
  }

  /** The peer list is sorted, has no repetition and holds exactly the instances behind the
      channel's links; the links of one service never count an instance twice, so an automatic
      channel has one sub-socket for each entry of its peer list. */
  method CountPeers(ids: Ids, links: seq<Link>, channel: string, autoSubChannel: bool, preset: nat)
    returns (peers: seq<string>, numSockets: nat)
    ensures Sorted(peers) && Elements(peers) == PeersVia(ids, links, channel)
    ensures !autoSubChannel ==> numSockets == preset
    ensures autoSubChannel && PlainLinks(ids, links) ==> numSockets == preset + |peers|
  {
    peers, numSockets := [], preset;
    for k := 0 to |links|
      invariant Elements(peers) == PeersVia(ids, links[..k], channel)
      invariant !autoSubChannel ==> numSockets == preset
      invariant autoSubChannel && PlainLinks(ids, links) ==>
          numSockets == preset + |PeersVia(ids, links[..k], channel)|
    {
      PeersViaStep(ids, links, k, channel);
      if Selected(links[k], channel) {
        var far := FarEnd(links[k], channel);
        peers := AppendKeys(peers, ids, far);
        if autoSubChannel { numSockets := numSockets + |Instances(ids, far.service)|; }
        if PlainLinks(ids, links) { CountStep(ids, links, k, channel); }
      }
    }
    assert links[..|links|] == links;
    peers := SortUnique(peers);
    SortedSize(peers);
  }
}
