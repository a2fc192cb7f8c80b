/** The address entries of a FairMQ channel configuration, one for each sub-socket
    (plugins/TopologyConfig.cxx, ToChannelConfig and the local-socket list of Initialize). */
module ChannelConfig {
  import opened Text
  import opened Splitting
  import opened Wiring
  import opened Resolution
  import opened Topology

  function Repeat(x: string, n: int): (r: seq<string>)
    ensures |r| == (if n < 0 then 0 else n) && forall i :: 0 <= i < |r| ==> r[i] == x
    decreases if n < 0 then 0 else n
  {
    if n <= 0 then [] else [x] + Repeat(x, n - 1)
  }

  /** The addresses handed to FairMQ for a channel: those given, filled up with unset ones to
      the number of sub-sockets; a single given address stays alone. */
  function Entries(address: string, numSockets: nat): (r: seq<string>)
    ensures r != [] && forall i :: 0 <= i < |r| ==> ',' !in r[i]
    ensures ',' in address ==> Split(address, ',') <= r
    ensures ',' in address ==> |r| == if |Split(address, ',')| < numSockets then numSockets else |Split(address, ',')|
    ensures address in {"", UNSET} ==> |r| == if numSockets == 0 then 1 else numSockets
  {
    if ',' in address then Split(address, ',') + Repeat(UNSET, numSockets - |Split(address, ',')|)
    else if address != "" && address != UNSET then [address]
    else Repeat(UNSET, if numSockets == 0 then 1 else numSockets)
  }

  const GLUE: string := ",address="

  /** The loops of ToChannelConfig build the text from which the entries are read back. */
  method ToChannelConfig(address: string, numSockets: nat) returns (text: string)
    ensures text == Join(Entries(address, numSockets), GLUE)
  {
    if address != "" && address != UNSET && ',' !in address {
      return address;
    }
    if ',' !in address {
      text := UNSET;
      var i := 0;
      ghost var done := [UNSET];
      while i < numSockets - 1
        invariant 0 <= i && (i <= numSockets - 1 || i == 0)
        invariant |done| == i + 1 && (forall k :: 0 <= k < |done| ==> done[k] == UNSET) && text == Join(done, GLUE)
      {
        JoinLast(done, UNSET, GLUE);
        text, done, i := text + GLUE + UNSET, done + [UNSET], i + 1;
      }
      assert done == Entries(address, numSockets);
      return;
    }
    var res := Split(address, ',');
    if |res| < numSockets {
      var n := numSockets - |res|;
      for i := 0 to n
        invariant |res| == |Split(address, ',')| + i && Split(address, ',') <= res
        invariant forall k :: |Split(address, ',')| <= k < |res| ==> res[k] == UNSET
      {
        res := res + [UNSET];
      }
    }
    assert res == Entries(address, numSockets);
    text := Join(res, GLUE);
  }

  function Options(entries: seq<string>): (r: seq<string>)
    ensures |r| == |entries| && forall i :: 0 <= i < |r| ==> r[i] == "address=" + entries[i]
  {
    if entries == [] then [] else ["address=" + entries[0]] + Options(entries[1..])
  }

  lemma {:induction false} GlueIsComma(entries: seq<string>)
    requires entries != []
    ensures "address=" + Join(entries, GLUE) == Join(Options(entries), ",")
  {
    if |entries| > 1 {
      GlueIsComma(entries[1..]);
      assert Options(entries)[1..] == Options(entries[1..]);
      assert "address=" + Join(entries, GLUE) ==
        "address=" + entries[0] + "," + ("address=" + Join(entries[1..], GLUE));
    }
  }

  /** Splitting the option text at its commas gives one address option for each entry. */
  lemma OptionsReadBack(address: string, numSockets: nat)
    ensures var e := Entries(address, numSockets);
            Split("address=" + Join(e, GLUE), ',') == Options(e)
  {
    var e := Entries(address, numSockets);
    GlueIsComma(e);
    SplitJoin(Options(e), ',');
  }

  /** Addresses as a device has them: one or more, set, without a comma. */
  ghost predicate Proper(list: seq<string>) {
    list != [] && forall i :: 0 <= i < |list| ==> ',' !in list[i] && list[i] != "" && list[i] != UNSET
  }

  /** A comma list of enough addresses is handed over entry by entry. */
  lemma ListedEntries(list: seq<string>, numSockets: nat)
    requires Proper(list) && numSockets <= |list|
    ensures Entries(Join(list, ","), numSockets) == list
  {
    SplitJoin(list, ',');
    SplitCount(Join(list, ","), ',');
  }

  // ---- local sockets ----------------------------------------------------------------------

  function UdsEntry(path: string, i: nat): string {
    path + "[" + Dec(i) + "]"
  }

  ghost predicate UdsList(path: string, list: seq<string>) {
    forall k: nat :: k < |list| ==> list[k] == UdsEntry(path, k)
  }

  lemma UdsProper(path: string, list: seq<string>)
    requires UdsList(path, list) && list != [] && ',' !in path && path != "" && path[0] == 'i'
    ensures Proper(list)
  {
    forall k: nat | k < |list| ensures ',' !in list[k] && list[k] != "" && list[k] != UNSET {
      assert list[k] == UdsEntry(path, k);
      assert list[k][|list[k]| - 1] == ']';
    }
  }

  /** The generated local-socket list has exactly one entry for each sub-socket of the channel. */
  method UdsAddress(service: string, id: string, name: string, numSockets: nat)
    returns (address: string)
    requires ',' !in service && ',' !in id && ',' !in name
    ensures |Entries(address, numSockets)| == if numSockets == 0 then 1 else numSockets
    ensures forall k: nat :: k < |Entries(address, numSockets)| ==>
        Entries(address, numSockets)[k] == UdsEntry("ipc://@/tmp/nestdaq/" + "/" + service + "/" + id + "/" + name, k)
  {
    var path := "ipc://@/tmp/nestdaq/" + "/" + service + "/" + id + "/" + name;
    address := path + "[0]";
    ghost var list := [address];
    assert Dec(0) == "0";
    var i := 1;
    while i < numSockets
      invariant 1 <= i && (i <= numSockets || i == 1)
      invariant |list| == i && address == Join(list, ",") && UdsList(path, list)
    {
      JoinLast(list, UdsEntry(path, i), ",");
      address := address + "," + (path + "[" + Dec(i) + "]");
      list := list + [UdsEntry(path, i)];
      i := i + 1;
    }
    UdsProper(path, list);
    ListedEntries(list, numSockets);
  }

  // ---- the whole chain --------------------------------------------------------------------

  lemma {:induction false} JoinedIsJoin(s: seq<string>)
    requires forall i :: 0 <= i < |s| ==> s[i] != ""
    ensures Joined(s) == Join(s, ",") && (s != [] ==> Joined(s) != "")
  {
    if |s| > 1 {
      var z := |s| - 1;
      JoinedIsJoin(s[..z]);
      assert JoinedFrom("", s) == Append(Joined(s[..z]), s[z]);
      JoinLast(s[..z], s[z], ",");
      assert s == s[..z] + [s[z]];
    } else if |s| == 1 {
      JoinedOne(s);
    }
  }

  lemma JoinedOne(s: seq<string>)
    requires |s| == 1
    ensures Joined(s) == s[0]
  {
    assert s[..0] == [] && JoinedFrom("", s[..0]) == "";
  }

  /** In an automatic topology, sub-socket j of a connecting channel is configured with what it
      reads at position i of its partner's addresses, where (b, bid, i) is the sub-socket that
      claims it; if the channel's address was "unspecified" rather than empty and it has several
      peers, every entry is one place too late. */
  lemma SubSocketReads(st: Store, w: World, c: End, cid: string, j: nat, place: nat, start: string, r: Result)
    returns (b: End, bid: string, i: nat)
    requires Valid(w) && Registered(st, w) && AllAuto(w, c) && Present(w, c, cid) && ConnectEnd(w, c)
    requires start in {"", UNSET} && Answer(st, Key(c, cid), Sockets(w, c), start, r) && j < |Peers(w, c)|
    requires place == j + Late(w, c, start)
    requires forall k :: k in st.addresses && st.addresses[k] != [] ==> Proper(st.addresses[k])
    ensures Claims(w, c, cid, j, b, bid, i) && i < |AddressesOf(st, Key(b, bid))| && r.Address?
    ensures PlacedAt(Entries(r.text, Sockets(w, c)), |Peers(w, c)|, Late(w, c, start), place,
                     AddressesOf(st, Key(b, bid))[i])
  {
    FarEndsBind(w, c, PeerEnd(w, c, j));
    b, bid, i := ExactlyOneClaim(w, c, cid, j);
    var s := EntriesOf(st, w, c, cid, start, r);
    PickAt(st, w, c, cid, j, b, bid, i, s);
    PlacedLate(s, Entries(r.text, Sockets(w, c)), Late(w, c, start), j, place);
  }

  /** This address has this place among n entries, or among n behind an unset one. */
  ghost predicate PlacedAt(e: seq<string>, n: nat, late: nat, place: nat, address: string) {
    |e| == n + late && place < |e| && e[place] == address && (late == 1 ==> e[0] == UNSET)
  }

  lemma PlacedLate(s: seq<string>, e: seq<string>, late: nat, j: nat, place: nat)
    requires late <= 1 && e == (if late == 0 then s else [UNSET] + s) && j < |s| && place == j + late
    ensures PlacedAt(e, |s|, late, place, s[j])
  {
  }

  /** What is picked from the j-th peer stands where that peer lists the channel. */
  lemma PickAt(st: Store, w: World, c: End, cid: string, j: nat, b: End, bid: string, i: nat, s: seq<string>)
    requires Registered(st, w) && Claims(w, c, cid, j, b, bid, i) && OnePerPeer(st, Key(c, cid), s)
    ensures j < |s| && i < |AddressesOf(st, Key(b, bid))| && s[j] == AddressesOf(st, Key(b, bid))[i]
  {
    assert ChannelRegistered(st, w, c, cid) && ChannelRegistered(st, w, b, bid);
    RankOf(Peers(w, b), i);
    var v := View(st, Key(c, cid))[j];
    assert v.rank == MyRank(st, Key(c, cid), j) == i && v.address == AddressesOf(st, Key(b, bid));
  }

  /** The entries of a connecting channel: one address from each peer, in order. */
  lemma EntriesOf(st: Store, w: World, c: End, cid: string, start: string, r: Result) returns (s: seq<string>)
    requires Valid(w) && Registered(st, w) && AllAuto(w, c) && Present(w, c, cid) && ConnectEnd(w, c)
    requires start in {"", UNSET} && Answer(st, Key(c, cid), Sockets(w, c), start, r) && Peers(w, c) != []
    requires forall k :: k in st.addresses && st.addresses[k] != [] ==> Proper(st.addresses[k])
    ensures OnePerPeer(st, Key(c, cid), s) && |s| == |Peers(w, c)| && r.Address?
    ensures Entries(r.text, Sockets(w, c)) == if Late(w, c, start) == 0 then s else [UNSET] + s
  {
    assert ChannelRegistered(st, w, c, cid);
    s := AutomaticWiring(st, w, c, cid, start, r);
    PickedProper(st, Key(c, cid), s);
    StartedEntries(s, start, Sockets(w, c));
  }

  /** By how many places the entries of a channel are late. */
  ghost function Late(w: World, c: End, start: string): nat {
    if start != "" && |Peers(w, c)| > 1 then 1 else 0
  }

  lemma StartedEntries(s: seq<string>, start: string, n: nat)
    requires Proper(s) && n == |s| && start in {"", UNSET}
    ensures var text := if |s| == 1 then s[0] else JoinedFrom(start, s);
            Entries(text, n) == if |s| == 1 || start == "" then s else [UNSET] + s
  {
    if |s| == 1 {
      JoinedOne(s);
      JoinedEntries(s, n);
    } else if start == "" {
      JoinedEntries(s, n);
    } else {
      LateEntries(s, n);
    }
  }

  lemma LateEntries(s: seq<string>, n: nat)
    requires Proper(s) && n == |s|
    ensures Entries(JoinedFrom(UNSET, s), n) == [UNSET] + s
  {
    JoinedAfter(s);
    ListedText([UNSET] + s, n);
  }

  lemma {:induction false} JoinedAfter(s: seq<string>)
    requires forall i :: 0 <= i < |s| ==> s[i] != ""
    ensures JoinedFrom(UNSET, s) == Join([UNSET] + s, ",")
  {
    if s != [] {
      var z := |s| - 1;
      JoinedAfter(s[..z]);
      JoinLast([UNSET] + s[..z], s[z], ",");
      assert [UNSET] + s == ([UNSET] + s[..z]) + [s[z]];
      assert JoinedFrom(UNSET, s[..z]) != "" by { JoinedFromSet(s[..z]); }
    }
  }

  lemma {:induction false} JoinedFromSet(s: seq<string>)
    ensures |JoinedFrom(UNSET, s)| > 0
  {
    if s != [] { JoinedFromSet(s[..|s| - 1]); }
  }

  /** A list of two or more texts without commas is handed over entry by entry. */
  lemma ListedText(list: seq<string>, n: nat)
    requires 1 < |list| && n <= |list| && forall i :: 0 <= i < |list| ==> ',' !in list[i]
    ensures Entries(Join(list, ","), n) == list
  {
    SplitJoin(list, ',');
    SplitCount(Join(list, ","), ',');
  }

  lemma JoinedEntries(s: seq<string>, n: nat)
    requires Proper(s) && n <= |s|
    ensures Entries(Joined(s), n) == s
  {
    JoinedIsJoin(s);
    ListedEntries(s, n);
  }

  lemma PickedProper(st: Store, me: string, s: seq<string>)
    requires OnePerPeer(st, me, s) && s != []
    requires forall k :: k in st.addresses && st.addresses[k] != [] ==> Proper(st.addresses[k])
    ensures Proper(s)
  {
    forall k | 0 <= k < |s| ensures ',' !in s[k] && s[k] != "" && s[k] != UNSET {
      assert View(st, me)[k].address == PeerAddresses(st, me, k) != [];
    }
  }

  ghost function PeerEnd(w: World, c: End, j: nat): (b: End)
    requires Valid(w) && j < |Peers(w, c)|
    ensures b in FarEnds(w, c)
  {
    assert FarEnds(w, c) != {} by { var b, bid := PeerAt(w, c, j); }
    var b :| b in FarEnds(w, c); b
  }
}
