/** Publishing the bound sub-socket addresses and reading a peer's addresses back
    (plugins/TopologyConfig.cxx, WriteAddress, ReadPeerAddress, MakeAddress). */
module Addresses {
  import opened Text
  import Links

  // ---- publishing and reading back --------------------------------------------------------

  function LocalKey(name: string, i: nat): string {
    "chans." + name + "." + Dec(i)
  }

  function Property(name: string, i: nat): string {
    LocalKey(name, i) + ".address"
  }

  /** The property lookup for sub-socket i matches by prefix, so it also matches j. */
  predicate Matches(name: string, i: nat, j: nat) {
    LocalKey(name, i) <= Property(name, j)
  }

  /** j is the last match of i in the property map's order: its address is the one published. */
  ghost predicate Shows(name: string, n: nat, i: nat, j: nat) {
    && j < n && Matches(name, i, j)
    && forall m: nat :: m < n && m != j && Matches(name, i, m) ==> Less(Property(name, m), Property(name, j))
  }

  ghost predicate Written(name: string, actual: seq<string>, written: seq<string>) {
    && |written| == |actual|
    && forall i: nat :: i < |actual| ==> ShownAt(name, actual, i, written[i])
  }

  ghost predicate ShownAt(name: string, actual: seq<string>, i: nat, text: string) {
    exists j: nat :: Shows(name, |actual|, i, j) && text == actual[j]
  }

  lemma PrefixCancel(p: string, a: string, b: string)
    ensures p + a <= p + b <==> a <= b
  {
    if a <= b {
      assert b == a + b[|a|..];
      assert p + b == (p + a) + b[|a|..];
    }
    if p + a <= p + b {
      assert (p + b)[..|p + a|] == p + a;
      assert b[..|a|] == (p + b)[|p|..|p + a|] == a;
    }
  }

  lemma PrefixOfDigits(a: string, b: string, x: string)
    requires forall i :: 0 <= i < |a| ==> a[i] != '.'
    ensures a <= b + ['.'] + x <==> a <= b
  {
    var t := b + ['.'] + x;
    assert t[|b|] == '.';
    assert |b| < |a| ==> a[|b|] != '.';
    if a <= b { assert t == a + (b[|a|..] + ['.'] + x); }
  }

  lemma MatchesIff(name: string, i: nat, j: nat)
    ensures Matches(name, i, j) <==> Dec(i) <= Dec(j)
  {
    var p := "chans." + name + ".";
    assert Property(name, j) == p + (Dec(j) + ['.'] + "address");
    PrefixCancel(p, Dec(i), Dec(j) + ['.'] + "address");
    PrefixOfDigits(Dec(i), Dec(j), "address");
  }

  lemma PropertyInjective(name: string, i: nat, j: nat)
    requires Property(name, i) == Property(name, j)
    ensures i == j
  {
    assert |Dec(i)| == |Dec(j)|;
    var p := |"chans." + name + "."|;
    assert Property(name, i)[p..p + |Dec(i)|] == Dec(i) && Property(name, j)[p..p + |Dec(j)|] == Dec(j);
    DecInjective(i, j);
  }

  /** One pass over the properties in the map's order: a later match overwrites an earlier one. */
  method LastMatch(name: string, n: nat, i: nat) returns (found: bool, j: nat)
    ensures found <==> exists m: nat :: m < n && Matches(name, i, m)
    ensures found ==> Shows(name, n, i, j)
  {
    found, j := false, 0;
    for k := 0 to n
      invariant found <==> exists m: nat :: m < k && Matches(name, i, m)
      invariant found ==> Shows(name, k, i, j)
    {
      if Matches(name, i, k) {
        if !found || Less(Property(name, j), Property(name, k)) {
          if found {
            forall m: nat | m < k && m != j && Matches(name, i, m) ensures Less(Property(name, m), Property(name, k)) {
              LessTransitive(Property(name, m), Property(name, j), Property(name, k));
            }
          }
          found, j := true, k;
        } else {
          LessTotal(Property(name, j), Property(name, k));
          if Property(name, j) == Property(name, k) { PropertyInjective(name, j, k); }
        }
      }
    }
  }

  /** The socket hashes a binding channel publishes: indices are tried until none matches. */
  method WriteAddress(name: string, actual: seq<string>) returns (written: seq<string>)
    ensures Written(name, actual, written)
  {
    written := [];
    while true
      invariant |written| <= |actual|
      invariant forall i: nat :: i < |written| ==> ShownAt(name, actual, i, written[i])
      decreases |actual| - |written|
    {
      var index := |written|;
      var found, j := LastMatch(name, |actual|, index);
      if !found {
        MatchesIff(name, index, index);
        assert index == |actual|;
        return;
      }
      MatchesIff(name, index, j);
      DecPrefix(index, j);
      assert ShownAt(name, actual, index, actual[j]);
      written := written + [actual[j]];
    }
  }

  function SocketKeys(prefix: string, n: nat): (s: seq<string>)
    ensures |s| == n && forall i :: 0 <= i < n ==> s[i] == prefix + Dec(i)
  {
    seq(n, i requires 0 <= i < n => prefix + Dec(i))
  }

  predicate Contains(s: string, part: string) {
    part <= s || (s != [] && Contains(s[1..], part))
  }

  const TCP: string := "tcp://"

  /** A wildcard host is replaced with the peer's own; other addresses stay. */
  function MakeAddress(address: string, ip: string): string {
    if TCP <= address && ('*' in address || Contains(address, "0.0.0.0")) then
      assert address[3] == ':';
      address[..6] + ip + address[Links.FindLast(address, ':', Links.NPOS)..]
    else address
  }

  lemma {:induction false} ContainsAt(s: string, part: string, t: string)
    ensures Contains(s + part + t, part)
  {
    if s == [] {
      assert s + part + t == part + t;
    } else {
      ContainsAt(s[1..], part, t);
      assert (s + part + t)[1..] == s[1..] + part + t;
    }
  }

  /** The host of a TCP address that listens everywhere becomes the peer's, the port is kept; an
      address of another transport is not touched. */
  lemma WildcardHost(host: string, port: string, ip: string, other: string)
    requires host in {"*", "0.0.0.0"} && ':' !in port
    ensures MakeAddress(TCP + host + ":" + port, ip) == TCP + ip + ":" + port
    ensures !(TCP <= other) ==> MakeAddress(other, ip) == other
  {
    var a, k := TCP + host + ":" + port, 6 + |host|;
    assert a[k] == ':' && a[..6] == TCP && a[k..] == ":" + port;
    forall i | k < i < |a| ensures a[i] != ':' { assert a[i] == port[i - k - 1]; }
    Links.FoundLast(a, ':', Links.NPOS, k);
    assert a == TCP + host + (":" + port);
    ContainsAt(TCP, host, ":" + port);
    if host == "*" { assert a[6] == '*'; }
  }

  function Made(addresses: seq<string>, ip: string): (r: seq<string>)
    ensures |r| == |addresses| && forall i :: 0 <= i < |r| ==> r[i] == MakeAddress(addresses[i], ip)
  {
    seq(|addresses|, i requires 0 <= i < |addresses| => MakeAddress(addresses[i], ip))
  }

  /** A peer lists the sub-socket hashes in the order of their keys' texts. */
  ghost predicate ReadBack(prefix: string, written: seq<string>, ip: string, address: seq<string>) {
    var keys := SocketKeys(prefix, |written|);
    var sorted := SortUnique(keys);
    && |address| == |sorted|
    && forall k :: 0 <= k < |address| ==>
         exists i :: 0 <= i < |written| && keys[i] == sorted[k] && address[k] == MakeAddress(written[i], ip)
  }

  method ReadPeerAddress(prefix: string, written: seq<string>, ip: string) returns (address: seq<string>)
    ensures ReadBack(prefix, written, ip, address)
  {
    var keys := SocketKeys(prefix, |written|);
    var sorted := SortUnique(keys);
    address := [];
    for k := 0 to |sorted|
      invariant |address| == k
      invariant forall m :: 0 <= m < k ==>
          exists i :: 0 <= i < |written| && keys[i] == sorted[m] && address[m] == MakeAddress(written[i], ip)
    {
      assert sorted[k] in Elements(sorted);
      var i := Rank(keys, sorted[k]);
      address := address + [MakeAddress(written[i], ip)];
    }
  }

  /** As many addresses are read as were written. */
  lemma ReadAllBack(prefix: string, written: seq<string>, ip: string, address: seq<string>)
    requires ReadBack(prefix, written, ip, address)
    ensures |address| == |written|
  {
    var keys := SocketKeys(prefix, |written|);
    forall i, j | 0 <= i < j < |keys| ensures keys[i] != keys[j] {
      if keys[i] == keys[j] {
        assert keys[i][|prefix|..] == Dec(i) && keys[j][|prefix|..] == Dec(j);
        DecInjective(i, j);
      }
    }
    DistinctSize(keys);
    SortedSize(SortUnique(keys));
  }

  lemma {:induction false} DistinctSize(s: seq<string>)
    requires forall i, j :: 0 <= i < j < |s| ==> s[i] != s[j]
    ensures |Elements(s)| == |s|
  {
    if s == [] {
      EmptyElements(s);
    } else {
      DistinctSize(s[1..]);
      assert Elements(s) == Elements(s[1..]) + {s[0]};
      assert s[0] !in s[1..];
    }
  }

  lemma SmallKeysSorted(prefix: string, n: nat)
    requires n <= 10
    ensures Sorted(SocketKeys(prefix, n)) && SortUnique(SocketKeys(prefix, n)) == SocketKeys(prefix, n)
  {
    var s := SocketKeys(prefix, n);
    forall i, j | 0 <= i < j < n ensures Less(s[i], s[j]) {
      LessCommonPrefix(prefix, Dec(i), Dec(j));
    }
    SortedUnique(s, SortUnique(s));
  }

  ghost predicate AllDifferent(s: seq<string>) {
    forall i, j :: 0 <= i < j < |s| ==> s[i] != s[j]
  }

  lemma SingleDigits(name: string, n: nat, i: nat, j: nat)
    requires i < n <= 10 && Shows(name, n, i, j)
    ensures i == j
  {
    MatchesIff(name, i, j);
    assert Dec(i) == [Digit(i)] && Dec(j) == [Digit(j)];
    DecInjective(i, j);
  }

  lemma UpToTen(name: string, prefix: string, actual: seq<string>, written: seq<string>, ip: string,
      address: seq<string>)
    requires Written(name, actual, written) && ReadBack(prefix, written, ip, address) && |actual| <= 10
    ensures address == Made(actual, ip)
  {
    var n := |actual|;
    SmallKeysSorted(prefix, n);
    var keys := SocketKeys(prefix, n);
    assert |address| == n;
    forall k: nat | k < n ensures address[k] == MakeAddress(actual[k], ip) {
      var i: nat :| i < n && keys[i] == keys[k] && address[k] == MakeAddress(written[i], ip);
      SortedDistinct(keys, i, k);
      assert ShownAt(name, actual, k, written[k]);
      var j: nat :| Shows(name, n, k, j) && written[k] == actual[j];
      SingleDigits(name, n, k, j);
    }
  }

  lemma OneBeforeTen(name: string)
    ensures Less(Property(name, 1), Property(name, 10)) && Matches(name, 1, 10)
  {
    MatchesIff(name, 1, 10);
    assert Dec(10) == Dec(1) + [Digit(0)];
    var p := LocalKey(name, 1);
    LessCommonPrefix(p, ".address", "0.address");
    assert Property(name, 10) == p + "0.address";
  }

  lemma OneIsHidden(name: string, n: nat, i: nat)
    requires n > 10
    ensures !Shows(name, n, i, 1)
  {
    if Shows(name, n, i, 1) {
      MatchesIff(name, i, 1);
      assert Dec(i) == Dec(1);
      DecInjective(i, 1);
      OneBeforeTen(name);
      LessTransitive(Property(name, 1), Property(name, 10), Property(name, 1));
      LessIrreflexive(Property(name, 1));
    }
  }

  /** A peer reads back the bound addresses, each at its own index and with the binder's host,
      exactly when there are at most ten of them: with eleven the text "1" also matches sub-socket
      10, and the address of sub-socket 1 is never seen. */
  lemma PublishedExactlyUpToTen(name: string, prefix: string, actual: seq<string>, written: seq<string>, ip: string,
      address: seq<string>)
    requires Written(name, actual, written) && ReadBack(prefix, written, ip, address) && AllDifferent(Made(actual, ip))
    ensures address == Made(actual, ip) <==> |actual| <= 10
    ensures |actual| > 10 ==> Made(actual, ip)[1] !in address
  {
    var n, made := |actual|, Made(actual, ip);
    if n <= 10 {
      UpToTen(name, prefix, actual, written, ip, address);
    } else {
      forall k | 0 <= k < |address| ensures address[k] != made[1] {
        var i :| 0 <= i < n && address[k] == MakeAddress(written[i], ip);
        assert ShownAt(name, actual, i, written[i]);
        var j: nat :| Shows(name, n, i, j) && written[i] == actual[j];
        OneIsHidden(name, n, i);
        assert address[k] == made[j];
      }
      assert made[1] in made;
    }
  }
}
