/** Link records `service:channel,service:channel` as the devices read them
    (plugins/TopologyConfig.cxx, ReadLinkProperty and the link loop of Initialize). */
module Links {
  import opened Text
  import opened Wiring

  const NPOS := -1

  /** find_first_of of one character; NPOS when absent. */
  function FindFirst(s: string, c: char): (r: int)
    ensures NPOS <= r < |s|
    ensures r == NPOS ==> c !in s
    ensures r != NPOS ==> s[r] == c && forall i :: 0 <= i < r ==> s[i] != c
  {
    if s == [] then NPOS
    else if s[0] == c then 0
    else var r := FindFirst(s[1..], c); if r == NPOS then NPOS else r + 1
  }

  /** find_last_of of one character at or before position `last`; NPOS searches everything. */
  function FindLast(s: string, c: char, last: int): (r: int)
    ensures NPOS <= r < |s| && (r == NPOS || last == NPOS || r <= last)
    ensures r != NPOS ==> s[r] == c
    ensures forall i :: r < i < |s| && (last == NPOS || i <= last) ==> s[i] != c
    decreases |s|
  {
    if s == [] then NPOS
    else if (last == NPOS || |s| - 1 <= last) && s[|s| - 1] == c then |s| - 1
    else if last == NPOS || |s| - 1 <= last then FindLast(s[..|s| - 1], c, NPOS)
    else FindLast(s[..|s| - 1], c, last)
  }

  /** substr; a negative length stands for the wrapped or absent length: to the end. */
  function Substr(s: string, pos: nat, len: int): string
    requires pos <= |s|
  {
    if len < 0 || pos + len > |s| then s[pos..] else s[pos..pos + len]
  }

  function ReadLinkProperty(me: string, text: string): Link {
    var comma := FindFirst(text, ',');
    var firstSep := FindLast(text, SEP, comma);
    var secondSep := FindLast(text, SEP, NPOS);
    var left := End(Substr(text, 0, firstSep), Substr(text, firstSep + 1, comma - (firstSep + 1)));
    var right := End(Substr(text, comma + 1, secondSep - (comma + 1)), Substr(text, secondSep + 1, NPOS));
    if left.service == me then Link(left, right) else Link(right, left)
  }

  function EndText(e: End): string {
    e.service + [SEP] + e.channel
  }

  function LinkText(a: End, b: End): string {
    EndText(a) + "," + EndText(b)
  }

  lemma FoundFirst(s: string, c: char, k: nat)
    requires k < |s| && s[k] == c && forall i :: 0 <= i < k ==> s[i] != c
    ensures FindFirst(s, c) == k
  {
  }

  lemma FoundLast(s: string, c: char, last: int, k: nat)
    requires k < |s| && s[k] == c && (last == NPOS || k <= last < |s|)
    requires forall i :: k < i < |s| && (last == NPOS || i <= last) ==> s[i] != c
    ensures FindLast(s, c, last) == k
  {
  }

  /** Reading inverts the key format: names may hold the separator in a service and a comma in
      the right-hand pair. The pair of my own service comes first. */
  lemma ReadsBack(me: string, a: End, b: End)
    requires SEP !in a.channel && SEP !in b.channel && ',' !in a.service && ',' !in a.channel
    ensures ReadLinkProperty(me, LinkText(a, b)) == if a.service == me then Link(a, b) else Link(b, a)
  {
    var t := LinkText(a, b);
    var comma, sep := |EndText(a)|, |a.service|;
    var last := comma + 1 + |b.service|;
    Positions(a, b, t, sep, comma, last);
    Pieces(a, b, t, sep, comma, last);
  }

  lemma Pieces(a: End, b: End, t: string, sep: nat, comma: nat, last: nat)
    requires t == LinkText(a, b) && sep == |a.service| && comma == |EndText(a)| && last == comma + 1 + |b.service|
    ensures Substr(t, 0, sep) == a.service && Substr(t, sep + 1, comma - (sep + 1)) == a.channel
    ensures Substr(t, comma + 1, last - (comma + 1)) == b.service && Substr(t, last + 1, NPOS) == b.channel
  {
    assert t == a.service + [SEP] + a.channel + [','] + b.service + [SEP] + b.channel;
  }

  lemma Positions(a: End, b: End, t: string, sep: nat, comma: nat, last: nat)
    requires SEP !in a.channel && SEP !in b.channel && ',' !in a.service && ',' !in a.channel
    requires t == LinkText(a, b) && sep == |a.service| && comma == |EndText(a)| && last == comma + 1 + |b.service|
    ensures FindFirst(t, ',') == comma && FindLast(t, SEP, comma) == sep && FindLast(t, SEP, NPOS) == last
  {
    assert t == a.service + [SEP] + a.channel + [','] + b.service + [SEP] + b.channel;
    forall i | 0 <= i < comma ensures t[i] != ',' {
      assert t[i] == if i < sep then a.service[i] else if i == sep then SEP else a.channel[i - sep - 1];
    }
    FoundFirst(t, ',', comma);
    forall i | sep < i <= comma ensures t[i] != SEP {
      assert t[i] == if i < comma then a.channel[i - sep - 1] else ',';
    }
    FoundLast(t, SEP, comma, sep);
    forall i | last < i < |t| ensures t[i] != SEP {
      assert t[i] == b.channel[i - last - 1];
    }
    FoundLast(t, SEP, NPOS, last);
  }

  predicate Plain(e: End) {
    SEP !in e.channel && ',' !in e.service && ',' !in e.channel
  }

  /** A link between two services gives a device the same record in whichever order it was
      written, and the two devices see it from opposite sides. */
  lemma EitherOrder(me: string, a: End, b: End)
    requires Plain(a) && Plain(b) && a.service != b.service && me in {a.service, b.service}
    ensures ReadLinkProperty(me, LinkText(a, b)) == ReadLinkProperty(me, LinkText(b, a))
    ensures ReadLinkProperty(a.service, LinkText(a, b)) == Link(a, b)
    ensures ReadLinkProperty(b.service, LinkText(a, b)) == Link(b, a)
  {
    ReadsBack(me, a, b);
    ReadsBack(me, b, a);
    ReadsBack(a.service, a, b);
    ReadsBack(b.service, a, b);
  }

  function LinkKey(l: Link): string {
    LinkText(l.near, l.far)
  }

  ghost predicate Keyed(links: map<string, Link>) {
    forall k :: k in links ==> k == LinkKey(links[k])
  }

  /** The links read from a list of records, in order. */
  ghost function Readings(me: string, texts: seq<string>): seq<Link> {
    Mapped(text => ReadLinkProperty(me, text), texts)
  }

  function Mapped<T, U>(f: T -> U, s: seq<T>): seq<U> {
    seq(|s|, i requires 0 <= i < |s| => f(s[i]))
  }

  /** The table key of one of these links. */
  ghost predicate KeyRead(read: seq<Link>, key: string) {
    exists i :: 0 <= i < |read| && key == LinkKey(read[i])
  }

  /** The table after reading more links: the first link of a key stays. */
  ghost function Merged(known: map<string, Link>, read: seq<Link>): map<string, Link>
    decreases |read|
  {
    if read == [] then known else
      var m, l := Merged(known, read[..|read| - 1]), read[|read| - 1];
      if LinkKey(l) in m then m else m[LinkKey(l) := l]
  }

  lemma {:induction false} MergedIs(known: map<string, Link>, read: seq<Link>)
    requires Keyed(known)
    ensures Keyed(Merged(known, read)) && known.Items <= Merged(known, read).Items
    ensures forall key :: key in Merged(known, read) <==> key in known || KeyRead(read, key)
    ensures forall k :: k in Merged(known, read) ==>
        (k in known && Merged(known, read)[k] == known[k]) || Merged(known, read)[k] in read
    decreases |read|
  {
    if read != [] {
      var front, l := read[..|read| - 1], read[|read| - 1];
      MergedIs(known, front);
      forall key
        ensures KeyRead(read, key) <==> KeyRead(front, key) || key == LinkKey(l)
      {
        KeyReadNext(front, l, key);
      }
      assert read == front + [l];
      if LinkKey(l) !in Merged(known, front) { AddedKeeps(known, Merged(known, front), l); }
    }
  }

  lemma AddedKeeps(known: map<string, Link>, m: map<string, Link>, l: Link)
    requires known.Items <= m.Items && LinkKey(l) !in m
    ensures known.Items <= m[LinkKey(l) := l].Items
  {
    forall x | x in known.Items ensures x in m[LinkKey(l) := l].Items {
      assert x in m.Items;
    }
  }

  lemma KeyReadNext(front: seq<Link>, l: Link, key: string)
    ensures KeyRead(front + [l], key) <==> KeyRead(front, key) || key == LinkKey(l)
  {
    var read := front + [l];
    assert read[|front|] == l;
    if i :| 0 <= i < |front| && key == LinkKey(front[i]) { assert key == LinkKey(read[i]); }
    if i :| 0 <= i < |read| && key == LinkKey(read[i]) { assert i < |front| ==> read[i] == front[i]; }
  }

  /** Reading the same records again changes nothing. */
  lemma {:induction false} MergedNothing(m: map<string, Link>, read: seq<Link>)
    requires forall i :: 0 <= i < |read| ==> LinkKey(read[i]) in m
    ensures Merged(m, read) == m
    decreases |read|
  {
    if read != [] { MergedNothing(m, read[..|read| - 1]); }
  }

  /** Links with plain names have different keys. */
  ghost predicate PlainLink(l: Link) {
    Plain(l.near) && Plain(l.far)
  }

  lemma PlainKey(l: Link, m: Link)
    requires PlainLink(l) && PlainLink(m) && LinkKey(l) == LinkKey(m)
    ensures l == m
  {
    var t := LinkKey(l);
    var commaL, commaM := |EndText(l.near)|, |EndText(m.near)|;
    Positions(l.near, l.far, t, |l.near.service|, commaL, commaL + 1 + |l.far.service|);
    Positions(m.near, m.far, t, |m.near.service|, commaM, commaM + 1 + |m.far.service|);
    Pieces(l.near, l.far, t, |l.near.service|, commaL, commaL + 1 + |l.far.service|);
    Pieces(m.near, m.far, t, |m.near.service|, commaM, commaM + 1 + |m.far.service|);
  }

  /** The device's link table after reading: one entry for each distinct record, old or new, so
      a link written twice, in either order, is one entry and no link appears twice. Nothing is
      ever taken out of the table. */
  method MergeLinks(me: string, known: map<string, Link>, texts: seq<string>) returns (links: map<string, Link>)
    requires Keyed(known)
    ensures links == Merged(known, Readings(me, texts))
    ensures Keyed(links) && known.Items <= links.Items
    ensures forall key :: key in links <==> key in known || KeyRead(Readings(me, texts), key)
    ensures forall k :: k in links ==> (k in known && links[k] == known[k]) || links[k] in Readings(me, texts)
    ensures forall k, m :: k in links && m in links && links[k] == links[m] ==> k == m
  {
    var read := ReadAll(me, texts);
    links := Merge(known, read);
    MergedIs(known, read);
  }

  method ReadAll(me: string, texts: seq<string>) returns (read: seq<Link>)
    ensures read == Readings(me, texts)
  {
    read := [];
    for i := 0 to |texts|
      invariant read == Readings(me, texts)[..i]
    {
      var l := ReadLinkProperty(me, texts[i]);
      OneMore(text => ReadLinkProperty(me, text), texts, i);
      read := read + [l];
    }
  }

  lemma OneMore<T, U>(f: T -> U, s: seq<T>, i: nat)
    requires i < |s|
    ensures Mapped(f, s)[..i + 1] == Mapped(f, s)[..i] + [f(s[i])]
  {
  }

  method Merge(known: map<string, Link>, read: seq<Link>) returns (links: map<string, Link>)
    ensures links == Merged(known, read)
  {
    links := known;
    for i := 0 to |read|
      invariant links == Merged(known, read[..i])
    {
      assert read[..i + 1][..i] == read[..i];
      if LinkKey(read[i]) !in links { links := links[LinkKey(read[i]) := read[i]]; }
    }
    assert read[..|read|] == read;
  }
}
