/** From the link records' texts to the wiring of the topology. */
module Records {
  import opened Wiring
  import opened Links
  import opened Topology

  /** The records name exactly the links of this service, each once or more, in either order. */
  ghost predicate Describe(w: World, me: string, texts: seq<string>) {
    && (forall x :: x in w.wires ==> Plain(x.bind) && Plain(x.connect))
    && (forall t :: t in texts ==> exists x :: x in w.wires && Of(x, me, t))
    && (forall x :: x in w.wires && me in {x.bind.service, x.connect.service} ==>
         exists t :: t in texts && Of(x, me, t))
  }

  predicate Of(x: Wire, me: string, t: string) {
    && me in {x.bind.service, x.connect.service}
    && t in {LinkText(x.bind, x.connect), LinkText(x.connect, x.bind)}
  }

  function Seen(x: Wire, me: string): Link {
    if x.bind.service == me then Link(x.bind, x.connect) else Link(x.connect, x.bind)
  }

  lemma ReadsSeen(w: World, x: Wire, me: string, t: string)
    requires Valid(w) && x in w.wires && Plain(x.bind) && Plain(x.connect) && Of(x, me, t)
    ensures ReadLinkProperty(me, t) == Seen(x, me)
  {
    EitherOrder(me, x.bind, x.connect);
  }

  lemma ReadingAt(w: World, me: string, texts: seq<string>, i: nat) returns (x: Wire)
    requires Valid(w) && Describe(w, me, texts) && i < |texts|
    ensures x in w.wires && Of(x, me, texts[i]) && Readings(me, texts)[i] == Seen(x, me)
  {
    assert texts[i] in texts;
    x :| x in w.wires && Of(x, me, texts[i]);
    ReadsSeen(w, x, me, texts[i]);
  }

  lemma SeenReading(w: World, me: string, texts: seq<string>, x: Wire) returns (i: nat)
    requires Valid(w) && Describe(w, me, texts) && x in w.wires && me in {x.bind.service, x.connect.service}
    ensures i < |texts| && Readings(me, texts)[i] == Seen(x, me)
  {
    var t :| t in texts && Of(x, me, t);
    i :| 0 <= i < |texts| && texts[i] == t;
    ReadsSeen(w, x, me, t);
  }

  ghost predicate SeenLink(w: World, me: string, l: Link) {
    l.near.service == me && (Wire(l.near, l.far) in w.wires || Wire(l.far, l.near) in w.wires)
  }

  lemma ReadingsAreSeen(w: World, me: string, texts: seq<string>)
    requires Valid(w) && Describe(w, me, texts)
    ensures forall l :: l in Readings(me, texts) <==> SeenLink(w, me, l)
  {
    var read := Readings(me, texts);
    forall l | l in read ensures SeenLink(w, me, l) {
      var i :| 0 <= i < |read| && read[i] == l;
      var x := ReadingAt(w, me, texts, i);
    }
    forall l | SeenLink(w, me, l) ensures l in read {
      var x := if Wire(l.near, l.far) in w.wires then Wire(l.near, l.far) else Wire(l.far, l.near);
      var i := SeenReading(w, me, texts, x);
      assert read[i] == l;
    }
  }

  /** Earlier readings of this service, with plain names. */
  ghost predicate PlainKnown(me: string, known: map<string, Link>) {
    Keyed(known) && forall l :: l in known.Values ==> l.near.service == me && PlainLink(l)
  }

  ghost predicate AllSeen(w: World, me: string, known: map<string, Link>) {
    forall l :: l in known.Values ==> SeenLink(w, me, l)
  }

  lemma SeenIsPlain(w: World, me: string, l: Link)
    requires (forall x :: x in w.wires ==> Plain(x.bind) && Plain(x.connect)) && SeenLink(w, me, l)
    ensures PlainLink(l) && l.near.service == me
  {
  }

  /** Whatever the order and the repetitions of the records, a device's link table is the
      topology's wiring seen from its service, each link once and near end first, if and only if
      the links it has kept from earlier cycles still belong to that wiring; a first cycle has
      kept none. */
  lemma TableIsWiringIff(w: World, me: string, texts: seq<string>, known: map<string, Link>, table: map<string, Link>,
      list: seq<Link>)
    requires Valid(w) && Describe(w, me, texts) && PlainKnown(me, known)
    requires table == Merged(known, Readings(me, texts))
    requires Distinct(list) && forall l :: l in list <==> l in table.Values
    ensures ReadBy(w, me, list) <==> AllSeen(w, me, known)
  {
    ReadingsAreSeen(w, me, texts);
    MergedIs(known, Readings(me, texts));
    TableHolds(w, me, Readings(me, texts), known, table);
    assert ReadBy(w, me, list) <==> forall l :: l in table.Values <==> SeenLink(w, me, l);
  }

  lemma TableHolds(w: World, me: string, read: seq<Link>, known: map<string, Link>, table: map<string, Link>)
    requires Valid(w) && (forall x :: x in w.wires ==> Plain(x.bind) && Plain(x.connect)) && PlainKnown(me, known)
    requires forall l :: l in read <==> SeenLink(w, me, l)
    requires Keyed(table) && known.Items <= table.Items && forall k :: k in table <==> k in known || KeyRead(read, k)
    requires forall k :: k in table ==> (k in known && table[k] == known[k]) || table[k] in read
    ensures (forall l :: l in table.Values <==> SeenLink(w, me, l)) <==> AllSeen(w, me, known)
  {
    forall k | k in known ensures k in table && table[k] == known[k] { assert (k, known[k]) in table.Items; }
    forall l | SeenLink(w, me, l) ensures l in table.Values {
      assert l in read;
      assert KeyRead(read, LinkKey(l));
      SeenIsPlain(w, me, l);
      var m := table[LinkKey(l)];
      if m in read { SeenIsPlain(w, me, m); } else { assert m in known.Values; }
      PlainKey(l, m);
    }
    if AllSeen(w, me, known) {
      forall l | l in table.Values ensures SeenLink(w, me, l) {
        var k :| k in table && table[k] == l;
        if k in known && table[k] == known[k] { assert l in known.Values; }
      }
    } else {
      var l :| l in known.Values && !SeenLink(w, me, l);
      assert l in table.Values;
    }
  }
}
