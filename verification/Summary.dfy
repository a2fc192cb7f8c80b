/** The controller's periodic state summary: the table built from the registry's keys, the
    counts per state, and the flags that tell a client whether its lists are still right
    (controller/WebGui.cxx, PollState and SendStateSummary). */
module Summary {
  import Text

  datatype Key = Key(service: string, instance: string)

  /** What a state key yields: nothing, an empty text, or the number of a state's name. */
  datatype Reading = Missing | Blank | StateId(id: nat)

  /** The number of the state Undefined, which stands in for a key that has gone. */
  const UNDEFINED: nat := 0

  /** A state of None stands for an empty state text. */
  datatype Option<T> = None | Some(value: T)
  datatype Instance = Instance(state: Option<nat>, date: string)
  datatype Service = Service(instances: map<string, Instance>, counts: seq<nat>, date: string)
  type Table = map<string, Service>

  function StateOf(r: Reading): Option<nat> {
    match r
    case Missing => Some(UNDEFINED)
    case Blank => None
    case StateId(id) => Some(id)
  }

  predicate Has(t: Table, k: Key) {
    k.service in t && k.instance in t[k.service].instances
  }

  function At(t: Table, k: Key): Instance
    requires Has(t, k)
  {
    t[k.service].instances[k.instance]
  }

  function Put(t: Table, k: Key, i: Instance): Table {
    var s := if k.service in t then t[k.service] else Service(map[], [], "");
    t[k.service := s.(instances := s.instances[k.instance := i])]
  }

  lemma PutHas(t: Table, k: Key, i: Instance, l: Key)
    ensures Has(Put(t, k, i), l) <==> Has(t, l) || l == k
    ensures Has(Put(t, k, i), l) ==> At(Put(t, k, i), l) == if l == k then i else At(t, l)
  {
  }

  /** No service of the table is without instances. */
  ghost predicate Inhabited(t: Table) {
    forall s :: s in t ==> exists n :: n in t[s].instances
  }

  /** The services have got neither counts nor dates yet. */
  ghost predicate Fresh(t: Table) {
    forall s :: s in t ==> t[s].counts == [] && t[s].date == ""
  }

  /** Exactly the keys found are in the table, each with the state read for it. */
  ghost predicate Holds(t: Table, keys: seq<Key>, values: seq<Reading>)
    requires |keys| == |values|
  {
    && (forall k :: Has(t, k) ==> k in keys)
    && (forall j :: 0 <= j < |keys| ==> Has(t, keys[j]) && At(t, keys[j]).state == StateOf(values[j]))
  }

  ghost predicate Distinct(keys: seq<Key>) {
    forall i, j :: 0 <= i < j < |keys| ==> keys[i] != keys[j]
  }

  lemma PutHolds(t: Table, keys: seq<Key>, values: seq<Reading>, j: nat)
    requires |keys| == |values| && j < |keys| && Distinct(keys)
    requires Holds(t, keys[..j], values[..j]) && Inhabited(t) && Fresh(t)
    ensures var r := Put(t, keys[j], Instance(StateOf(values[j]), ""));
            Holds(r, keys[..j + 1], values[..j + 1]) && Inhabited(r) && Fresh(r)
  {
    var i := Instance(StateOf(values[j]), "");
    var r := Put(t, keys[j], i);
    forall k | Has(r, k) ensures k in keys[..j + 1] {
      PutHas(t, keys[j], i, k);
      if k != keys[j] { assert k in keys[..j]; }
      assert keys[..j + 1][j] == keys[j];
    }
    forall m | 0 <= m < j + 1 ensures Has(r, keys[m]) && At(r, keys[m]).state == StateOf(values[m]) {
      PutHas(t, keys[j], i, keys[m]);
      if m < j { assert keys[..j][m] == keys[m] && values[..j][m] == values[m] && keys[m] != keys[j]; }
    }
    forall s | s in r ensures exists n :: n in r[s].instances {
      if s == keys[j].service { assert keys[j].instance in r[s].instances; }
    }
  }

  /** The first loop: a table entry for every state key. */
  method ReadStates(keys: seq<Key>, values: seq<Reading>) returns (t: Table)
    requires |keys| == |values| && Distinct(keys)
    ensures Holds(t, keys, values) && Inhabited(t) && Fresh(t)
    ensures forall k :: Has(t, k) ==> At(t, k).date == ""
  {
    t := map[];
    for j := 0 to |keys|
      invariant Holds(t, keys[..j], values[..j]) && Inhabited(t) && Fresh(t)
      invariant forall k :: Has(t, k) ==> At(t, k).date == ""
    {
      ghost var before := t;
      t := Put(t, keys[j], Instance(StateOf(values[j]), ""));
      PutHolds(before, keys, values, j);
      forall k | Has(t, k) ensures At(t, k).date == "" { PutHas(before, keys[j], Instance(StateOf(values[j]), ""), k); }
    }
    assert keys[..|keys|] == keys && values[..|values|] == values;
  }

  /** The same instances in the same states. */
  ghost predicate SameStates(t: Table, r: Table) {
    r.Keys == t.Keys && forall k :: (Has(r, k) <==> Has(t, k)) && (Has(t, k) ==> At(r, k).state == At(t, k).state)
  }

  /** The second loop: dates, for instances that are already in the table. */
  method ReadDates(t: Table, keys: seq<Key>, dates: seq<Option<string>>) returns (r: Table)
    requires |keys| == |dates| && Distinct(keys) && Fresh(t) && forall k :: Has(t, k) ==> At(t, k).date == ""
    ensures Fresh(r) && SameStates(t, r)
    ensures forall j :: 0 <= j < |keys| && Has(t, keys[j]) ==>
        At(r, keys[j]).date == if dates[j].Some? then dates[j].value else ""
    ensures forall k :: Has(t, k) && k !in keys ==> At(r, k).date == ""
  {
    r := t;
    for j := 0 to |keys|
      invariant Fresh(r) && SameStates(t, r)
      invariant forall k :: Has(t, k) && k !in keys[..j] ==> At(r, k).date == ""
      invariant forall m :: 0 <= m < j && Has(t, keys[m]) ==>
          At(r, keys[m]).date == if dates[m].Some? then dates[m].value else ""
    {
      assert keys[..j + 1] == keys[..j] + [keys[j]];
      if keys[j].service in r && keys[j].instance in r[keys[j].service].instances && dates[j].Some? {
        ghost var before := r;
        var i := At(r, keys[j]).(date := dates[j].value);
        r := Put(r, keys[j], i);
        forall k
          ensures (Has(r, k) <==> Has(before, k)) &&
              (Has(before, k) ==> At(r, k) == if k == keys[j] then i else At(before, k))
        {
          PutHas(before, keys[j], i, k);
        }
      }
    }
    assert keys[..|keys|] == keys;
  }

  // ---- counting ---------------------------------------------------------------------------

  /** The instances in a given state. */
  function InState(s: map<string, Instance>, id: nat): set<string> {
    set n | n in s && s[n].state == Some(id)
  }

  /** The instances whose state is known and has a number in range. */
  function Counted(s: map<string, Instance>, nStates: nat): set<string> {
    set n | n in s && s[n].state.Some? && s[n].state.value < nStates
  }

  function Sum(counts: seq<nat>): nat {
    if counts == [] then 0 else Sum(counts[..|counts| - 1]) + counts[|counts| - 1]
  }

  /** The latest of the dates, as texts; empty if there is none. */
  ghost predicate Latest(s: map<string, Instance>, date: string) {
    && (forall n :: n in s ==> !Text.Less(date, s[n].date))
    && (date == "" || exists n :: n in s && s[n].date == date)
  }

  ghost predicate Tallied(s: map<string, Instance>, seen: set<string>, counts: seq<nat>) {
    forall i :: 0 <= i < |counts| ==> counts[i] == |InState(s, i) * seen|
  }

  lemma TallyOne(s: map<string, Instance>, seen: set<string>, n: string, counts: seq<nat>)
    requires n in s && n !in seen && Tallied(s, seen, counts)
    ensures s[n].state.Some? && s[n].state.value < |counts| ==>
              Tallied(s, seen + {n}, counts[s[n].state.value := counts[s[n].state.value] + 1])
    ensures !(s[n].state.Some? && s[n].state.value < |counts|) ==> Tallied(s, seen + {n}, counts)
  {
    forall i | 0 <= i < |counts|
      ensures |InState(s, i) * (seen + {n})| == |InState(s, i) * seen| + if s[n].state == Some(i) then 1 else 0
    {
      if s[n].state == Some(i) {
        assert InState(s, i) * (seen + {n}) == InState(s, i) * seen + {n};
      } else {
        assert InState(s, i) * (seen + {n}) == InState(s, i) * seen;
      }
    }
  }

  /** A state number out of range takes the instance out of the counts and out of the date. */
  predicate Bad(i: Instance, nStates: nat) {
    i.state.Some? && i.state.value >= nStates
  }

  function Upto(s: map<string, Instance>, seen: set<string>, nStates: nat): map<string, Instance> {
    map n | n in s && n in seen && !Bad(s[n], nStates) :: s[n]
  }

  lemma LatestOne(s: map<string, Instance>, seen: set<string>, n: string, date: string, nStates: nat)
    requires n in s && Latest(Upto(s, seen, nStates), date) && !Bad(s[n], nStates)
    ensures var d := s[n].date;
            Latest(Upto(s, seen + {n}, nStates), if d != "" && (date == "" || Text.Less(date, d)) then d else date)
  {
    var d := s[n].date;
    var r := if d != "" && (date == "" || Text.Less(date, d)) then d else date;
    var t := Upto(s, seen + {n}, nStates);
    forall m | m in t ensures !Text.Less(r, t[m].date) {
      assert m in seen ==> Upto(s, seen, nStates)[m] == s[m];
      if Text.Less(r, s[m].date) {
        if r != date && m in seen { Text.LessTransitive(date, d, s[m].date); }
        if m == n { Text.LessIrreflexive(d); }
      }
    }
    if r != "" && r == date {
      var m :| m in Upto(s, seen, nStates) && Upto(s, seen, nStates)[m].date == date;
      assert m in t && t[m].date == r;
    } else if r != "" {
      assert n in t && t[n].date == r;
    }
  }

  /** Counts and date cover the instances seen so far. */
  ghost predicate Covers(s: map<string, Instance>, seen: set<string>, counts: seq<nat>, date: string) {
    Tallied(s, seen, counts) && Latest(Upto(s, seen, |counts|), date)
  }

  lemma CoversNone(s: map<string, Instance>, nStates: nat)
    ensures Covers(s, {}, seq(nStates, i => 0), "")
  {
    forall i ensures InState(s, i) * {} == {} {}
  }

  lemma CoversAll(s: map<string, Instance>, counts: seq<nat>, date: string)
    requires Covers(s, s.Keys, counts, date)
    ensures forall i :: 0 <= i < |counts| ==> counts[i] == |InState(s, i)|
    ensures Latest(Upto(s, s.Keys, |counts|), date)
  {
    forall i | 0 <= i < |counts| ensures InState(s, i) * s.Keys == InState(s, i) {}
  }

  /** One instance of the third loop. */
  method CountOne(i: Instance, ghost s: map<string, Instance>, ghost seen: set<string>, ghost n: string,
      counts: seq<nat>, date: string) returns (counts': seq<nat>, date': string)
    requires n in s && n !in seen && s[n] == i && Covers(s, seen, counts, date)
    ensures |counts'| == |counts| && Covers(s, seen + {n}, counts', date')
  {
    TallyOne(s, seen, n, counts);
    counts', date' := counts, date;
    if i.state.Some? {
      if i.state.value >= |counts| {
        assert Upto(s, seen + {n}, |counts|) == Upto(s, seen, |counts|);
        return;
      }
      counts' := counts[i.state.value := counts[i.state.value] + 1];
    }
    LatestOne(s, seen, n, date, |counts|);
    if i.date != "" && (date == "" || Text.Less(date, i.date)) { date' := i.date; }
  }

  /** The third loop, for one service. */
  method Count(s: map<string, Instance>, nStates: nat) returns (counts: seq<nat>, date: string)
    ensures |counts| == nStates && forall i :: 0 <= i < nStates ==> counts[i] == |InState(s, i)|
    ensures Latest(Upto(s, s.Keys, nStates), date)
  {
    counts, date := seq(nStates, i => 0), "";
    var rest := s.Keys;
    ghost var seen := {};
    CoversNone(s, nStates);
    while rest != {}
      invariant seen + rest == s.Keys && seen !! rest && |counts| == nStates && Covers(s, seen, counts, date)
    {
      var n :| n in rest;
      counts, date := CountOne(s[n], s, seen, n, counts, date);
      rest, seen := rest - {n}, seen + {n};
    }
    CoversAll(s, counts, date);
  }

  lemma {:induction false} SumIsCounted(s: map<string, Instance>, counts: seq<nat>)
    requires forall i :: 0 <= i < |counts| ==> counts[i] == |InState(s, i)|
    ensures Sum(counts) == |Counted(s, |counts|)|
    decreases |counts|
  {
    if counts == [] {
      assert Counted(s, 0) == {};
    } else {
      var k := |counts| - 1;
      SumIsCounted(s, counts[..k]);
      assert Counted(s, k + 1) == Counted(s, k) + InState(s, k) && Counted(s, k) !! InState(s, k);
    }
  }

  /** A finished service: its counts and its date are those of its instances. */
  ghost predicate Summed(s: Service, nStates: nat) {
    && |s.counts| == nStates && (forall i :: 0 <= i < nStates ==> s.counts[i] == |InState(s.instances, i)|)
    && Latest(Upto(s.instances, s.instances.Keys, nStates), s.date)
  }

  method Summarise(t: Table, nStates: nat) returns (r: Table)
    requires Fresh(t)
    ensures r.Keys == t.Keys && forall s :: s in t ==> r[s].instances == t[s].instances && Summed(r[s], nStates)
  {
    r := t;
    var rest := t.Keys;
    while rest != {}
      invariant rest <= t.Keys && r.Keys == t.Keys
      invariant forall s :: s in t ==>
          r[s].instances == t[s].instances && (if s in rest then r[s] == t[s] else Summed(r[s], nStates))
    {
      var s :| s in rest;
      rest := rest - {s};
      var counts, date := Count(r[s].instances, nStates);
      r := r[s := r[s].(counts := counts, date := date)];
    }
  }

  /** The date an update key yields for an instance; keys that are not found give none. */
  ghost predicate Dated(t: Table, keys: seq<Key>, dates: seq<Option<string>>)
    requires |keys| == |dates|
  {
    && (forall j :: 0 <= j < |keys| && Has(t, keys[j]) ==>
         At(t, keys[j]).date == if dates[j].Some? then dates[j].value else "")
    && forall k :: Has(t, k) && k !in keys ==> At(t, k).date == ""
  }

  /** Every service's counts add up to its instances with a known state. */
  ghost predicate Complete(t: Table, nStates: nat) {
    forall s :: s in t ==>
      t[s].instances != map[] && Summed(t[s], nStates) && Sum(t[s].counts) == |Counted(t[s].instances, nStates)|
  }

  /** One round: the table shows exactly the keys found, with their states and dates, and each
      service with its counts, which lose no instance of a known state, and its latest date. */
  method PollState(keys: seq<Key>, values: seq<Reading>, dateKeys: seq<Key>, dates: seq<Option<string>>, nStates: nat)
      returns (t: Table)
    requires |keys| == |values| && |dateKeys| == |dates| && Distinct(keys) && Distinct(dateKeys)
    ensures Holds(t, keys, values) && Dated(t, dateKeys, dates) && Complete(t, nStates)
  {
    if keys == [] { return map[]; }
    var found := ReadStates(keys, values);
    var dated := ReadDates(found, dateKeys, dates);
    DatesKeep(found, dated, keys, values);
    t := Summarise(dated, nStates);
    assert forall k :: (Has(t, k) <==> Has(dated, k)) && (Has(t, k) ==> At(t, k) == At(dated, k));
    forall s | s in t ensures t[s].instances != map[] && Sum(t[s].counts) == |Counted(t[s].instances, nStates)| {
      SumIsCounted(t[s].instances, t[s].counts);
      var n :| n in dated[s].instances;
    }
  }

  lemma DatesKeep(t: Table, r: Table, keys: seq<Key>, values: seq<Reading>)
    requires |keys| == |values| && Holds(t, keys, values) && Inhabited(t) && SameStates(t, r)
    ensures Holds(r, keys, values) && Inhabited(r)
  {
    forall s | s in r ensures exists n :: n in r[s].instances {
      var n :| n in t[s].instances;
      assert Has(t, Key(s, n)) && Has(r, Key(s, n));
    }
  }

  // ---- the flags --------------------------------------------------------------------------

  /** The same services with the same instances, whatever their states. */
  ghost predicate SameNames(a: Table, b: Table) {
    a.Keys == b.Keys && forall s :: s in a ==> a[s].instances.Keys == b[s].instances.Keys
  }

  lemma SameSize<T>(a: set<T>, b: set<T>)
    requires |a| == |b| && b <= a
    ensures a == b
  {
    assert |a - b| == |a| - |b|;
  }

  /** Two maps of one size where every key of the second is in the first. */
  method SameKeys<K, A, B>(a: map<K, A>, b: map<K, B>) returns (same: bool)
    ensures same <==> a.Keys == b.Keys
  {
    assert |a.Keys| == |a| && |b.Keys| == |b|;
    if |a| != |b| { return false; }
    var rest := b.Keys;
    while rest != {}
      invariant rest <= b.Keys && b.Keys - rest <= a.Keys
    {
      var k :| k in rest;
      if k !in a { return false; }
      rest := rest - {k};
    }
    assert b.Keys <= a.Keys;
    SameSize(a.Keys, b.Keys);
    same := true;
  }

  /** The comparison of two tables, services first. */
  method Compare(prev: Table, table: Table) returns (serviceListChanged: bool, instanceListChanged: bool)
    ensures serviceListChanged <==> prev.Keys != table.Keys
    ensures instanceListChanged <==> !SameNames(prev, table)
  {
    var same := SameKeys(prev, table);
    if !same { return true, true; }
    var rest := table.Keys;
    while rest != {}
      invariant rest <= table.Keys && forall s :: s in table && s !in rest ==>
          prev[s].instances.Keys == table[s].instances.Keys
    {
      var s :| s in rest;
      rest := rest - {s};
      same := SameKeys(prev[s].instances, table[s].instances);
      if !same {
        assert s in prev && prev[s].instances.Keys != table[s].instances.Keys;
        return false, true;
      }
    }
    assert forall s :: s in table ==> s !in rest;
    serviceListChanged, instanceListChanged := false, false;
  }

  class Sender {
    var prevTable: Table

    constructor ()
      ensures prevTable == map[]
    {
      prevTable := map[];
    }

    /** The instance flag is down exactly when services and instances are those of the summary
        before, the service flag exactly when the services are. */
    method SendStateSummary(table: Table) returns (serviceListChanged: bool, instanceListChanged: bool)
      modifies this
      ensures prevTable == table
      ensures serviceListChanged <==> old(prevTable).Keys != table.Keys
      ensures instanceListChanged <==> !SameNames(old(prevTable), table)
    {
      serviceListChanged, instanceListChanged := Compare(prevTable, table);
      prevTable := table;
    }

    /** A client that takes over the names only when the instance flag is up has the right names
        after every summary of a run. */
    method Serve(tables: seq<Table>, client: Table) returns (seen: Table)
      requires SameNames(client, prevTable)
      modifies this
      ensures SameNames(seen, if tables == [] then old(prevTable) else tables[|tables| - 1])
    {
      seen := client;
      for i := 0 to |tables|
        invariant SameNames(seen, prevTable) && prevTable == if i == 0 then old(prevTable) else tables[i - 1]
      {
        var s, n := SendStateSummary(tables[i]);
        if n { seen := tables[i]; }
      }
    }
  }
}
