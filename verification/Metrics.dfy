/** The rounds of socket metrics: reports are summed up per sub-channel and queued on a pipeline,
    which is executed when every channel seen has reported (plugins/MetricsPlugin.cxx). */
module Metrics {

  datatype Option<T> = None | Some(value: T)

  datatype Figures = Figures(msgIn: real, bytesIn: real, msgOut: real, bytesOut: real)

  const ZERO := Figures(0.0, 0.0, 0.0, 0.0)

  function Plus(a: Figures, b: Figures): Figures {
    Figures(a.msgIn + b.msgIn, a.bytesIn + b.bytesIn, a.msgOut + b.msgOut, a.bytesOut + b.bytesOut)
  }

  /** A log line about a sub-channel, with the socket type its property gives at that moment. */
  datatype Report = Report(channel: string, now: Figures, socketType: Option<string>)

  /** Pipeline commands: the values of one direction with their sums, the figures of the process,
      the device state, the creation of the time series. */
  datatype Command =
    | In(channel: string, msg: real, bytes: real, msgSum: real, bytesSum: real)
    | Out(channel: string, msg: real, bytes: real, msgSum: real, bytesSum: real)
    | Process | SetState(name: string) | CreateTimeseries

  datatype State = State(
    sums: map<string, Figures>, counts: map<string, nat>, pipe: seq<Command>,
    executed: seq<Command>, since: seq<Report>)

  predicate HasInput(t: string) {
    t != "push" && t != "pub"
  }

  predicate HasOutput(t: string) {
    t != "pull" && t != "sub"
  }

  function Sum(s: State, channel: string): Figures {
    if channel in s.sums then s.sums[channel] else ZERO
  }

  function Entries(channel: string, now: Figures, sum: Figures, t: string): seq<Command> {
    (if HasInput(t) then [In(channel, now.msgIn, now.bytesIn, sum.msgIn, sum.bytesIn)] else []) +
    (if HasOutput(t) then [Out(channel, now.msgOut, now.bytesOut, sum.msgOut, sum.bytesOut)] else [])
  }

  /** What a report adds to the pipeline. */
  function Queued(s: State, r: Report): seq<Command> {
    if r.socketType.None? then [] else Entries(r.channel, r.now, Plus(Sum(s, r.channel), r.now), r.socketType.value)
  }

  /** The round is complete: all channels seen have been counted. */
  predicate Complete(s: State) {
    s.counts.Keys == s.sums.Keys
  }

  function Flushed(s: State): State {
    s.(pipe := [], executed := s.executed + s.pipe + [Process], counts := map[])
  }

  /** A report before the pipeline is looked at. */
  function Noted(s: State, r: Report): State {
    var t := s.(sums := s.sums[r.channel := Plus(Sum(s, r.channel), r.now)], since := s.since + [r]);
    if r.socketType.None? then t else t.(pipe := s.pipe + Queued(s, r), counts := s.counts[r.channel := 1])
  }

  function Reported(s: State, r: Report): State {
    var t := Noted(s, r);
    if r.socketType.Some? && Complete(t) then Flushed(t) else t
  }

  /** A state change throws away what is queued; Ready also starts the sums and the round anew. */
  function Changed(s: State, name: string, recreate: bool): State {
    var t := s.(pipe := [], executed := s.executed + [SetState(name)]);
    if name == "READY" then t.(sums := map[], counts := map[], since := [])
    else if name == "RUNNING" && recreate then t.(executed := t.executed + [CreateTimeseries])
    else t
  }

  // ---- totals and rounds ------------------------------------------------------------------

  function Channels(rs: seq<Report>): set<string>
    decreases |rs|
  {
    if rs == [] then {} else Channels(rs[..|rs| - 1]) + {rs[|rs| - 1].channel}
  }

  /** The channels of the reports that came with a known socket type. */
  function Typed(rs: seq<Report>): set<string>
    decreases |rs|
  {
    if rs == [] then {} else
      var last := rs[|rs| - 1];
      Typed(rs[..|rs| - 1]) + if last.socketType.Some? then {last.channel} else {}
  }

  /** The sum of a channel's figures in a list of reports. */
  function Total(rs: seq<Report>, channel: string): Figures
    decreases |rs|
  {
    if rs == [] then ZERO else
      var before, last := Total(rs[..|rs| - 1], channel), rs[|rs| - 1];
      if last.channel == channel then Plus(before, last.now) else before
  }

  lemma {:induction false} TotalElsewhere(rs: seq<Report>, channel: string)
    requires channel !in Channels(rs)
    ensures Total(rs, channel) == ZERO
    decreases |rs|
  {
    if rs != [] { TotalElsewhere(rs[..|rs| - 1], channel); }
  }

  lemma OneMore(rs: seq<Report>, r: Report)
    ensures Channels(rs + [r]) == Channels(rs) + {r.channel}
    ensures Typed(rs + [r]) == Typed(rs) + if r.socketType.Some? then {r.channel} else {}
    ensures forall c :: Total(rs + [r], c) == if c == r.channel then Plus(Total(rs, c), r.now) else Total(rs, c)
  {
    var s := rs + [r];
    assert s[..|s| - 1] == rs;
  }

  /** The sums are the totals of the reports since Ready. */
  ghost predicate SumsRight(sums: map<string, Figures>, since: seq<Report>) {
    sums.Keys == Channels(since) && forall c :: c in sums ==> sums[c] == Total(since, c)
  }

  /** Every counted channel is counted once, and a complete round is never left standing. */
  ghost predicate CountsRight(s: State) {
    && s.counts.Keys <= s.sums.Keys && (forall c :: c in s.counts ==> s.counts[c] == 1)
    && (Complete(s) ==> s.sums == map[])
  }

  ghost predicate Inv(s: State) {
    SumsRight(s.sums, s.since) && CountsRight(s)
  }

  lemma SumIsTotal(s: State, channel: string)
    requires SumsRight(s.sums, s.since)
    ensures Sum(s, channel) == Total(s.since, channel)
  {
    if channel !in s.sums { TotalElsewhere(s.since, channel); }
  }

  lemma SumsKeep(s: State, r: Report)
    requires SumsRight(s.sums, s.since)
    ensures SumsRight(Noted(s, r).sums, s.since + [r]) && Noted(s, r).sums.Keys == s.sums.Keys + {r.channel}
  {
    SumIsTotal(s, r.channel);
    OneMore(s.since, r);
  }

  lemma CountsKeep(s: State, r: Report)
    requires CountsRight(s)
    ensures CountsRight(Reported(s, r))
  {
    assert Noted(s, r).sums.Keys == s.sums.Keys + {r.channel};
    if r.channel in s.sums { assert s.sums.Keys + {r.channel} == s.sums.Keys; }
  }

  lemma ReportKeeps(s: State, r: Report)
    requires Inv(s)
    ensures Inv(Reported(s, r)) && Reported(s, r).since == s.since + [r]
  {
    SumsKeep(s, r);
    CountsKeep(s, r);
  }

  lemma ChangeKeeps(s: State, name: string, recreate: bool)
    requires Inv(s)
    ensures Inv(Changed(s, name, recreate))
  {
  }

  // ---- reports between two state changes --------------------------------------------------

  function AllReported(s: State, rs: seq<Report>): State
    decreases |rs|
  {
    if rs == [] then s else Reported(AllReported(s, rs[..|rs| - 1]), rs[|rs| - 1])
  }

  predicate Flushes(s: State, r: Report) {
    r.socketType.Some? && Complete(Noted(s, r))
  }

  /** The commands a report queues, with those of the flush if there is one. */
  function Enqueued(s: State, r: Report): seq<Command> {
    Queued(s, r) + if Flushes(s, r) then [Process] else []
  }

  function AllEnqueued(s: State, rs: seq<Report>): seq<Command>
    decreases |rs|
  {
    if rs == [] then [] else AllEnqueued(s, rs[..|rs| - 1]) + Enqueued(AllReported(s, rs[..|rs| - 1]), rs[|rs| - 1])
  }

  /** What has been executed, followed by what waits. */
  function Stream(s: State): seq<Command> {
    s.executed + s.pipe
  }

  lemma StreamGrows(s: State, r: Report)
    ensures Stream(Reported(s, r)) == Stream(s) + Enqueued(s, r)
  {
  }

  lemma Assoc(a: seq<Command>, b: seq<Command>, c: seq<Command>)
    ensures (a + b) + c == a + (b + c)
  {
  }

  /** Between two state changes nothing queued is lost or reordered: the stream of commands is
      what was there before, followed by all commands of the reports in their order. */
  lemma {:induction false} NothingLost(s: State, rs: seq<Report>)
    ensures Stream(AllReported(s, rs)) == Stream(s) + AllEnqueued(s, rs)
    decreases |rs|
  {
    if rs != [] {
      var front, last := rs[..|rs| - 1], rs[|rs| - 1];
      NothingLost(s, front);
      StreamGrows(AllReported(s, front), last);
      Assoc(Stream(s), AllEnqueued(s, front), Enqueued(AllReported(s, front), last));
    }
  }

  /** Every sum is the total of its channel's reports since Ready. */
  lemma SumsAreTotals(s: State, rs: seq<Report>, channel: string)
    requires Inv(s)
    ensures Sum(AllReported(s, rs), channel) == Total(s.since + rs, channel)
  {
    ReportsKeep(s, rs);
    SumIsTotal(AllReported(s, rs), channel);
  }

  /** Inputs for every type but push and pub, outputs for every type but pull and sub, and so
      always one of them. */
  lemma EntriesBySocketType(c: string, now: Figures, total: Figures, t: string)
    ensures var q := Entries(c, now, total, t);
            && (In(c, now.msgIn, now.bytesIn, total.msgIn, total.bytesIn) in q <==> t !in {"push", "pub"})
            && (Out(c, now.msgOut, now.bytesOut, total.msgOut, total.bytesOut) in q <==> t !in {"pull", "sub"})
            && |q| == if t in {"push", "pub", "pull", "sub"} then 1 else 2
  {
  }

  lemma TotalSoFar(s: State, rs: seq<Report>, i: nat)
    requires Inv(s) && i < |rs|
    ensures Plus(Sum(AllReported(s, rs[..i]), rs[i].channel), rs[i].now) == Total(s.since + rs[..i + 1], rs[i].channel)
  {
    ReportsKeep(s, rs[..i]);
    NextTotal(AllReported(s, rs[..i]), rs[i]);
    NextPrefix(s.since, rs, i);
  }

  lemma NextTotal(s: State, r: Report)
    requires Inv(s)
    ensures Plus(Sum(s, r.channel), r.now) == Total(s.since + [r], r.channel)
  {
    SumIsTotal(s, r.channel);
    OneMore(s.since, r);
  }

  lemma NextPrefix(a: seq<Report>, rs: seq<Report>, i: nat)
    requires i < |rs|
    ensures a + rs[..i + 1] == (a + rs[..i]) + [rs[i]]
  {
  }

  /** What a report of a known type puts on the pipeline: its own figures, each next to the total
      of all its channel's reports since Ready, itself included. */
  lemma QueuedFigures(s: State, rs: seq<Report>, i: nat)
    requires Inv(s) && i < |rs| && rs[i].socketType.Some?
    ensures var c, t, now, total := rs[i].channel, rs[i].socketType.value, rs[i].now,
        Total(s.since + rs[..i + 1], rs[i].channel);
            var q := Queued(AllReported(s, rs[..i]), rs[i]);
            && (In(c, now.msgIn, now.bytesIn, total.msgIn, total.bytesIn) in q <==> t !in {"push", "pub"})
            && (Out(c, now.msgOut, now.bytesOut, total.msgOut, total.bytesOut) in q <==> t !in {"pull", "sub"})
            && |q| == if t in {"push", "pub", "pull", "sub"} then 1 else 2
  {
    TotalSoFar(s, rs, i);
    EntriesBySocketType(rs[i].channel, rs[i].now, Total(s.since + rs[..i + 1], rs[i].channel), rs[i].socketType.value);
  }

  lemma {:induction false} ReportsKeep(s: State, rs: seq<Report>)
    requires Inv(s)
    ensures Inv(AllReported(s, rs)) && AllReported(s, rs).since == s.since + rs
    decreases |rs|
  {
    if rs == [] {
      assert s.since + rs == s.since;
    } else {
      var front, last := rs[..|rs| - 1], rs[|rs| - 1];
      ReportsKeep(s, front);
      ReportKeeps(AllReported(s, front), last);
      SinceAll(s, rs);
    }
  }

  lemma {:induction false} SinceAll(s: State, rs: seq<Report>)
    ensures AllReported(s, rs).since == s.since + rs
    decreases |rs|
  {
    if rs == [] {
      assert s.since + rs == s.since;
    } else {
      SinceAll(s, rs[..|rs| - 1]);
      assert s.since + rs == (s.since + rs[..|rs| - 1]) + [rs[|rs| - 1]];
    }
  }

  /** A flush happens at some report of the list. */
  ghost predicate EverFlushed(s: State, rs: seq<Report>) {
    exists i :: 0 <= i < |rs| && FlushAt(s, rs, i)
  }

  predicate FlushAt(s: State, rs: seq<Report>, i: nat)
    requires i < |rs|
  {
    Flushes(AllReported(s, rs[..i]), rs[i])
  }

  lemma QuietStep(s: State, r: Report)
    requires !Flushes(s, r)
    ensures Reported(s, r).counts.Keys == s.counts.Keys + if r.socketType.Some? then {r.channel} else {}
    ensures Reported(s, r).sums.Keys == s.sums.Keys + {r.channel} && Reported(s, r).executed == s.executed
  {
  }

  lemma {:induction false} Unflushed(s: State, rs: seq<Report>)
    requires !EverFlushed(s, rs)
    ensures AllReported(s, rs).counts.Keys == s.counts.Keys + Typed(rs)
    ensures AllReported(s, rs).sums.Keys == s.sums.Keys + Channels(rs)
    ensures AllReported(s, rs).executed == s.executed
    decreases |rs|
  {
    if rs != [] {
      var front, last := rs[..|rs| - 1], rs[|rs| - 1];
      forall i | 0 <= i < |front| ensures !FlushAt(s, front, i) {
        assert front[..i] == rs[..i];
        assert !FlushAt(s, rs, i);
      }
      Unflushed(s, front);
      assert !FlushAt(s, rs, |rs| - 1);
      QuietStep(AllReported(s, front), last);
    }
  }

  lemma {:induction false} TypedPrefix(rs: seq<Report>, i: nat)
    requires i <= |rs|
    ensures Typed(rs[..i]) <= Typed(rs) && (i < |rs| && rs[i].socketType.Some? ==> rs[i].channel in Typed(rs))
    decreases |rs|
  {
    if i == |rs| {
      assert rs[..i] == rs;
    } else {
      var front := rs[..|rs| - 1];
      TypedPrefix(front, i);
      assert front[..i] == rs[..i];
    }
  }

  /** Any flush, also with new channels appearing, needs each channel seen before. */
  lemma {:induction false} FlushNeedsAll(s: State, rs: seq<Report>, i: nat)
    requires i < |rs| && FlushAt(s, rs, i)
    ensures s.sums.Keys <= s.counts.Keys + Typed(rs)
    decreases i
  {
    var front := rs[..i];
    TypedPrefix(rs, i);
    if EverFlushed(s, front) {
      var j :| 0 <= j < |front| && FlushAt(s, front, j);
      FlushNeedsAll(s, front, j);
    } else {
      Unflushed(s, front);
      NotedKeys(AllReported(s, front), rs[i]);
    }
  }

  lemma NotedKeys(s: State, r: Report)
    requires r.socketType.Some?
    ensures Noted(s, r).counts.Keys == s.counts.Keys + {r.channel} && Noted(s, r).sums.Keys == s.sums.Keys + {r.channel}
  {
  }

  /** A channel whose socket type is unknown blocks the pipeline: nothing is executed any more,
      whatever the others report, until the next state change. */
  lemma UntypedBlocks(s: State, rs: seq<Report>, channel: string)
    requires channel in s.sums && channel !in s.counts && channel !in Typed(rs)
    ensures AllReported(s, rs).executed == s.executed && AllReported(s, rs).pipe == s.pipe + AllEnqueued(s, rs)
  {
    forall i | 0 <= i < |rs| ensures !FlushAt(s, rs, i) {
      if FlushAt(s, rs, i) { FlushNeedsAll(s, rs, i); }
    }
    Unflushed(s, rs);
    NothingLost(s, rs);
    PipeIsTail(s, AllReported(s, rs), AllEnqueued(s, rs));
  }

  lemma PipeIsTail(s: State, t: State, more: seq<Command>)
    requires Stream(t) == Stream(s) + more && t.executed == s.executed
    ensures t.pipe == s.pipe + more
  {
    assert t.pipe == Stream(t)[|s.executed|..];
    assert s.pipe + more == (Stream(s) + more)[|s.executed|..];
  }

  /** When no new channel appears, the pipeline is executed if and only if every channel seen has
      been counted or reports with a known socket type. */
  lemma FlushedIff(s: State, rs: seq<Report>)
    requires Inv(s) && rs != [] && Channels(rs) <= s.sums.Keys
    ensures EverFlushed(s, rs) <==> s.sums.Keys <= s.counts.Keys + Typed(rs)
  {
    if EverFlushed(s, rs) {
      var i :| 0 <= i < |rs| && FlushAt(s, rs, i);
      FlushNeedsAll(s, rs, i);
    } else {
      Unflushed(s, rs);
      ReportsKeep(s, rs);
      assert rs[|rs| - 1].channel in s.sums;
      assert !Complete(AllReported(s, rs));
    }
  }

  // ---- what an executed round holds -------------------------------------------------------

  /** The channels with an entry among these commands. */
  function Entered(p: seq<Command>): set<string>
    decreases |p|
  {
    if p == [] then {} else
      var last := p[|p| - 1];
      Entered(p[..|p| - 1]) + if last.In? || last.Out? then {last.channel} else {}
  }

  lemma {:induction false} EnteredConcat(p: seq<Command>, q: seq<Command>)
    ensures Entered(p + q) == Entered(p) + Entered(q)
    decreases |q|
  {
    if q == [] {
      assert p + q == p;
    } else {
      var z := |q| - 1;
      EnteredConcat(p, q[..z]);
      assert (p + q)[..|p + q| - 1] == p + q[..z];
    }
  }

  lemma EntryEntered(channel: string, now: Figures, sum: Figures, t: string)
    ensures Entered(Entries(channel, now, sum, t)) == {channel}
  {
    var q := Entries(channel, now, sum, t);
    var i, o := In(channel, now.msgIn, now.bytesIn, sum.msgIn, sum.bytesIn),
      Out(channel, now.msgOut, now.bytesOut, sum.msgOut, sum.bytesOut);
    assert Entered([i]) == {channel} by { assert [i][..0] == []; }
    assert Entered([o]) == {channel} by { assert [o][..0] == []; }
    EnteredConcat([i], [o]);
    assert q == [i] || q == [o] || q == [i] + [o];
  }

  lemma QueuedEntered(s: State, r: Report)
    ensures Entered(Queued(s, r)) == if r.socketType.Some? then {r.channel} else {}
  {
    if r.socketType.Some? { EntryEntered(r.channel, r.now, Plus(Sum(s, r.channel), r.now), r.socketType.value); }
  }

  lemma {:induction false} QuietEntered(s: State, rs: seq<Report>)
    requires !EverFlushed(s, rs)
    ensures Entered(AllReported(s, rs).pipe) == Entered(s.pipe) + Typed(rs)
    decreases |rs|
  {
    if rs != [] {
      var front, last := rs[..|rs| - 1], rs[|rs| - 1];
      QuietPrefix(s, rs);
      QuietEntered(s, front);
      QuietPipe(AllReported(s, front), last);
    }
  }

  lemma QuietPrefix(s: State, rs: seq<Report>)
    requires rs != [] && !EverFlushed(s, rs)
    ensures !EverFlushed(s, rs[..|rs| - 1]) && !Flushes(AllReported(s, rs[..|rs| - 1]), rs[|rs| - 1])
  {
    var front := rs[..|rs| - 1];
    forall i | 0 <= i < |front| ensures !FlushAt(s, front, i) {
      assert front[..i] == rs[..i];
      assert !FlushAt(s, rs, i);
    }
    assert !FlushAt(s, rs, |rs| - 1);
  }

  lemma QuietPipe(s: State, r: Report)
    requires !Flushes(s, r)
    ensures Entered(Reported(s, r).pipe) == Entered(s.pipe) + if r.socketType.Some? then {r.channel} else {}
  {
    QueuedEntered(s, r);
    EnteredConcat(s.pipe, Queued(s, r));
  }

  /** The round that a report completes, as it is executed. */
  function Round(s: State, r: Report): seq<Command>
    requires Flushes(s, r)
  {
    Noted(s, r).pipe
  }

  lemma RoundEntered(s: State, r: Report)
    requires Flushes(s, r)
    ensures Entered(Round(s, r)) == Entered(s.pipe) + {r.channel}
    ensures Noted(s, r).sums.Keys == s.counts.Keys + {r.channel}
  {
    QueuedEntered(s, r);
    EnteredConcat(s.pipe, Queued(s, r));
    NotedKeys(s, r);
  }

  /** A round made of reports alone holds an entry of every channel seen. */
  lemma RoundIsWhole(s: State, rs: seq<Report>, r: Report)
    requires s.counts.Keys == Entered(s.pipe) && !EverFlushed(s, rs) && Flushes(AllReported(s, rs), r)
    ensures Noted(AllReported(s, rs), r).sums.Keys == Entered(Round(AllReported(s, rs), r))
  {
    Unflushed(s, rs);
    QuietEntered(s, rs);
    RoundEntered(AllReported(s, rs), r);
  }

  /** A state change other than Ready discards the entries of the round but keeps its count: the
      round that is completed afterwards holds an entry of every channel seen if and only if each
      channel counted before the change reports again, with a known type, after it. */
  lemma RoundAfterChangeIff(s: State, name: string, recreate: bool, rs: seq<Report>, r: Report)
    requires name != "READY"
    requires !EverFlushed(Changed(s, name, recreate), rs) && Flushes(AllReported(Changed(s, name, recreate), rs), r)
    ensures var t := AllReported(Changed(s, name, recreate), rs);
            Noted(t, r).sums.Keys <= Entered(Round(t, r)) <==> s.counts.Keys <= Typed(rs + [r])
  {
    var t := Changed(s, name, recreate);
    Unflushed(t, rs);
    QuietEntered(t, rs);
    RoundEntered(AllReported(t, rs), r);
    OneMore(rs, r);
    assert t.counts == s.counts && Entered(t.pipe) == {};
  }

  // ---- the plugin object ------------------------------------------------------------------

  class MetricsPlugin {
    var socketMetrics: map<string, Figures>
    var numChannels: map<string, nat>
    var pipe: seq<Command>
    ghost var executed: seq<Command>
    ghost var since: seq<Report>

    ghost function Value(): State
      reads this
    {
      State(socketMetrics, numChannels, pipe, executed, since)
    }

    constructor ()
      ensures Value() == State(map[], map[], [], [], []) && Inv(Value())
    {
      socketMetrics, numChannels, pipe := map[], map[], [];
      executed, since := [], [];
    }

    method Exec()
      modifies this`pipe, this`executed
      ensures executed == old(executed) + old(pipe) && pipe == []
    {
      executed := executed + pipe;
      pipe := [];
    }

    /** The number of channels counted, as the sum of the counts. */
    method CountAll() returns (all: nat)
      requires forall c :: c in numChannels ==> numChannels[c] == 1
      ensures all == |numChannels|
    {
      all := 0;
      var rest := numChannels.Keys;
      while rest != {}
        invariant rest <= numChannels.Keys && all + |rest| == |numChannels.Keys|
      {
        var c :| c in rest;
        rest := rest - {c};
        all := all + numChannels[c];
      }
    }

    /** Queueing the values of the directions the socket type has. */
    method Enqueue(channel: string, now: Figures, sum: Figures, t: string) returns (any: bool)
      modifies this`pipe
      ensures any && pipe == old(pipe) + Entries(channel, now, sum, t)
    {
      var input, output := HasInput(t), HasOutput(t);
      if !input && !output { return false; }
      if input { pipe := pipe + [In(channel, now.msgIn, now.bytesIn, sum.msgIn, sum.bytesIn)]; }
      if output { pipe := pipe + [Out(channel, now.msgOut, now.bytesOut, sum.msgOut, sum.bytesOut)]; }
      any := true;
    }

    /** Executing the pipeline if all channels seen have been counted. */
    method EndRound()
      requires numChannels.Keys <= socketMetrics.Keys && forall c :: c in numChannels ==> numChannels[c] == 1
      modifies this`pipe, this`executed, this`numChannels
      ensures Value() == if Complete(old(Value())) then Flushed(old(Value())) else old(Value())
    {
      var all := CountAll();
      SameSize(numChannels, socketMetrics);
      if all == |socketMetrics| {
        pipe := pipe + [Process];
        Exec();
        numChannels := map[];
      }
    }

    method Count(channel: string)
      requires channel in numChannels ==> numChannels[channel] == 1
      modifies this`numChannels
      ensures numChannels == old(numChannels)[channel := 1]
    {
      var count := if channel in numChannels then numChannels[channel] else 0;
      if count == 0 { numChannels := numChannels[channel := count + 1]; }
    }

    method Add(channel: string, now: Figures) returns (sum: Figures)
      modifies this`socketMetrics
      ensures sum == Plus(Sum(old(Value()), channel), now) && socketMetrics == old(socketMetrics)[channel := sum]
    {
      sum := Plus(if channel in socketMetrics then socketMetrics[channel] else ZERO, now);
      socketMetrics := socketMetrics[channel := sum];
    }

    method SendSocketMetrics(r: Report)
      requires Inv(Value())
      modifies this
      ensures Value() == Reported(old(Value()), r) && Inv(Value())
    {
      ReportKeeps(Value(), r);
      ghost var s := Value();
      var sum := Add(r.channel, r.now);
      since := since + [r];
      if r.socketType.Some? {
        var any := Enqueue(r.channel, r.now, sum, r.socketType.value);
        if !any { return; }
        Count(r.channel);
        EndRound();
      }
    }

    method StateChange(name: string, recreate: bool)
      requires Inv(Value())
      modifies this
      ensures Value() == Changed(old(Value()), name, recreate) && Inv(Value())
    {
      ChangeKeeps(Value(), name, recreate);
      pipe := [];
      pipe := pipe + [SetState(name)];
      Exec();
      if name == "READY" {
        socketMetrics, numChannels := map[], map[];
        since := [];
      } else if name == "RUNNING" && recreate {
        pipe := pipe + [CreateTimeseries];
        Exec();
      }
    }
  }

  lemma SameSize(a: map<string, nat>, b: map<string, Figures>)
    requires a.Keys <= b.Keys
    ensures |a| == |b| <==> a.Keys == b.Keys
  {
    assert |a.Keys| == |a| && |b.Keys| == |b| && |b.Keys - a.Keys| == |b.Keys| - |a.Keys|;
  }
}
