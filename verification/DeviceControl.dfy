/** The control thread and the device it controls: requests go to the device, its state
    notifications come back through a queue, and the device moves on its own at any moment
    (plugins/DaqServicePlugin.cxx). */
module DeviceControl {
  import opened DeviceStates

  /** The device may go from `a` through the states of `p` without a request. */
  ghost predicate Drift(a: State, p: seq<State>)
    decreases |p|
  {
    p == [] || (Spontaneous(a, p[0]) && Drift(p[0], p[1..]))
  }

  function Arrive(a: State, p: seq<State>): State {
    if p == [] then a else p[|p| - 1]
  }

  lemma {:induction false} DriftAppend(a: State, p: seq<State>, b: State)
    requires Drift(a, p) && Spontaneous(Arrive(a, p), b)
    ensures Drift(a, p + [b])
    decreases |p|
  {
    if p != [] {
      DriftAppend(p[0], p[1..], b);
      assert (p + [b])[1..] == p[1..] + [b];
    }
  }

  lemma ArriveConcat(a: State, p: seq<State>, q: seq<State>)
    ensures Arrive(a, p + q) == Arrive(Arrive(a, p), q)
  {
  }

  lemma ArriveTail(a: State, p: seq<State>)
    requires p != []
    ensures Arrive(p[0], p[1..]) == Arrive(a, p)
  {
  }

  lemma {:induction false} DriftConcat(a: State, p: seq<State>, q: seq<State>)
    requires Drift(a, p) && Drift(Arrive(a, p), q)
    ensures Drift(a, p + q) && Arrive(a, p + q) == Arrive(Arrive(a, p), q)
    decreases |p|
  {
    ArriveConcat(a, p, q);
    if p == [] {
      assert p + q == q;
    } else {
      ArriveTail(a, p);
      DriftConcat(p[0], p[1..], q);
      assert (p + q)[1..] == p[1..] + q && (p + q)[0] == p[0];
    }
  }

  lemma ErrorEnds(p: seq<State>)
    requires Drift(Error, p)
    ensures p == []
  {
  }

  /** There are few drifts: at most the automatic state or the end of a run, then the error. */
  lemma DriftShapes(a: State, p: seq<State>)
    requires Drift(a, p)
    ensures a == Exiting || a == Error ==> p == []
    ensures Settled(a) && a != Running ==> p == [] || p == [Error]
    ensures a == Running ==> p == [] || p == [Error] || p == [Ready] || p == [Ready, Error]
    ensures Passing(a) ==> p == [] || p == [Error] || p == [Auto(a)] || p == [Auto(a), Error]
  {
    if p != [] && p[1..] != [] {
      assert Spontaneous(a, p[0]) && Spontaneous(p[0], p[1..][0]) && Drift(p[1..][0], p[1..][1..]);
      assert p[1..][0] == Error;
      ErrorEnds(p[1..][1..]);
      assert p == [p[0], Error];
    } else if p != [] {
      assert p == [p[0]];
    }
  }

  /** The run count tells whether a run ended by itself on the way. */
  ghost predicate Counted(a: State, p: seq<State>, before: nat, after: nat) {
    before <= after && (before == after && a == Running ==> Ready !in p)
  }

  lemma Onwards(a: State, p: seq<State>, q: seq<State>, k: nat, m: nat, n: nat)
    requires Drift(a, p) && Counted(a, p, k, m) && Drift(Arrive(a, p), q) && Counted(Arrive(a, p), q, m, n)
    ensures Drift(a, p + q) && Arrive(a, p + q) == Arrive(Arrive(a, p), q) && Counted(a, p + q, k, n)
  {
    DriftConcat(a, p, q);
    DriftShapes(a, p);
    if Arrive(a, p) == Error { ErrorEnds(q); }
  }

  lemma {:induction false} LifeFalls(a: State, q: seq<State>)
    requires Drift(a, q)
    ensures Life(Arrive(a, q)) + |q| <= Life(a)
    decreases |q|
  {
    if q != [] { LifeFalls(q[0], q[1..]); }
  }

  lemma Taking(q0: seq<State>, p: seq<State>, dropped: seq<State>, queue: seq<State>, q: seq<State>, next: State,
      rest: seq<State>)
    requires q0 + p == dropped + queue && queue + q == [next] + rest
    ensures q0 + (p + q) == dropped + [next] + rest
  {
    assert q0 + (p + q) == (q0 + p) + q == (dropped + queue) + q == dropped + (queue + q);
  }

  /** How many more moves a device can make by itself. */
  function Life(s: State): nat {
    if s == Exiting || s == Error then 0 else if Passing(s) || s == Running then 2 else 1
  }

  class Control {
    /** The device, and the notifications not yet taken by the control thread. */
    var cur: State
    var queue: seq<State>
    /** Every notification so far; those taken by the control thread; how many runs ended by
        themselves. */
    ghost var trace: seq<State>
    ghost var taken: seq<State>
    ghost var finishes: nat

    ghost predicate Valid()
      reads this
    {
      trace == taken + queue && cur == Arrive(Idle, trace)
    }

    /** A device starts in Idle; its first notification may or may not be in the queue. */
    constructor (announced: bool)
      ensures Valid() && cur == Idle && taken == [] && finishes == 0 && queue == if announced then [Idle] else []
    {
      cur, taken, finishes := Idle, [], 0;
      trace := if announced then [Idle] else [];
      queue := if announced then [Idle] else [];
    }

    ghost predicate Drifted(a: State, q: seq<State>, t: seq<State>, n: nat, p: seq<State>)
      reads this
    {
      && Drift(a, p) && cur == Arrive(a, p) && queue == q + p && trace == t + p && Counted(a, p, n, finishes)
    }

    /** The device moves by itself, or not. */
    method Act() returns (ghost p: seq<State>)
      requires Valid()
      modifies this`cur, this`queue, this`trace, this`finishes
      ensures Valid() && Drifted(old(cur), old(queue), old(trace), old(finishes), p)
    {
      p := [];
      var again := *;
      while again
        invariant Valid() && Drifted(old(cur), old(queue), old(trace), old(finishes), p)
        decreases Life(cur), again
      {
        var next := *;
        if !Spontaneous(cur, next) { return; }
        DriftAppend(old(cur), p, next);
        if cur == Running && next == Ready { finishes := finishes + 1; }
        p := p + [next];
        Notify(next);
        again := *;
      }
    }

    method Notify(next: State)
      requires Valid()
      modifies this`cur, this`queue, this`trace
      ensures Valid() && cur == next && queue == old(queue) + [next] && trace == old(trace) + [next]
    {
      cur, queue := next, queue + [next];
      trace := trace + [next];
    }

    /** ChangeDeviceState: a transition that does not exist in the current state is refused. */
    method Request(t: Transition) returns (ghost p: seq<State>)
      requires Valid()
      modifies this`cur, this`queue, this`trace, this`finishes
      ensures Valid() && Drift(old(cur), p) && Counted(old(cur), p, old(finishes), finishes)
      ensures var s := Arrive(old(cur), p);
              var q := p + if Fire(s, t) == s then [] else [Fire(s, t)];
              cur == Fire(s, t) && queue == old(queue) + q && trace == old(trace) + q
    {
      p := Act();
      if Fire(cur, t) != cur { Notify(Fire(cur, t)); }
    }

    /** The next notification; the caller must know that one is there or is bound to come. */
    method WaitForNext() returns (s: State, ghost p: seq<State>)
      requires Valid() && (queue != [] || Passing(cur))
      modifies this
      ensures Valid() && Drift(old(cur), p) && cur == Arrive(old(cur), p) && trace == old(trace) + p
      ensures old(queue) + p == [s] + queue && taken == old(taken) + [s]
      ensures Counted(old(cur), p, old(finishes), finishes)
    {
      p := Act();
      if queue == [] {
        DriftShapes(old(cur), p);
        DriftAppend(old(cur), p, Auto(cur));
        p := p + [Auto(cur)];
        Notify(Auto(cur));
      }
      s := queue[0];
      queue := queue[1..];
      taken := taken + [s];
    }

    /** The wait loop of a command: notifications are dropped up to the target. It gives up when the
        device has come to rest without it; Change shows that the device has then failed, and that
        the last notification taken is its error. */
    method WaitFor(target: State) returns (ok: bool, ghost p: seq<State>, ghost dropped: seq<State>)
      requires Valid()
      modifies this
      ensures Valid() && Drift(old(cur), p) && cur == Arrive(old(cur), p) && trace == old(trace) + p
      ensures Counted(old(cur), p, old(finishes), finishes)
      ensures target !in dropped
      ensures ok ==> old(queue) + p == dropped + [target] + queue && taken == old(taken) + dropped + [target]
      ensures !ok ==> old(queue) + p == dropped && taken == old(taken) + dropped && queue == [] && !Passing(cur)
    {
      p, dropped, ok := [], [], false;
      while queue != [] || Passing(cur)
        invariant Valid() && Drift(old(cur), p) && cur == Arrive(old(cur), p) && trace == old(trace) + p
        invariant Counted(old(cur), p, old(finishes), finishes)
        invariant target !in dropped && old(queue) + p == dropped + queue && taken == old(taken) + dropped
        decreases Life(cur), |queue|
      {
        ghost var was, qb, m := p, queue, finishes;
        var next;
        ghost var q;
        next, q := WaitForNext();
        Onwards(old(cur), was, q, old(finishes), m, finishes);
        LifeFalls(Arrive(old(cur), was), q);
        Taking(old(queue), was, dropped, qb, q, next, queue);
        p := was + q;
        if next == target {
          ok := true;
          return;
        }
        dropped := dropped + [next];
      }
    }

    // ---- single commands ------------------------------------------------------------------

    /** Between two commands: the queue is empty, or holds the Ready of a run that ended by
        itself; until the first notification is taken it may hold the start-up Idle; or the
        device has failed. */
    ghost predicate Between()
      reads this
    {
      && Valid()
      && (cur == Error || (Settled(cur) && (Rests(queue, cur) || (queue == [Idle] && cur == Idle && taken == []))))
    }

    /** Reading the device state; the device may have moved since the last look. */
    method Look() returns (s: State)
      requires Between()
      modifies this`cur, this`queue, this`trace, this`finishes
      ensures Between() && s == cur && old(trace) <= trace && finishes >= old(finishes)
      ensures cur == Error || cur == old(cur) || (old(cur) == Running && cur == Ready && finishes > old(finishes))
    {
      ghost var p := Act();
      DriftShapes(old(cur), p);
      s := cur;
    }

    /** A request and the wait for its settled state: what was announced before the request, with
        it, and during the wait. */
    method RequestAndWait(t: Transition) returns (ok: bool, ghost q: seq<State>, ghost m: seq<State>, ghost mid: State,
        ghost r: seq<State>, ghost dropped: seq<State>)
      requires Valid() && t != Transition.End
      modifies this
      ensures Valid() && Drift(old(cur), q) && Drift(mid, r) && cur == Arrive(mid, r) && trace == old(trace) + m + r
      ensures var a := Arrive(old(cur), q); mid == Fire(a, t) && m == q + if Fire(a, t) == a then [] else [Fire(a, t)]
      ensures Counted(old(cur), q, old(finishes), finishes) && Single(old(cur), t) !in dropped
      ensures mid != Running || (r != [] && r[0] == Ready ==> finishes > old(finishes))
      ensures old(queue) + m + r == (if ok then dropped + [Single(old(cur), t)] + queue else dropped)
      ensures taken == old(taken) + dropped + if ok then [Single(old(cur), t)] else []
      ensures !ok ==> queue == [] && !Passing(cur)
    {
      var target := Single(cur, t);
      ghost var q0, s := queue, cur;
      q := Request(t);
      mid, m := cur, q + if Fire(Arrive(s, q), t) == Arrive(s, q) then [] else [Fire(Arrive(s, q), t)];
      assert queue == q0 + m;
      ok, r, dropped := WaitFor(target);
    }

    /** An existing transition is requested and its settled state awaited. The loop stops at the
        first entry of that state that came after the device was last looked at; if no run ended
        by itself meanwhile, it is an entry that came after the request. Not stopping stands for
        the device-error exception: the error has been taken from the queue. */
    method Change(t: Transition) returns (ok: bool, ghost requested: nat)
      requires Between() && cur != Error && t != Transition.End && Fire(cur, t) != cur
      modifies this
      ensures Valid() && old(trace) <= trace && finishes >= old(finishes)
      ensures |old(trace)| <= requested <= |trace|
      ensures ok ==> Between() && |old(trace)| < |taken| && taken[|taken| - 1] == Single(old(cur), t)
      ensures ok && cur != Error ==> queue in {[], [Ready]}
      ensures ok && finishes == old(finishes) ==> requested < |taken| && trace[requested] == Fire(old(cur), t)
      ensures !ok ==> cur == Error && queue == [] && taken != [] && taken[|taken| - 1] == Error
      ensures cur == Error || cur == Single(old(cur), t) ||
          (Single(old(cur), t) == Running && cur == Ready && finishes > old(finishes))
    {
      ghost var s, q0 := cur, queue;
      ghost var q, m, mid, r, dropped;
      ok, q, m, mid, r, dropped := RequestAndWait(t);
      requested := |old(trace)| + |q|;
      HasChanged(s, t, q, q0, m, mid, r, ok, dropped, queue, finishes == old(finishes));
    }

    method SingleCommand(t: Transition) returns (ok: bool)
      requires Between() && t != Transition.End
      modifies this
      ensures Valid() && old(trace) <= trace && finishes >= old(finishes)
      ensures if ok then Between() else cur == Error && queue == []
      ensures finishes == old(finishes) && cur != Error ==> ok && cur == Single(old(cur), t)
      ensures ok ==> taken == old(taken) || (|old(trace)| < |taken| && Settled(taken[|taken| - 1]))
      ensures ok && cur != Error && taken != [] ==> queue in {[], [Ready]}
    {
      var s := Look();
      if s == Error || Fire(s, t) == s { return true; }
      ghost var requested;
      ok, requested := Change(t);
    }

    // ---- commands -------------------------------------------------------------------------

    /** The rest of a script leads to the final state, unless the device fails or a run ends by
        itself. */
    ghost predicate Heading(script: seq<Transition>, i: nat, final: State, n: nat)
      requires i <= |script|
      reads this
    {
      finishes == n && cur != Error ==> After(cur, script[i..]) == final
    }

    /** One single transition of a script. */
    method Proceed(t: Transition, ghost script: seq<Transition>, ghost i: nat, ghost final: State, ghost n: nat)
        returns (ok: bool)
      requires Between() && i < |script| && t == script[i] && t != Transition.End && n <= finishes &&
          Heading(script, i, final, n)
      modifies this
      ensures Valid() && old(trace) <= trace && finishes >= old(finishes)
      ensures if ok then Between() else cur == Error && queue == []
      ensures Heading(script, i + 1, final, n)
    {
      AfterStep(cur, script, i);
      ok := SingleCommand(t);
    }

    /** The single transitions of a command, one after the other. */
    method RunScript(script: seq<Transition>) returns (ok: bool)
      requires Between() && Transition.End !in script
      modifies this
      ensures Valid() && old(trace) <= trace && finishes >= old(finishes)
      ensures if ok then Between() else cur == Error && queue == []
      ensures finishes == old(finishes) && cur != Error ==> ok && cur == After(old(cur), script)
    {
      ok := true;
      for i := 0 to |script|
        invariant Between() && ok && old(trace) <= trace && finishes >= old(finishes)
        invariant Heading(script, i, After(old(cur), script), old(finishes))
      {
        ok := Proceed(script[i], script, i, After(old(cur), script), old(finishes));
        if !ok { return; }
      }
    }

    method RunOutcome(s: State, c: Command) returns (ok: bool)
      requires Between() && s == cur
      modifies this
      ensures Valid() && old(trace) <= trace && finishes >= old(finishes)
      ensures if ok then Between() else cur == Error && queue == []
      ensures finishes == old(finishes) && cur != Error ==> ok && cur == Outcome(s, c)
    {
      NoEnd(s, c);
      ok := RunScript(Script(s, c));
    }

    /** A command runs its single transitions one after the other. Without a failure or a run
        that ends by itself the device settles in the command's outcome; in every case the queue
        is left clean for the next command, or the device has failed. */
    method MultiCommand(c: Command) returns (ok: bool)
      requires Between()
      modifies this
      ensures Valid() && old(trace) <= trace && finishes >= old(finishes)
      ensures if ok then Between() else cur == Error && queue == []
      ensures ok && cur != Error && taken != [] ==> queue in {[], [Ready]}
      ensures finishes == old(finishes) && cur != Error ==> ok && cur == Outcome(old(cur), c)
    {
      ghost var start := cur;
      var s := Look();
      ok := RunOutcome(s, c);
      assert finishes == old(finishes) && cur != Error ==> s == start;
    }

    /** The startup sequence, up to the state it is told to stop in. */
    method RunStartupSequence(startup: string) returns (ok: bool)
      requires Between()
      modifies this
      ensures Valid() && old(trace) <= trace && finishes >= old(finishes)
      ensures if ok then Between() else cur == Error && queue == []
      ensures ok && cur != Error && taken != [] ==> queue in {[], [Ready]}
      ensures finishes == old(finishes) && cur != Error ==>
          ok && cur == After(old(cur), FORWARD[..StartupSteps(startup, 0)])
    {
      ghost var n := StartupSteps(startup, 0);
      ghost var script := FORWARD[..n];
      ok := true;
      for i := 0 to 6
        invariant i <= n && Between() && ok && old(trace) <= trace && finishes >= old(finishes)
        invariant Heading(script, i, After(old(cur), script), old(finishes))
      {
        var stop := StopsHere(startup, i);
        if stop { return; }
        ok := Proceed(FORWARD[i], script, i, After(old(cur), script), old(finishes));
        if !ok { return; }
      }
    }

    /** Without a failure and a run that ended by itself, the device is where the first n commands
        put it. */
    ghost predicate OnCourse(cmds: seq<Command>, n: nat, start: State, count: nat)
      requires n <= |cmds|
      reads this
    {
      finishes == count && cur != Error ==> cur == FinalState(start, cmds[..n])
    }

    method NextCommand(c: Command, ghost cmds: seq<Command>, ghost n: nat, ghost start: State, ghost count: nat)
        returns (ok: bool)
      requires Between() && n < |cmds| && c == cmds[n] && count <= finishes && OnCourse(cmds, n, start, count)
      modifies this
      ensures Valid() && old(trace) <= trace && finishes >= old(finishes)
      ensures if ok then Between() else cur == Error && queue == []
      ensures OnCourse(cmds, n + 1, start, count)
    {
      FinalStateNext(start, cmds, n);
      ok := MultiCommand(c);
    }

    /** The commands of the control channel, until one asks to exit. */
    method SubscribeToDaqCommand(cmds: seq<Command>) returns (ok: bool, n: nat)
      requires Between()
      modifies this
      ensures n <= |cmds| && Valid() && old(trace) <= trace && finishes >= old(finishes)
      ensures if ok then Between() else cur == Error && queue == []
      ensures ok && cur != Error && taken != [] ==> queue in {[], [Ready]}
      ensures finishes == old(finishes) && cur != Error ==> ok && cur == FinalState(old(cur), cmds[..n])
      ensures ok && n < |cmds| ==> n > 0 && cmds[n - 1] in {CmdEnd, CmdExit, CmdQuit}
    {
      n, ok := 0, true;
      while n < |cmds|
        invariant n <= |cmds| && Between() && ok && old(trace) <= trace && finishes >= old(finishes)
        invariant OnCourse(cmds, n, old(cur), old(finishes))
      {
        ok := NextCommand(cmds[n], cmds, n, old(cur), old(finishes));
        n := n + 1;
        if !ok || cmds[n - 1] in {CmdEnd, CmdExit, CmdQuit} { return; }
      }
    }

    // ---- shutdown -------------------------------------------------------------------------

    /** The state at the start of the shutdown, and the queue emptied with it. */
    method ReadAndClear() returns (s: State)
      requires Valid()
      modifies this
      ensures Valid() && s == cur && (s != Error ==> queue == []) && old(trace) <= trace
    {
      ghost var p := Act();
      s := cur;
      if s != Error {
        taken := taken + queue;
        queue := [];
      }
    }

    /** From every state, whatever the device does meanwhile, the sequence ends with the device
        in Exiting or in Error; the wait is never entered with nothing queued and the device at
        rest, which is what WaitForNext asks of its caller. */
    method RunShutdownSequence()
      requires Valid()
      modifies this
      ensures Valid() && cur in {Exiting, Error} && old(trace) <= trace
    {
      var next := ReadAndClear();
      while next != Exiting && next != Error
        invariant Valid() && old(trace) <= trace
        invariant (Downhill(next, queue) && cur == Arrive(next, queue)) || (next == Error && cur == Error)
        decreases Rank(next)
      {
        ghost var q0, c0 := queue, cur;
        if Leaving(next) {
          ghost var p := Request(ExitStep(next));
          Requesting(next, q0, c0, p);
        }
        ghost var q1, c1 := queue, cur;
        var s;
        ghost var r;
        s, r := WaitForNext();
        Taken(next, q1, c1, r, s, queue);
        next := s;
      }
      if cur != Error { DownhillEnds(next, queue); }
    }
  }

  /** Whatever the device did before the shutdown's request, what is queued stays a way down; a
      settled device always has something to answer. */
  lemma Requesting(next: State, q: seq<State>, cur: State, p: seq<State>)
    requires Leaving(next) && Downhill(next, q) && cur == Arrive(next, q) && Drift(cur, p)
    ensures var a := Arrive(cur, p); var b := Fire(a, ExitStep(next)); var q' := q + (p + if a == b then [] else [b]);
            Downhill(next, q') && b == Arrive(next, q') && q' != []
  {
    var a := Arrive(cur, p);
    var b := Fire(a, ExitStep(next));
    DriftDownhill(cur, p);
    DownhillConcat(next, q, p);
    if a != b {
      OneDown(next, a);
      DownhillConcat(next, q + p, [b]);
      assert q + (p + [b]) == (q + p) + [b];
    } else {
      assert q + (p + []) == q + p;
      assert q == [] && p == [] ==> a == next;
      ExitMoves(next);
    }
  }

  lemma ExitMoves(s: State)
    requires Leaving(s)
    ensures Fire(s, ExitStep(s)) != s
  {
  }

  /** A request that still fits is a step down from where the device is. */
  lemma OneDown(next: State, a: State)
    requires Leaving(next) && Fire(a, ExitStep(next)) != a
    ensures Downhill(a, [Fire(a, ExitStep(next))])
  {
    assert Down(a, Fire(a, ExitStep(next)));
  }

  lemma Taken(next: State, q: seq<State>, cur: State, p: seq<State>, s: State, rest: seq<State>)
    requires Downhill(next, q) && cur == Arrive(next, q) && Drift(cur, p) && q + p == [s] + rest
    ensures Rank(s) < Rank(next) && Downhill(s, rest) && Arrive(cur, p) == Arrive(s, rest)
  {
    DriftDownhill(cur, p);
    DownhillConcat(next, q, p);
    assert ([s] + rest)[1..] == rest && ([s] + rest)[0] == s;
    DownFalls(next, s);
  }

  lemma NoEnd(s: State, c: Command)
    ensures Transition.End !in Script(s, c)
  {
  }

  lemma {:induction false} FinalStateNext(s: State, cmds: seq<Command>, n: nat)
    requires n < |cmds|
    ensures FinalState(s, cmds[..n + 1]) == Outcome(FinalState(s, cmds[..n]), cmds[n])
    decreases n
  {
    if n == 0 {
      assert cmds[..1] == [cmds[0]] && cmds[..1][1..] == [] && cmds[..0] == [];
    } else {
      FinalStateNext(Outcome(s, cmds[0]), cmds[1..], n - 1);
      assert cmds[..n + 1][1..] == cmds[1..][..n] && cmds[..n][1..] == cmds[1..][..n - 1];
    }
  }

  // ---- the way down -----------------------------------------------------------------------

  predicate Leaving(s: State) {
    Settled(s)
  }

  /** The transition the shutdown asks for in a settled state. */
  function ExitStep(s: State): Transition
    requires Leaving(s)
  {
    match s
    case Idle => Transition.End
    case InitializingDevice => CompleteInit
    case Ready => ResetTask
    case Running => Stop
    case _ => ResetDevice
  }

  predicate Down(a: State, b: State) {
    Spontaneous(a, b) || (Leaving(a) && b == Fire(a, ExitStep(a)))
  }

  ghost predicate Downhill(a: State, p: seq<State>)
    decreases |p|
  {
    p == [] || (Down(a, p[0]) && Downhill(p[0], p[1..]))
  }

  /** Every state on the way down is nearer to the exit. */
  function Rank(s: State): nat {
    match s
    case Exiting => 0
    case Error => 0
    case Idle => 1
    case ResettingDevice => 2
    case Initialized => 3
    case Bound => 3
    case DeviceReady => 3
    case InitializingDevice => 4
    case Binding => 4
    case Connecting => 4
    case ResettingTask => 4
    case Ready => 5
    case InitializingTask => 6
    case Running => 6
  }

  lemma DownFalls(a: State, b: State)
    requires Down(a, b)
    ensures Rank(b) < Rank(a)
  {
  }

  lemma {:induction false} DriftDownhill(a: State, p: seq<State>)
    requires Drift(a, p)
    ensures Downhill(a, p)
    decreases |p|
  {
    if p != [] { DriftDownhill(p[0], p[1..]); }
  }

  lemma {:induction false} DownhillConcat(a: State, p: seq<State>, q: seq<State>)
    requires Downhill(a, p) && Downhill(Arrive(a, p), q)
    ensures Downhill(a, p + q) && Arrive(a, p + q) == Arrive(Arrive(a, p), q)
    decreases |p|
  {
    ArriveConcat(a, p, q);
    if p == [] {
      assert p + q == q;
    } else {
      ArriveTail(a, p);
      DownhillConcat(p[0], p[1..], q);
      assert (p + q)[1..] == p[1..] + q && (p + q)[0] == p[0];
    }
  }

  lemma DownhillEnds(a: State, p: seq<State>)
    requires Downhill(a, p) && (a == Exiting || a == Error)
    ensures p == []
  {
  }

  // ---- waiting ----------------------------------------------------------------------------

  /** What a run that ended by itself may leave. */
  predicate Rests(q: seq<State>, s: State) {
    q == [] || (q == [Ready] && s == Ready)
  }

  predicate Leftover(q: seq<State>, s: State) {
    Rests(q, s) || (q == [Idle] && s == Idle)
  }

  /** What a request leaves in the queue: the new state; or an error that came first; or the end
      of the run that overtook a stop, which looks like the stop's own effect. */
  predicate Requested(s: State, t: Transition, m: seq<State>, mid: State) {
    || (m == [Fire(s, t)] && mid == Fire(s, t))
    || (m == [Error] && mid == Error)
    || (s == Running && m == [Ready, Error] && mid == Error)
  }

  lemma RequestShapes(s: State, t: Transition, q: seq<State>, m: seq<State>, mid: State)
    requires Settled(s) && t != Transition.End && Fire(s, t) != s && Drift(s, q)
    requires var a := Arrive(s, q); mid == Fire(a, t) && m == q + if Fire(a, t) == a then [] else [Fire(a, t)]
    ensures Requested(s, t, m, mid)
  {
    DriftShapes(s, q);
  }

  lemma {:induction false} CutAt(x: seq<State>, target: State, tail: seq<State>, y: seq<State>, rest: seq<State>)
    requires x + [target] + tail == y + [target] + rest && target !in x && target !in y
    ensures x == y && tail == rest
  {
    var s, t := x + [target] + tail, y + [target] + rest;
    assert s[0] == (if x == [] then target else x[0]) && t[0] == if y == [] then target else y[0];
    if x == [] || y == [] {
      assert x == y == [];
      assert s[1..] == tail && t[1..] == rest;
    } else {
      assert s[1..] == x[1..] + [target] + tail && t[1..] == y[1..] + [target] + rest;
      CutAt(x[1..], target, tail, y[1..], rest);
      assert x == [x[0]] + x[1..] && y == [y[0]] + y[1..];
    }
  }

  lemma InMiddle(x: seq<State>, target: State, tail: seq<State>)
    ensures target in x + [target] + tail
  {
    assert (x + [target] + tail)[|x|] == target;
  }

  /** The wait after a request: where it stops, and what it leaves. */
  lemma Waited(s: State, t: Transition, q0: seq<State>, m: seq<State>, mid: State, r: seq<State>,
      ok: bool, dropped: seq<State>, rest: seq<State>)
    requires Settled(s) && t != Transition.End && Fire(s, t) != s && Leftover(q0, s)
    requires Requested(s, t, m, mid) && Drift(mid, r) && Single(s, t) !in dropped
    requires q0 + m + r == (if ok then dropped + [Single(s, t)] + rest else dropped) &&
        (!ok ==> rest == [] && !Passing(Arrive(mid, r)))
    ensures !ok ==> Arrive(mid, r) == Error
    ensures ok ==> |dropped| >= |q0|
    ensures ok ==> Arrive(mid, r) == Error || (Settled(Arrive(mid, r)) && Rests(rest, Arrive(mid, r)))
    ensures Arrive(mid, r) in {Error, Single(s, t)} || (Single(s, t) == Running && r == [Ready])
  {
    var f, target := Fire(s, t), Single(s, t);
    DriftShapes(mid, r);
    assert target !in q0;
    var all := q0 + m + r;
    if m == [f] && mid == f && !Passing(f) {
      assert all == q0 + [target] + r;
      assert all[|q0|] == target && target in all;
      if ok { CutAt(q0, target, r, dropped, rest); }
    } else if m == [f] && mid == f && r != [] && r[0] == Auto(f) {
      assert all == (q0 + [f]) + [target] + r[1..];
      assert all[|q0| + 1] == target && target in all;
      if ok { CutAt(q0 + [f], target, r[1..], dropped, rest); }
    } else if s == Running && m == [Ready, Error] {
      assert all == [] + [target] + [Error];
      assert all[0] == target && target in all;
      if ok { CutAt([], target, [Error], dropped, rest); }
    } else {
      assert target !in all;
      InMiddle(dropped, target, rest);
    }
  }

  lemma HasChanged(s: State, t: Transition, q: seq<State>, q0: seq<State>, m: seq<State>, mid: State, r: seq<State>,
      ok: bool, dropped: seq<State>, rest: seq<State>, quiet: bool)
    requires Settled(s) && t != Transition.End && Fire(s, t) != s && Leftover(q0, s) && Drift(s, q) && Drift(mid, r)
    requires var a := Arrive(s, q); mid == Fire(a, t) && m == q + if Fire(a, t) == a then [] else [Fire(a, t)]
    requires Single(s, t) !in dropped && (quiet && s == Running ==> Ready !in q)
    requires q0 + m + r == (if ok then dropped + [Single(s, t)] + rest else dropped) &&
        (!ok ==> rest == [] && !Passing(Arrive(mid, r)))
    ensures !ok ==> Arrive(mid, r) == Error && dropped != [] && dropped[|dropped| - 1] == Error
    ensures ok ==> |dropped| >= |q0|
    ensures ok ==> Arrive(mid, r) == Error || (Settled(Arrive(mid, r)) && Rests(rest, Arrive(mid, r)))
    ensures ok && quiet ==> q == []
    ensures Arrive(mid, r) in {Error, Single(s, t)} || (Single(s, t) == Running && r == [Ready])
  {
    RequestShapes(s, t, q, m, mid);
    Waited(s, t, q0, m, mid, r, ok, dropped, rest);
    if !ok { ErrorTaken(q0, m, mid, r, dropped); }
    if ok && quiet { NothingBefore(s, t, q, q0, m, mid, r, dropped, rest); }
  }

  /** A wait that gives up has taken the error, the last thing a failing device announces. */
  lemma ErrorTaken(q0: seq<State>, m: seq<State>, mid: State, r: seq<State>, dropped: seq<State>)
    requires q0 + m + r == dropped && m != [] && mid == m[|m| - 1] && Arrive(mid, r) == Error
    ensures dropped != [] && dropped[|dropped| - 1] == Error
  {
  }

  /** Without a run that ended by itself nothing was announced before the request. */
  lemma NothingBefore(s: State, t: Transition, q: seq<State>, q0: seq<State>, m: seq<State>, mid: State, r: seq<State>,
      dropped: seq<State>, rest: seq<State>)
    requires Settled(s) && t != Transition.End && Fire(s, t) != s && Leftover(q0, s) && Drift(s, q) &&
        (s == Running ==> Ready !in q)
    requires var a := Arrive(s, q); mid == Fire(a, t) && m == q + if Fire(a, t) == a then [] else [Fire(a, t)]
    requires Drift(mid, r) && q0 + m + r == dropped + [Single(s, t)] + rest
    ensures q == []
  {
    DriftShapes(s, q);
    if q != [] {
      assert q == [Error];
      ErrorEnds(r);
      assert Single(s, t) !in q0 + m + r;
      InMiddle(dropped, Single(s, t), rest);
    }
  }
}
