/** Allocation of instance numbers: a hash from number to process id, cleaned and extended
    under a lock, with liveness told by expiring presence keys
    (plugins/DaqServicePlugin.cxx, SetId, ResetTtl, Unregister). */
module InstanceIndex {

  type Uuid = string

  datatype Lease = Lease(uuid: Uuid, deadline: nat)

  /** A number's presence key has not expired. */
  predicate Visible(presence: map<nat, Lease>, now: nat, i: nat) {
    i in presence && now < presence[i].deadline
  }

  function VisibleUuids(presence: map<nat, Lease>, now: nat): set<Uuid> {
    set i | i in presence && now < presence[i].deadline :: presence[i].uuid
  }

  /** The hash without the entries of processes whose presence has expired. */
  function Cleaned(hash: map<nat, Uuid>, alive: set<Uuid>): map<nat, Uuid> {
    map i | i in hash && hash[i] in alive :: hash[i]
  }

  function From(keys: set<nat>, i: nat): set<nat> {
    set k | k in keys && k >= i
  }

  lemma FromStep(keys: set<nat>, i: nat)
    requires i in keys
    ensures |From(keys, i)| == |From(keys, i + 1)| + 1
  {
    assert From(keys, i) == From(keys, i + 1) + {i};
  }

  /** The smallest number from i on that is not in use; it is reached within |keys| steps. */
  function FirstFree(keys: set<nat>, i: nat): (r: nat)
    ensures r >= i && r !in keys && forall k :: i <= k < r ==> k in keys
    ensures r <= i + |From(keys, i)|
    decreases |From(keys, i)|
  {
    if i in keys then FromStep(keys, i); FirstFree(keys, i + 1) else i
  }

  /** What a process gets as its id: a number, or, when its own uuid is already registered, its
      uuid's text, because that branch never sets the id. */
  datatype Id = Number(index: nat) | ByUuid

  class Redis {
    var hash: map<nat, Uuid>
    var presence: map<nat, Lease>

    constructor ()
      ensures hash == map[] && presence == map[]
    {
      hash, presence := map[], map[];
    }

    /** Removing the expired entries, and looking for an own one among the others. */
    method Clean(uuid: Uuid, alive: set<Uuid>) returns (mine: bool)
      modifies this`hash
      ensures hash == Cleaned(old(hash), alive) && (mine <==> uuid in hash.Values)
    {
      var rest := hash.Keys;
      var expired := {};
      mine := false;
      while rest != {}
        invariant rest <= hash.Keys
        invariant forall i :: i in expired <==> i in hash && i !in rest && hash[i] !in alive
        invariant mine <==> exists i :: i in hash && i !in rest && hash[i] in alive && hash[i] == uuid
      {
        var i :| i in rest;
        rest := rest - {i};
        if hash[i] !in alive {
          expired := expired + {i};
        } else if hash[i] == uuid {
          mine := true;
        }
      }
      ghost var before := hash;
      hash := hash - expired;
      assert forall i :: i in hash <==> i in before && before[i] in alive;
      assert mine <==> exists i :: i in hash && hash[i] == uuid;
    }

    /** The allocation under the lock. */
    method SetId(uuid: Uuid, now: nat, maxTtl: nat) returns (id: Id, ghost tries: nat)
      modifies this
      ensures var clean := Cleaned(old(hash), VisibleUuids(old(presence), now));
              if uuid in clean.Values then id == ByUuid && hash == clean && presence == old(presence)
              else var i := FirstFree(clean.Keys, 0);
                   id == Number(i) && hash == clean[i := uuid] &&
                     presence == old(presence)[i := Lease(uuid, now + maxTtl)]
      ensures id.Number? ==> tries == id.index + 1
      ensures id.Number? ==> tries <= |Cleaned(old(hash), VisibleUuids(old(presence), now))| + 1
    {
      var mine := Clean(uuid, VisibleUuids(presence, now));
      if mine { return ByUuid, 0; }
      var index;
      index, tries := Claim(uuid);
      presence := presence[index := Lease(uuid, now + maxTtl)];
      id := Number(index);
    }

    /** Trying the numbers from zero on until a field can be set. */
    method Claim(uuid: Uuid) returns (index: nat, ghost tries: nat)
      modifies this`hash
      ensures index == FirstFree(old(hash).Keys, 0) && hash == old(hash)[index := uuid]
      ensures tries == index + 1 && tries <= |old(hash)| + 1
    {
      ghost var keys := hash.Keys;
      assert From(keys, 0) == keys && |keys| == |hash|;
      index, tries := 0, 1;
      while index in hash
        invariant hash == old(hash)
        invariant forall k :: 0 <= k < index ==> k in keys
        invariant tries == index + 1 && index + |From(keys, index)| <= |keys|
        decreases |From(keys, index)|
      {
        FromStep(keys, index);
        index, tries := index + 1, tries + 1;
      }
      hash := hash[index := uuid];
    }
  }

  // ---- all processes of a service ---------------------------------------------------------

  /** A process that has joined: its number and when it last renewed its presence. */
  datatype Process = Process(index: nat, beat: nat)

  datatype State = State(
    now: nat,
    hash: map<nat, Uuid>,
    presence: map<nat, Lease>,
    live: map<Uuid, Process>,
    /** Processes that have deleted their presence key but not yet their hash field. */
    leaving: map<Uuid, nat>,
    seen: set<Uuid>)

  /** The presence key lives for maxTtl; every process renews it at least every `gap`. */
  datatype Timing = Timing(maxTtl: nat, gap: nat)

  datatype Event = Tick | Join(uuid: Uuid) | Beat(uuid: Uuid) | Crash(uuid: Uuid) | LeaveBegin(uuid: Uuid)
    | LeaveEnd(uuid: Uuid)

  function Seen(s: State, i: nat): bool {
    Visible(s.presence, s.now, i)
  }

  predicate Possible(t: Timing, s: State, e: Event) {
    match e
    case Tick => forall u :: u in s.live ==> s.now + 1 - s.live[u].beat <= t.gap
    case Join(u) => u !in s.seen
    case LeaveEnd(u) => u in s.leaving
    case Beat(u) => u in s.live
    case Crash(u) => u in s.live
    case LeaveBegin(u) => u in s.live
  }

  function Chosen(s: State): nat {
    FirstFree(Cleaned(s.hash, VisibleUuids(s.presence, s.now)).Keys, 0)
  }

  function Apply(t: Timing, s: State, e: Event): State
    requires Possible(t, s, e)
  {
    match e
    case Tick => s.(now := s.now + 1)
    case Join(u) =>
      var i := Chosen(s);
      s.(hash := Cleaned(s.hash, VisibleUuids(s.presence, s.now))[i := u],
        presence := s.presence[i := Lease(u, s.now + t.maxTtl)],
         live := s.live[u := Process(i, s.now)], seen := s.seen + {u})
    case Beat(u) =>
      var i := s.live[u].index;
      s.(presence := s.presence[i := Lease(u, s.now + t.maxTtl)], live := s.live[u := Process(i, s.now)])
    case Crash(u) => s.(live := s.live - {u})
    case LeaveBegin(u) =>
      s.(presence := s.presence - {s.live[u].index}, live := s.live - {u}, leaving := s.leaving[u := s.live[u].index])
    case LeaveEnd(u) => s.(hash := s.hash - {s.leaving[u]}, leaving := s.leaving - {u})
  }

  function Init(): State {
    State(0, map[], map[], map[], map[], {})
  }

  function CleanedOf(s: State): map<nat, Uuid> {
    Cleaned(s.hash, VisibleUuids(s.presence, s.now))
  }

  ghost predicate LiveOk(t: Timing, s: State, u: Uuid, p: Process) {
    && p.index in s.hash && s.hash[p.index] == u
    && p.beat <= s.now && s.now - p.beat <= t.gap
    && p.index in s.presence && s.presence[p.index] == Lease(u, p.beat + t.maxTtl)
  }

  /** Each process has one number, in the hash and in its presence key. */
  ghost predicate OneNumber(s: State) {
    && (forall i :: i in s.hash ==> s.hash[i] in s.seen)
    && (forall i :: i in s.presence ==> s.presence[i].uuid in s.seen)
    && (forall i, j :: i in s.hash && j in s.hash && s.hash[i] == s.hash[j] ==> i == j)
    && (forall i, j :: i in s.presence && j in s.presence && s.presence[i].uuid == s.presence[j].uuid ==> i == j)
    && (forall i, j :: i in s.presence && j in s.hash && s.presence[i].uuid == s.hash[j] ==> i == j)
  }

  ghost predicate InvLeaving(s: State) {
    forall u :: u in s.leaving ==> u in s.seen && u !in s.live
  }

  ghost predicate InvLive(t: Timing, s: State) {
    forall u :: u in s.live ==> u in s.seen && LiveOk(t, s, u, s.live[u])
  }

  ghost predicate Inv(t: Timing, s: State) {
    t.gap < t.maxTtl && InvLive(t, s) && OneNumber(s) && InvLeaving(s)
  }

  /** A visible presence key belongs to the process that holds the number in the hash. */
  ghost predicate InvVisible(s: State) {
    forall i :: Seen(s, i) ==> i in s.hash && s.hash[i] == s.presence[i].uuid
  }

  /** No two live processes share a number. */
  ghost predicate Unique(s: State) {
    forall u, v :: u in s.live && v in s.live && s.live[u].index == s.live[v].index ==> u == v
  }

  ghost predicate Held(s: State, i: nat) {
    exists u :: u in s.live && s.live[u].index == i
  }

  /** Deleting the hash field of a departing process is harmful exactly when a live process holds
      its number by now. */
  ghost predicate Safe(s: State, e: Event) {
    e.LeaveEnd? && e.uuid in s.leaving ==> !Held(s, s.leaving[e.uuid])
  }

  lemma LiveIsCleaned(t: Timing, s: State, u: Uuid)
    requires t.gap < t.maxTtl && InvLive(t, s) && u in s.live
    ensures s.live[u].index in CleanedOf(s) && CleanedOf(s)[s.live[u].index] == u
  {
    assert LiveOk(t, s, u, s.live[u]);
    assert s.presence[s.live[u].index].uuid in VisibleUuids(s.presence, s.now);
  }

  lemma CleanedIsVisible(s: State, i: nat)
    requires OneNumber(s) && i in CleanedOf(s)
    ensures Seen(s, i) && s.presence[i].uuid == s.hash[i]
  {
    var k :| k in s.presence && s.now < s.presence[k].deadline && s.presence[k].uuid == s.hash[i];
  }

  /** In every state that can be reached, the number given is held by no live process, and each
      smaller one belongs in the hash to a process whose presence is still valid. */
  lemma GivenIsFree(t: Timing, s: State)
    requires Inv(t, s)
    ensures !Held(s, Chosen(s))
    ensures forall i :: 0 <= i < Chosen(s) ==> i in s.hash && Seen(s, i) && s.presence[i].uuid == s.hash[i]
  {
    forall u | u in s.live ensures s.live[u].index != Chosen(s) { LiveIsCleaned(t, s, u); }
    forall i | 0 <= i < Chosen(s) ensures i in s.hash && Seen(s, i) && s.presence[i].uuid == s.hash[i] {
      CleanedIsVisible(s, i);
    }
  }

  lemma VisibleIsCleaned(s: State, i: nat)
    requires OneNumber(s) && InvVisible(s)
    ensures i in CleanedOf(s) <==> Seen(s, i)
  {
    if i in CleanedOf(s) { CleanedIsVisible(s, i); }
  }

  /** As long as every visible number is in the hash, the number given is the smallest one whose
      presence has expired or was never set. */
  lemma SmallestFree(s: State)
    requires OneNumber(s) && InvVisible(s)
    ensures !Seen(s, Chosen(s)) && forall i :: 0 <= i < Chosen(s) ==> Seen(s, i)
  {
    VisibleIsCleaned(s, Chosen(s));
    forall i | 0 <= i < Chosen(s) ensures Seen(s, i) { VisibleIsCleaned(s, i); }
  }

  // ---- what the events keep ---------------------------------------------------------------

  lemma JoinOneNumber(t: Timing, s: State, u: Uuid)
    requires OneNumber(s) && u !in s.seen
    ensures OneNumber(Apply(t, s, Join(u)))
  {
  }

  lemma JoinLive(t: Timing, s: State, u: Uuid, v: Uuid)
    requires Inv(t, s) && u !in s.seen && v in Apply(t, s, Join(u)).live
    ensures var r := Apply(t, s, Join(u)); v in r.seen && LiveOk(t, r, v, r.live[v])
  {
    if v != u {
      assert LiveOk(t, s, v, s.live[v]);
      LiveIsCleaned(t, s, v);
    }
  }

  lemma InvJoin(t: Timing, s: State, u: Uuid)
    requires Inv(t, s) && u !in s.seen
    ensures Inv(t, Apply(t, s, Join(u)))
  {
    var r := Apply(t, s, Join(u));
    JoinOneNumber(t, s, u);
    forall v | v in r.live ensures v in r.seen && LiveOk(t, r, v, r.live[v]) { JoinLive(t, s, u, v); }
  }

  lemma InvBeat(t: Timing, s: State, u: Uuid)
    requires Inv(t, s) && u in s.live
    ensures Inv(t, Apply(t, s, Beat(u)))
  {
    var r := Apply(t, s, Beat(u));
    assert LiveOk(t, s, u, s.live[u]);
    BeatOneNumber(s, r, u, s.live[u].index, s.now + t.maxTtl);
    forall v | v in r.live ensures v in r.seen && LiveOk(t, r, v, r.live[v]) { assert LiveOk(t, s, v, s.live[v]); }
  }

  lemma BeatOneNumber(s: State, r: State, u: Uuid, i: nat, deadline: nat)
    requires OneNumber(s) && i in s.presence && s.presence[i].uuid == u
    requires r.hash == s.hash && r.seen == s.seen && r.presence == s.presence[i := Lease(u, deadline)]
    ensures OneNumber(r)
  {
    assert forall k :: k in r.presence ==> k in s.presence && r.presence[k].uuid == s.presence[k].uuid;
  }

  lemma InvLeaveBegin(t: Timing, s: State, u: Uuid)
    requires Inv(t, s) && u in s.live
    ensures Inv(t, Apply(t, s, LeaveBegin(u))) && Safe(Apply(t, s, LeaveBegin(u)), LeaveEnd(u))
  {
    var r := Apply(t, s, LeaveBegin(u));
    assert LiveOk(t, s, u, s.live[u]);
    forall v | v in r.live ensures v in r.seen && LiveOk(t, r, v, r.live[v]) && r.live[v].index != s.live[u].index {
      assert LiveOk(t, s, v, s.live[v]);
    }
  }

  lemma InvLeaveEnd(t: Timing, s: State, u: Uuid)
    requires Inv(t, s) && u in s.leaving && Safe(s, LeaveEnd(u))
    ensures Inv(t, Apply(t, s, LeaveEnd(u)))
  {
    var r := Apply(t, s, LeaveEnd(u));
    forall v | v in r.live ensures v in r.seen && LiveOk(t, r, v, r.live[v]) { assert LiveOk(t, s, v, s.live[v]); }
  }

  lemma InvApply(t: Timing, s: State, e: Event)
    requires Inv(t, s) && Possible(t, s, e) && Safe(s, e)
    ensures Inv(t, Apply(t, s, e))
  {
    match e
    case Join(u) => InvJoin(t, s, u);
    case Beat(u) => InvBeat(t, s, u);
    case LeaveBegin(u) => InvLeaveBegin(t, s, u);
    case LeaveEnd(u) => InvLeaveEnd(t, s, u);
    case Crash(u) =>
      forall v | v in Apply(t, s, e).live
        ensures LiveOk(t, Apply(t, s, e), v, s.live[v])
      {
        assert LiveOk(t, s, v, s.live[v]);
      }
    case Tick =>
      forall v | v in s.live ensures LiveOk(t, Apply(t, s, e), v, s.live[v]) { assert LiveOk(t, s, v, s.live[v]); }
  }

  /** The hash keeps every visible number through all events but the second half of a departure
      whose number is visibly taken again. */
  lemma VisibleKeptIff(t: Timing, s: State, e: Event)
    requires Inv(t, s) && InvVisible(s) && Possible(t, s, e)
    ensures InvVisible(Apply(t, s, e)) <==> !(e.LeaveEnd? && Seen(s, s.leaving[e.uuid]))
  {
    var r := Apply(t, s, e);
    match e
    case Join(u) => JoinVisible(t, s, u);
    case Beat(u) =>
      assert LiveOk(t, s, u, s.live[u]);
      forall i | Seen(r, i) ensures i in r.hash && r.hash[i] == r.presence[i].uuid {
        assert i == s.live[u].index || Seen(s, i);
      }
    case LeaveBegin(u) => FewerVisible(s, r);
    case LeaveEnd(u) => assert forall i :: Seen(r, i) <==> Seen(s, i);
    case Crash(u) => FewerVisible(s, r);
    case Tick => FewerVisible(s, r);
  }

  lemma FewerVisible(s: State, r: State)
    requires InvVisible(s) && r.hash == s.hash && r.now >= s.now
    requires forall i :: i in r.presence ==> i in s.presence && r.presence[i] == s.presence[i]
    ensures InvVisible(r)
  {
    forall i | Seen(r, i) ensures i in r.hash && r.hash[i] == r.presence[i].uuid { assert Seen(s, i); }
  }

  lemma JoinVisible(t: Timing, s: State, u: Uuid)
    requires OneNumber(s) && InvVisible(s) && u !in s.seen
    ensures InvVisible(Apply(t, s, Join(u)))
  {
    var r := Apply(t, s, Join(u));
    forall i | Seen(r, i) ensures i in r.hash && r.hash[i] == r.presence[i].uuid {
      if i != Chosen(s) {
        assert Seen(s, i);
        VisibleIsCleaned(s, i);
      }
    }
  }

  // ---- runs -------------------------------------------------------------------------------

  ghost predicate Runs(t: Timing, s: State, events: seq<Event>)
    decreases |events|
  {
    events == [] || (Possible(t, s, events[0]) && Runs(t, Apply(t, s, events[0]), events[1..]))
  }

  ghost predicate SafeRun(t: Timing, s: State, events: seq<Event>)
    requires Runs(t, s, events)
    decreases |events|
  {
    events == [] || (Safe(s, events[0]) && SafeRun(t, Apply(t, s, events[0]), events[1..]))
  }

  function Final(t: Timing, s: State, events: seq<Event>): State
    requires Runs(t, s, events)
    decreases |events|
  {
    if events == [] then s else Final(t, Apply(t, s, events[0]), events[1..])
  }

  lemma UniqueIf(t: Timing, s: State)
    requires Inv(t, s)
    ensures Unique(s)
  {
    forall u, v | u in s.live && v in s.live && s.live[u].index == s.live[v].index ensures u == v {
      assert LiveOk(t, s, u, s.live[u]) && LiveOk(t, s, v, s.live[v]);
    }
  }

  /** In every run of joins, renewals, crashes and departures in which no departure finishes on
      a number already taken again, no two live processes ever share a number. */
  lemma {:induction false} NeverShared(t: Timing, s: State, events: seq<Event>)
    requires Inv(t, s) && Runs(t, s, events) && SafeRun(t, s, events)
    ensures Inv(t, Final(t, s, events)) && Unique(Final(t, s, events))
    decreases |events|
  {
    if events == [] {
      UniqueIf(t, s);
    } else {
      InvApply(t, s, events[0]);
      NeverShared(t, Apply(t, s, events[0]), events[1..]);
    }
  }

  lemma InitInv(t: Timing)
    requires t.gap < t.maxTtl
    ensures Inv(t, Init())
  {
  }

  /** A departure that nothing interrupts is always safe. */
  predicate Uninterrupted(events: seq<Event>) {
    forall k :: 0 <= k < |events| && events[k].LeaveEnd? ==> k > 0 && events[k - 1] == LeaveBegin(events[k].uuid)
  }

  lemma {:induction false} UninterruptedIsSafe(t: Timing, s: State, events: seq<Event>)
    requires Inv(t, s) && Runs(t, s, events)
    requires forall k :: 0 < k < |events| && events[k].LeaveEnd? ==> events[k - 1] == LeaveBegin(events[k].uuid)
    requires events != [] ==> Safe(s, events[0])
    ensures SafeRun(t, s, events)
    decreases |events|
  {
    if events != [] {
      var r, rest := Apply(t, s, events[0]), events[1..];
      InvApply(t, s, events[0]);
      if events[0].LeaveBegin? { InvLeaveBegin(t, s, events[0].uuid); }
      forall k | 0 < k < |rest| && rest[k].LeaveEnd? ensures rest[k - 1] == LeaveBegin(rest[k].uuid) {
        assert events[k + 1].LeaveEnd?;
      }
      if rest != [] { assert rest[0] == events[1]; }
      UninterruptedIsSafe(t, r, rest);
    }
  }

  lemma {:induction false} UninterruptedStaysVisible(t: Timing, s: State, events: seq<Event>)
    requires Inv(t, s) && InvVisible(s) && Runs(t, s, events) && SafeRun(t, s, events)
    requires forall k :: 0 < k < |events| && events[k].LeaveEnd? ==> events[k - 1] == LeaveBegin(events[k].uuid)
    requires events != [] && events[0].LeaveEnd? ==> !Seen(s, s.leaving[events[0].uuid])
    ensures InvVisible(Final(t, s, events))
    decreases |events|
  {
    if events != [] {
      var e, r, rest := events[0], Apply(t, s, events[0]), events[1..];
      InvApply(t, s, e);
      VisibleKeptIff(t, s, e);
      forall k | 0 < k < |rest| && rest[k].LeaveEnd? ensures rest[k - 1] == LeaveBegin(rest[k].uuid) {
        assert events[k + 1].LeaveEnd?;
      }
      if rest != [] { assert rest[0] == events[1]; }
      UninterruptedStaysVisible(t, r, rest);
    }
  }

  /** With departures in one step, as with crashes only, numbers are unique in every run, and the
      next number is always the smallest one without a valid presence. */
  lemma UniqueWithOneStepDepartures(t: Timing, events: seq<Event>)
    requires t.gap < t.maxTtl && Runs(t, Init(), events) && Uninterrupted(events)
    ensures Unique(Final(t, Init(), events))
    ensures var s := Final(t, Init(), events); !Seen(s, Chosen(s)) && forall i :: 0 <= i < Chosen(s) ==> Seen(s, i)
  {
    InitInv(t);
    UninterruptedIsSafe(t, Init(), events);
    NeverShared(t, Init(), events);
    UninterruptedStaysVisible(t, Init(), events);
    SmallestFree(Final(t, Init(), events));
  }

  // ---- joins alone fill the numbers from zero ---------------------------------------------

  ghost predicate Filled(s: State, n: nat) {
    && (forall i: nat :: i in s.hash <==> i < n) && |s.live| == n
    && (forall i :: i in s.hash ==> s.hash[i] in s.live && s.live[s.hash[i]].index == i)
    && forall u :: u in s.live ==> s.live[u].index < n
  }

  predicate Arriving(e: Event) {
    e.Tick? || e.Join? || e.Beat?
  }

  lemma FilledCleaned(t: Timing, s: State, n: nat)
    requires Inv(t, s) && Filled(s, n)
    ensures CleanedOf(s) == s.hash && Chosen(s) == n
  {
    forall i | i in s.hash ensures i in CleanedOf(s) { LiveIsCleaned(t, s, s.hash[i]); }
    assert CleanedOf(s) == s.hash;
    var c := Chosen(s);
    assert c !in s.hash && n !in s.hash;
  }

  lemma FilledCount(s: State, u: Uuid, p: Process, n: nat)
    requires |s.live| == n && u !in s.live
    ensures |s.live[u := p]| == n + 1
  {
    assert s.live[u := p].Keys == s.live.Keys + {u};
    assert |s.live.Keys| == |s.live| && |s.live[u := p].Keys| == |s.live[u := p]|;
  }

  lemma FilledJoined(s: State, u: Uuid, n: nat, r: State)
    requires Filled(s, n) && u !in s.live && r.hash == s.hash[n := u] && r.live == s.live[u := Process(n, s.now)]
    ensures Filled(r, n + 1)
  {
    FilledCount(s, u, Process(n, s.now), n);
  }

  lemma FilledStep(t: Timing, s: State, e: Event, n: nat)
    requires Inv(t, s) && Filled(s, n) && Arriving(e) && Possible(t, s, e)
    ensures e.Join? ==> Chosen(s) == n
    ensures Filled(Apply(t, s, e), if e.Join? then n + 1 else n)
  {
    match e
    case Join(u) =>
      FilledCleaned(t, s, n);
      FilledJoined(s, u, n, Apply(t, s, e));
    case Beat(u) => FilledBeat(s, u, Apply(t, s, e), n);
    case Tick =>
  }

  lemma FilledBeat(s: State, u: Uuid, r: State, n: nat)
    requires Filled(s, n) && u in s.live && r.hash == s.hash && r.live == s.live[u := Process(s.live[u].index, s.now)]
    ensures Filled(r, n)
  {
    assert r.live.Keys == s.live.Keys;
    assert |r.live.Keys| == |r.live| && |s.live.Keys| == |s.live|;
  }

  lemma FilledHeld(s: State, n: nat)
    requires Filled(s, n)
    ensures forall i: nat :: Held(s, i) <==> i < n
  {
    forall i: nat ensures Held(s, i) <==> i < n {
      if i < n { assert i in s.hash; }
    }
  }

  /** N joins, with any renewals and waiting in between, give exactly the numbers below N. */
  lemma {:induction false} JoinsFill(t: Timing, s: State, events: seq<Event>, n: nat)
    requires Inv(t, s) && Filled(s, n) && Runs(t, s, events) && forall e :: e in events ==> Arriving(e)
    ensures forall i: nat :: Held(Final(t, s, events), i) <==> i < |Final(t, s, events).live|
    decreases |events|
  {
    if events == [] {
      FilledHeld(s, n);
    } else {
      var e := events[0];
      assert e in events && forall f :: f in events[1..] ==> f in events;
      InvApply(t, s, e);
      FilledStep(t, s, e, n);
      JoinsFill(t, Apply(t, s, e), events[1..], if e.Join? then n + 1 else n);
    }
  }

  // ---- what a late second half leads to ---------------------------------------------------

  function Upto(n: nat): (r: set<nat>)
    ensures forall i: nat :: i in r <==> i < n
  {
    if n == 0 then {} else Upto(n - 1) + {n - 1}
  }

  /** The numbers below n that a join would give. */
  function Gaps(s: State, n: nat): set<nat> {
    Upto(n) - CleanedOf(s).Keys
  }

  lemma {:induction false} LongestUuid(seen: set<Uuid>) returns (n: nat)
    ensures forall u :: u in seen ==> |u| <= n
  {
    if seen == {} {
      n := 0;
    } else {
      var u :| u in seen;
      n := LongestUuid(seen - {u});
      n := if n < |u| then |u| else n;
    }
  }

  lemma FreshUuid(seen: set<Uuid>) returns (u: Uuid)
    ensures u !in seen
  {
    var n := LongestUuid(seen);
    u := seq(n + 1, i => '0');
  }

  /** A join adds one entry to those that count; it never takes one away. */
  lemma JoinCleaned(t: Timing, s: State, u: Uuid)
    requires OneNumber(s) && u !in s.seen && t.maxTtl > 0
    ensures CleanedOf(Apply(t, s, Join(u))).Keys == CleanedOf(s).Keys + {Chosen(s)}
  {
    var r, c := Apply(t, s, Join(u)), Chosen(s);
    forall i | i in CleanedOf(s) ensures i in CleanedOf(r) { StaysClean(t, s, u, i); }
    assert r.presence[c].uuid in VisibleUuids(r.presence, r.now);
  }

  lemma StaysClean(t: Timing, s: State, u: Uuid, i: nat)
    requires OneNumber(s) && u !in s.seen && i in CleanedOf(s)
    ensures i in CleanedOf(Apply(t, s, Join(u)))
  {
    var r := Apply(t, s, Join(u));
    CleanedIsVisible(s, i);
    assert i in r.presence && r.presence[i] == s.presence[i];
    assert r.presence[i].uuid in VisibleUuids(r.presence, r.now);
  }

  /** Some safe continuation ends with two live processes of one number. */
  ghost predicate Shares(t: Timing, s: State) {
    exists rest :: SharesBy(t, s, rest)
  }

  ghost predicate SharesBy(t: Timing, s: State, rest: seq<Event>) {
    Runs(t, s, rest) && SafeRun(t, s, rest) && !Unique(Final(t, s, rest))
  }

  lemma SharesLater(t: Timing, s: State, e: Event)
    requires Possible(t, s, e) && Safe(s, e) && Shares(t, Apply(t, s, e))
    ensures Shares(t, s)
  {
    var rest :| SharesBy(t, Apply(t, s, e), rest);
    var all := [e] + rest;
    assert all[0] == e && all[1..] == rest;
    assert SharesBy(t, s, all);
  }

  /** A live process whose number is missing in the hash. */
  ghost predicate Missing(t: Timing, s: State, v: Uuid) {
    OneNumber(s) && t.maxTtl > 0 && v in s.live && v in s.seen && s.live[v].index !in s.hash
  }

  lemma FirstGap(s: State, i: nat)
    requires i !in s.hash && Chosen(s) != i
    ensures Chosen(s) in Gaps(s, i)
  {
    assert i !in CleanedOf(s).Keys;
  }

  lemma GapsFall(s: State, r: State, i: nat, c: nat)
    requires c in Gaps(s, i) && CleanedOf(r).Keys == CleanedOf(s).Keys + {c}
    ensures |Gaps(r, i)| < |Gaps(s, i)|
  {
    assert Gaps(r, i) == Gaps(s, i) - {c};
  }

  lemma MissingStays(t: Timing, s: State, v: Uuid, u: Uuid)
    requires Missing(t, s, v) && u !in s.seen && Chosen(s) != s.live[v].index
    ensures Missing(t, Apply(t, s, Join(u)), v) && Apply(t, s, Join(u)).live[v] == s.live[v]
  {
    JoinOneNumber(t, s, u);
  }

  lemma MissingStep(t: Timing, s: State, v: Uuid, u: Uuid)
    requires Missing(t, s, v) && u !in s.seen && Chosen(s) != s.live[v].index
    ensures var r, i := Apply(t, s, Join(u)), s.live[v].index;
            Missing(t, r, v) && r.live[v].index == i && |Gaps(r, i)| < |Gaps(s, i)|
  {
    MissingStays(t, s, v, u);
    JoinCleaned(t, s, u);
    FirstGap(s, s.live[v].index);
    GapsFall(s, Apply(t, s, Join(u)), s.live[v].index, Chosen(s));
  }

  lemma SharesNow(t: Timing, s: State, u: Uuid, v: Uuid)
    requires u in s.live && v in s.live && u != v && s.live[u].index == s.live[v].index
    ensures Shares(t, s)
  {
    assert SharesBy(t, s, []);
  }

  /** Once a live process's number is missing in the hash, joins alone lead to a shared number:
      they fill the gaps below it, and then it is given again. */
  lemma {:induction false} MissingIsShared(t: Timing, s: State, v: Uuid)
    requires Missing(t, s, v)
    ensures Shares(t, s)
    decreases |Gaps(s, s.live[v].index)|
  {
    var u := FreshUuid(s.seen);
    if Chosen(s) == s.live[v].index {
      SharesNow(t, Apply(t, s, Join(u)), u, v);
    } else {
      MissingStep(t, s, v, u);
      MissingIsShared(t, Apply(t, s, Join(u)), v);
    }
    SharesLater(t, s, Join(u));
  }

  /** The second half of a departure can lead to a shared number, all other departures being
      safe, if and only if a live process holds the number at that moment. */
  lemma LeaveEndSharesIff(t: Timing, s: State, u: Uuid)
    requires Inv(t, s) && u in s.leaving
    ensures Shares(t, Apply(t, s, LeaveEnd(u))) <==> Held(s, s.leaving[u])
  {
    var r := Apply(t, s, LeaveEnd(u));
    if Held(s, s.leaving[u]) {
      var v :| v in s.live && s.live[v].index == s.leaving[u];
      assert LiveOk(t, s, v, s.live[v]);
      MissingIsShared(t, r, v);
    } else {
      InvLeaveEnd(t, s, u);
      forall rest | Runs(t, r, rest) && SafeRun(t, r, rest)
        ensures Unique(Final(t, r, rest))
      {
        NeverShared(t, r, rest);
      }
    }
  }

  // ---- an interrupted departure -----------------------------------------------------------

  /** Joining where no presence is visible takes number 0 and drops every old entry. */
  lemma JoinNobody(t: Timing, s: State, u: Uuid)
    requires s.presence == map[] || s.hash == map[]
    requires u !in s.seen
    ensures Apply(t, s, Join(u)) == State(s.now, map[0 := u], s.presence[0 := Lease(u, s.now + t.maxTtl)],
                                          s.live[u := Process(0, s.now)], s.leaving, s.seen + {u})
  {
    assert s.presence == map[] ==> VisibleUuids(s.presence, s.now) == {};
    var c := Cleaned(s.hash, VisibleUuids(s.presence, s.now));
    assert c.Keys == {};
    assert c == map[];
  }

  /** Between the two deletions of a departure another process may take the number over; then
      the second deletion removes its entry, and a third process gets the same number. */
  lemma InterruptedDepartureShares(t: Timing, a: Uuid, b: Uuid, c: Uuid)
    requires 0 < t.gap < t.maxTtl && a != b && b != c && a != c
    ensures var events := [Join(a)] + ([LeaveBegin(a)] + ([Join(b)] + ([LeaveEnd(a)] + ([Join(c)] + []))));
            Runs(t, Init(), events) && !Unique(Final(t, Init(), events))
  {
    var l, p := Lease(b, t.maxTtl), Process(0, 0);
    var s1 := State(0, map[0 := a], map[0 := Lease(a, t.maxTtl)], map[a := p], map[], {a});
    var s2 := State(0, map[0 := a], map[], map[], map[a := 0], {a});
    var s3 := State(0, map[0 := b], map[0 := l], map[b := p], map[a := 0], {a, b});
    var s4 := State(0, map[], map[0 := l], map[b := p], map[], {a, b});
    var s5 := State(0, map[0 := c], map[0 := Lease(c, t.maxTtl)], map[b := p, c := p], map[], {a, b, c});
    FirstHalf(t, a, b, s1, s2, s3);
    JoinNobody(t, s4, c);
    assert Apply(t, s4, Join(c)) == s5;
    assert s3.hash - {0} == s4.hash && s3.leaving - {a} == s4.leaving;
    assert Apply(t, s3, LeaveEnd(a)) == s4;
    RunsOn(t, s5, s5, [], Join(c), s4);
    RunsOn(t, s4, s5, [Join(c)] + [], LeaveEnd(a), s3);
    var rest := [LeaveEnd(a)] + ([Join(c)] + []);
    RunsOn(t, s3, s5, rest, Join(b), s2);
    RunsOn(t, s2, s5, [Join(b)] + rest, LeaveBegin(a), s1);
    RunsOn(t, s1, s5, [LeaveBegin(a)] + ([Join(b)] + rest), Join(a), Init());
    assert b in s5.live && c in s5.live && s5.live[b].index == s5.live[c].index;
  }

  lemma FirstHalf(t: Timing, a: Uuid, b: Uuid, s1: State, s2: State, s3: State)
    requires a != b
    requires s1 == State(0, map[0 := a], map[0 := Lease(a, t.maxTtl)], map[a := Process(0, 0)], map[], {a})
    requires s2 == State(0, map[0 := a], map[], map[], map[a := 0], {a})
    requires s3 == State(0, map[0 := b], map[0 := Lease(b, t.maxTtl)], map[b := Process(0, 0)], map[a := 0], {a, b})
    ensures Apply(t, Init(), Join(a)) == s1 && Apply(t, s1, LeaveBegin(a)) == s2 && Apply(t, s2, Join(b)) == s3
  {
    JoinNobody(t, Init(), a);
    JoinNobody(t, s2, b);
    assert s1.presence - {0} == s2.presence && s1.live - {a} == s2.live;
  }

  lemma RunsOn(t: Timing, s: State, final: State, events: seq<Event>, e: Event, before: State)
    requires Possible(t, before, e) && Apply(t, before, e) == s && Runs(t, s, events) && Final(t, s, events) == final
    ensures Runs(t, before, [e] + events) && Final(t, before, [e] + events) == final
  {
    assert ([e] + events)[0] == e && ([e] + events)[1..] == events;
  }
}
