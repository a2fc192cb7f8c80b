/** The pipelining of an HTTP session: one read and one write in flight, and a bounded queue of
    responses between them (controller/http_session.h, controller/http_session.cxx). */
module HttpSession {

  const LIMIT: nat := 8

  /** A request, and whether its response must be followed by the end of the connection. */
  datatype Request = Request(id: nat, needEof: bool)
  datatype Response = Response(to: nat, close: bool)

  function Respond(r: Request): Response {
    Response(r.id, r.needEof)
  }

  function Responses(rs: seq<Request>): seq<Response> {
    seq(|rs|, i requires 0 <= i < |rs| => Respond(rs[i]))
  }

  /** How a read or a write completes. */
  datatype ReadResult = Got(request: Request) | Upgrade | EndOfStream | ReadError
  datatype Event = ReadDone(result: ReadResult) | WriteDone(ok: bool)

  /** The queue, the operations in flight, and what has happened so far: the requests taken, the
      responses written, whether the sending side has been shut down, whether the write in flight
      began only after that, and whether a read or a write has completed without success. */
  datatype Session = Session(
    items: seq<Response>, reading: nat, inFlight: seq<Response>,
    requests: seq<Request>, written: seq<Response>,
    shut: bool, late: bool, readEnded: bool, writeEnded: bool)

  predicate Full(items: seq<Response>) {
    |items| >= LIMIT
  }

  function ReadStarted(s: Session): Session {
    s.(reading := s.reading + 1)
  }

  function Closed(s: Session): Session {
    s.(shut := true)
  }

  function WriteStarted(s: Session, r: Response): Session {
    s.(inFlight := s.inFlight + [r], late := s.late || s.shut)
  }

  /** The queue's call operator. */
  function Pushed(s: Session, r: Response): Session {
    var t := s.(items := s.items + [r]);
    if |t.items| == 1 then WriteStarted(t, r) else t
  }

  function AfterRead(s: Session, result: ReadResult): Session
    requires s.reading > 0
  {
    var t := s.(reading := s.reading - 1);
    match result
    case EndOfStream => Closed(t).(readEnded := true)
    case ReadError => t.(readEnded := true)
    case Upgrade => t.(readEnded := true)
    case Got(r) =>
      var u := Pushed(t.(requests := t.requests + [r]), Respond(r));
      if Full(u.items) then u else ReadStarted(u)
  }

  /** The end of the write at the front of those in flight. */
  function AfterWrite(s: Session, ok: bool): Session
    requires s.inFlight != [] && s.items != []
  {
    var t := s.(inFlight := s.inFlight[1..], late := false);
    if !ok then t.(writeEnded := true)
    else
      var u := t.(written := t.written + [s.inFlight[0]]);
      if s.inFlight[0].close then Closed(u).(writeEnded := true)
      else
        var v := u.(items := u.items[1..]);
        var w := if v.items != [] then WriteStarted(v, v.items[0]) else v;
        if Full(s.items) then ReadStarted(w) else w
  }

  /** What can happen next; a write begun after the sending side was shut down cannot succeed. */
  predicate Possible(s: Session, e: Event) {
    match e
    case ReadDone(_) => s.reading > 0
    case WriteDone(ok) => s.inFlight != [] && (ok ==> !s.late)
  }

  // ---- the invariant ----------------------------------------------------------------------

  predicate Reading(s: Session) {
    && s.reading == (if s.readEnded || Full(s.items) then 0 else 1)
    && (s.readEnded ==> !Full(s.items)) && |s.items| <= LIMIT
  }

  predicate Writing(s: Session) {
    && s.inFlight == (if s.writeEnded then [] else s.items[..if s.items == [] then 0 else 1])
    && (s.writeEnded ==> s.items != [])
  }

  /** The responses written and those queued are the responses to the requests, in their order;
      a response that closed the connection is still at the front of the queue. */
  ghost predicate Ordered(s: Session) {
    exists done :: Done(s, done)
  }

  ghost predicate Done(s: Session, done: seq<Response>) {
    && done + s.items == Responses(s.requests)
    && (s.written == done || (s.writeEnded && s.shut && s.items != [] && s.written == done + [s.items[0]]))
  }

  predicate Shutting(s: Session) {
    (s.late ==> s.shut) && (s.shut ==> s.readEnded || s.writeEnded)
  }

  ghost predicate Inv(s: Session) {
    Reading(s) && Writing(s) && Shutting(s) && Ordered(s)
  }

  function Start(): Session {
    ReadStarted(Session([], 0, [], [], [], false, false, false, false))
  }

  lemma StartInv()
    ensures Inv(Start())
  {
    assert Done(Start(), []);
  }

  lemma ResponsesOneMore(rs: seq<Request>, r: Request)
    ensures Responses(rs + [r]) == Responses(rs) + [Respond(r)]
  {
  }

  lemma ReadKeeps(s: Session, result: ReadResult)
    requires Inv(s) && s.reading > 0
    ensures Inv(AfterRead(s, result))
  {
    var done :| Done(s, done);
    var t := AfterRead(s, result);
    if result.Got? {
      ResponsesOneMore(s.requests, result.request);
      assert done + (s.items + [Respond(result.request)]) == (done + s.items) + [Respond(result.request)];
    }
    assert Done(t, done);
  }

  lemma WriteKeeps(s: Session, ok: bool)
    requires Inv(s) && s.inFlight != []
    ensures s.items != [] && Inv(AfterWrite(s, ok))
  {
    var done :| Done(s, done);
    var t := AfterWrite(s, ok);
    if ok && !s.inFlight[0].close {
      assert (done + [s.items[0]]) + s.items[1..] == done + s.items;
      assert Done(t, done + [s.items[0]]);
    } else {
      assert Done(t, done);
    }
  }

  // ---- runs -------------------------------------------------------------------------------

  function Step(s: Session, e: Event): Session
    requires Possible(s, e) && (s.inFlight != [] ==> s.items != [])
  {
    match e
    case ReadDone(result) => AfterRead(s, result)
    case WriteDone(ok) => AfterWrite(s, ok)
  }

  lemma StepKeeps(s: Session, e: Event)
    requires Inv(s) && Possible(s, e)
    ensures (s.inFlight != [] ==> s.items != []) && Inv(Step(s, e))
  {
    match e
    case ReadDone(result) => ReadKeeps(s, result);
    case WriteDone(ok) => WriteKeeps(s, ok);
  }

  /** One state after the other, each by an event that can happen. */
  ghost predicate Run(x: seq<Session>) {
    x != [] && forall i :: 0 <= i < |x| - 1 ==> Next(x[i], x[i + 1])
  }

  ghost predicate Next(s: Session, t: Session) {
    exists e :: Possible(s, e) && (s.inFlight != [] ==> s.items != []) && t == Step(s, e)
  }

  lemma {:induction false} RunKeeps(x: seq<Session>, i: nat)
    requires Run(x) && Inv(x[0]) && i < |x|
    ensures Inv(x[i])
  {
    if i > 0 {
      RunKeeps(x, i - 1);
      assert Next(x[i - 1], x[i - 1 + 1]);
      var e :| Possible(x[i - 1], e) && (x[i - 1].inFlight != [] ==> x[i - 1].items != []) && x[i] == Step(x[i - 1], e);
      StepKeeps(x[i - 1], e);
    }
  }

  /** In every run from the start: responses go out in the order of the requests (section 9.3.2 of
      RFC 9112), at most eight wait, a completed write never finds the queue empty, and as long as
      nothing has ended, exactly one of "a read is outstanding" and "the queue is full" holds and
      a write is outstanding exactly when the queue is not empty. */
  lemma Pipelining(x: seq<Session>, i: nat)
    requires Run(x) && x[0] == Start() && i < |x|
    ensures x[i].written <= Responses(x[i].requests) && |x[i].items| <= LIMIT && x[i].reading <= 1 &&
        |x[i].inFlight| <= 1
    ensures x[i].inFlight != [] ==> x[i].items != [] && x[i].inFlight == [x[i].items[0]]
    ensures !x[i].readEnded ==> ((x[i].reading == 1) <==> !Full(x[i].items))
    ensures !x[i].writeEnded ==> ((x[i].inFlight != []) <==> x[i].items != [])
    ensures !x[i].writeEnded ==> x[i].written + x[i].items == Responses(x[i].requests)
    ensures !x[i].readEnded && !x[i].writeEnded ==> x[i].reading == 1 || x[i].inFlight != []
  {
    StartInv();
    RunKeeps(x, i);
    var s := x[i];
    var done :| Done(s, done);
    if s.written != done { assert done + s.items == s.written + s.items[1..]; }
  }

  /** After a response that closes the connection, or a failed write, nothing is written again;
      and the session reads on only until its queue is full. */
  lemma {:induction false} NothingAfterClose(x: seq<Session>, i: nat)
    requires Run(x) && Inv(x[0]) && x[0].writeEnded && i < |x|
    ensures x[i].writeEnded && x[i].inFlight == [] && x[i].written == x[0].written
    ensures |x[i].requests| + |x[0].items| == |x[0].requests| + |x[i].items|
    ensures |x[i].requests| - |x[0].requests| < LIMIT
  {
    RunKeeps(x, i);
    if i > 0 {
      NothingAfterClose(x, i - 1);
      assert Next(x[i - 1], x[i - 1 + 1]);
    } else {
      assert x[0].items != [];
    }
  }

  // ---- the end of the stream --------------------------------------------------------------

  /** The most responses that can still have been written in the end. */
  function Within(s: Session): nat {
    |s.written| + if s.inFlight != [] && !s.late then 1 else 0
  }

  lemma {:induction false} OnlyTheOneInFlight(x: seq<Session>, i: nat)
    requires Run(x) && Inv(x[0]) && x[0].shut && x[0].readEnded && i < |x|
    ensures x[i].shut && x[i].readEnded && x[i].requests == x[0].requests && Within(x[i]) <= Within(x[0])
  {
    RunKeeps(x, i);
    if i > 0 {
      OnlyTheOneInFlight(x, i - 1);
      RunKeeps(x, i - 1);
      assert Next(x[i - 1], x[i - 1 + 1]);
    }
  }

  /** The client half closes: every request can still be answered. */
  ghost predicate Answerable(s: Session) {
    exists x: seq<Session>, i: nat :: Run(x) && x[0] == s && i < |x| && x[i].written == Responses(s.requests)
  }

  /** At the end of the stream the sending side is shut down at once, so pipelined requests are
      all answered only if no more than the response in flight is left. */
  lemma AnsweredAtEndOfStreamIff(s: Session)
    requires Inv(s) && s.reading > 0 && !s.writeEnded
    ensures Answerable(AfterRead(s, EndOfStream)) <==> |s.items| <= 1
  {
    var t := AfterRead(s, EndOfStream);
    ReadKeeps(s, EndOfStream);
    var done :| Done(s, done);
    if |s.items| <= 1 {
      assert !s.shut && !s.late;
      if s.items == [] {
        assert Run([t]) && [t][0].written == Responses(s.requests);
      } else {
        var u := AfterWrite(t, true);
        assert Possible(t, WriteDone(true)) && u == Step(t, WriteDone(true));
        assert Next(t, u);
        assert u.written == done + s.items;
        var x := [t, u];
        assert Run(x) && x[1].written == Responses(s.requests);
      }
    } else if Answerable(t) {
      var x: seq<Session>, i: nat :| Run(x) && x[0] == t && i < |x| && x[i].written == Responses(s.requests);
      OnlyTheOneInFlight(x, i);
      assert false;
    }
  }

  /** A client that sends two requests and then closes its side reaches such a state: its second
      request cannot be answered any more. */
  lemma HalfClosedTooEarly(a: Request, b: Request) returns (x: seq<Session>)
    ensures Run(x) && x[0] == Start() && |x| > 0 && x[|x| - 1].requests == [a, b] && x[|x| - 1].readEnded
    ensures !Answerable(x[|x| - 1])
  {
    var s0 := Start();
    var s1 := AfterRead(s0, Got(a));
    var s2 := AfterRead(s1, Got(b));
    var s3 := AfterRead(s2, EndOfStream);
    x := [s0, s1, s2, s3];
    assert s1 == Step(s0, ReadDone(Got(a))) && s2 == Step(s1, ReadDone(Got(b))) &&
      s3 == Step(s2, ReadDone(EndOfStream));
    assert Possible(s0, ReadDone(Got(a))) && Possible(s1, ReadDone(Got(b))) && Possible(s2, ReadDone(EndOfStream));
    assert Next(s0, s1) && Next(s1, s2) && Next(s2, s3);
    StartInv();
    RunKeeps(x, 2);
    AnsweredAtEndOfStreamIff(s2);
  }

  // ---- the session object -----------------------------------------------------------------

  class Connection {
    var items: seq<Response>
    var reading: nat
    var inFlight: seq<Response>
    var shut: bool
    ghost var requests: seq<Request>
    ghost var written: seq<Response>
    ghost var late: bool
    ghost var readEnded: bool
    ghost var writeEnded: bool

    ghost function State(): Session
      reads this
    {
      Session(items, reading, inFlight, requests, written, shut, late, readEnded, writeEnded)
    }

    constructor Run()
      ensures State() == Start()
    {
      items, reading, inFlight, shut := [], 0, [], false;
      requests, written, late, readEnded, writeEnded := [], [], false, false, false;
      new;
      DoRead();
    }

    method DoRead()
      modifies this`reading
      ensures State() == ReadStarted(old(State()))
    {
      reading := reading + 1;
    }

    method DoClose()
      modifies this`shut
      ensures State() == Closed(old(State()))
    {
      shut := true;
    }

    method IsFull() returns (full: bool)
      ensures full <==> Full(items)
    {
      full := |items| >= LIMIT;
    }

    method StartWrite(r: Response)
      modifies this`inFlight, this`late
      ensures State() == WriteStarted(old(State()), r)
    {
      inFlight := inFlight + [r];
      late := late || shut;
    }

    /** A response from the request handler. */
    method Push(r: Response)
      modifies this`items, this`inFlight, this`late
      ensures State() == Pushed(old(State()), r)
    {
      items := items + [r];
      if |items| == 1 { StartWrite(items[0]); }
    }

    method OnRead(result: ReadResult)
      requires Inv(State()) && reading > 0
      modifies this
      ensures State() == AfterRead(old(State()), result) && Inv(State())
    {
      ReadKeeps(State(), result);
      reading := reading - 1;
      match result {
        case EndOfStream =>
          readEnded := true;
          DoClose();
        case ReadError => readEnded := true;
        case Upgrade => readEnded := true;
        case Got(r) =>
          requests := requests + [r];
          Push(Respond(r));
          var full := IsFull();
          if !full { DoRead(); }
      }
    }

    /** The queue's part of a completed write; the assertion of the original holds. */
    method QueueOnWrite() returns (wasFull: bool)
      requires items != []
      modifies this`items, this`inFlight, this`late
      ensures wasFull <==> Full(old(items))
      ensures var s := old(State()).(items := old(items)[1..]);
              State() == if s.items == [] then s else WriteStarted(s, s.items[0])
    {
      wasFull := IsFull();
      items := items[1..];
      if items != [] { StartWrite(items[0]); }
    }

    method OnWrite(ok: bool)
      requires Inv(State()) && inFlight != []
      modifies this
      ensures old(items) != []
      ensures State() == AfterWrite(old(State()), ok) && Inv(State())
    {
      WriteKeeps(State(), ok);
      var r := inFlight[0];
      inFlight := inFlight[1..];
      late := false;
      if !ok {
        writeEnded := true;
        return;
      }
      written := written + [r];
      if r.close {
        writeEnded := true;
        DoClose();
        return;
      }
      var more := QueueOnWrite();
      if more { DoRead(); }
    }
  }
}
