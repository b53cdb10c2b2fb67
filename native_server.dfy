/**
 * The native transport driver.  One request unit on the socket is a multipart
 * message: route frames, an empty delimiter frame, then tiers of a type frame and
 * a request-header frame, each followed by a body frame.  `process` reads one unit:
 * it rejects a unit whose route is empty or is not followed by anything, skips a
 * tier whose header does not decode, fails a job whose body is missing, and hands
 * every other job to the engine.  A job answers on the same socket: a chunk is a
 * tag frame marked "more" followed by the payload, an error is one error frame,
 * and the end of the stream is a final tag frame.
 *
 * The socket is the sequence of frames that arrive on it, each with its "more"
 * flag, and a cursor; the engine's queue and the outbound socket are lists that
 * the driver appends to.
 */
module NativeServer {
  import opened Wrappers

  type Byte = x: int | 0 <= x < 256
  type Bytes = seq<Byte>

  /** One received message part and its "more" flag. */
  datatype Frame = Frame(data: Bytes, more: bool)

  /** The decoded request header: the job's id and its (opaque) policy. */
  datatype Request = Request(id: string, policy: Bytes)

  /** A job of this driver: the request's id and policy, the unit's route, and the body. */
  datatype Job = Job(id: string, policy: Bytes, route: seq<Bytes>, body: Bytes)

  /** Error codes of job events; only `request_error` is raised by the driver itself. */
  datatype ErrorCode = RequestError | OtherCode(value: int)

  /** The protocol messages a job sends back. */
  datatype Message =
    | Tag(id: string, completed: bool)
    | Error(id: string, code: ErrorCode, text: string)

  /** An outbound frame: a protocol message addressed to a route, or a raw payload. */
  datatype OutFrame =
    | Envelope(route: seq<Bytes>, message: Message, more: bool)
    | Payload(data: Bytes, more: bool)

  /**
   * Decoding of a (type, header) tier.  `None` stands both for a tier that does
   * not decode and for a header the job constructor rejects: the driver skips both
   * the same way.
   */
  type Decoder = (Bytes, Bytes) -> Option<Request>

  /** A multipart message arrives whole: the last frame received never announces more. */
  predicate WellFramed(inbox: seq<Frame>)
  {
    |inbox| > 0 ==> !inbox[|inbox| - 1].more
  }

  /** The job constructor: the job takes the request's id and policy and the unit's route. */
  function NewJob(request: Request, route: seq<Bytes>): (job: Job)
    ensures job.id == request.id && job.policy == request.policy
    ensures job.route == route && job.body == []
  {
    Job(request.id, request.policy, route, [])
  }

  /** A chunk: the job's tag marked "more", then the payload. */
  function ChunkFrames(job: Job, payload: Bytes): seq<OutFrame>
  {
    [Envelope(job.route, Tag(job.id, false), true), Payload(payload, false)]
  }

  /** An error: one error message carrying the job's id, the code and the text. */
  function ErrorFrames(job: Job, code: ErrorCode, text: string): seq<OutFrame>
  {
    [Envelope(job.route, Error(job.id, code, text), false)]
  }

  /** The end of the job's stream: its tag marked completed. */
  function ChokedFrames(job: Job): seq<OutFrame>
  {
    [Envelope(job.route, Tag(job.id, true), false)]
  }

  /** What a job with a missing body sends. */
  function MissingBody(job: Job): seq<OutFrame>
  {
    ErrorFrames(job, RequestError, "missing request body")
  }

  datatype RouteRead = RouteRead(route: seq<Bytes>, next: nat, more: bool)

  /**
   * The route loop from frame `c` on: each non-empty frame joins the route; the
   * loop stops after an empty frame or after a frame that announces no more.
   */
  function ReadRoute(inbox: seq<Frame>, c: nat, route: seq<Bytes>): (r: RouteRead)
    requires WellFramed(inbox) && c < |inbox|
    ensures c < r.next <= |inbox| && r.more == inbox[r.next - 1].more
    ensures r.more ==> r.next < |inbox|
    decreases |inbox| - c
  {
    var f := inbox[c];
    if |f.data| == 0 then RouteRead(route, c + 1, f.more)
    else if !f.more then RouteRead(route + [f.data], c + 1, false)
    else ReadRoute(inbox, c + 1, route + [f.data])
  }

  datatype TierRead = TierRead(jobs: seq<Job>, out: seq<OutFrame>, next: nat)

  datatype Round = Round(jobs: seq<Job>, out: seq<OutFrame>, next: nat, more: bool)

  /** One round of the tier loop at frame `c`, when the socket announces more. */
  function TierRound(inbox: seq<Frame>, c: nat, route: seq<Bytes>, decode: Decoder): (r: Round)
    requires WellFramed(inbox) && c < |inbox|
    ensures c < r.next <= |inbox| && r.more == inbox[r.next - 1].more
  {
    if !inbox[c].more then Round([], [], c + 1, false)
    else
      match decode(inbox[c].data, inbox[c + 1].data)
      case None => Round([], [], c + 2, inbox[c + 1].more)
      case Some(request) =>
        var job := NewJob(request, route);
        if !inbox[c + 1].more then Round([], MissingBody(job), c + 2, false)
        else Round([job.(body := inbox[c + 2].data)], [], c + 3, inbox[c + 2].more)
  }

  /** The tier loop from frame `c` on, `more` being the socket's "more" flag there. */
  function ReadTiers(inbox: seq<Frame>, c: nat, more: bool, route: seq<Bytes>, decode: Decoder): TierRead
    requires WellFramed(inbox) && c <= |inbox| && (more ==> c < |inbox|)
    decreases |inbox| - c
  {
    if !more then TierRead([], [], c)
    else if !inbox[c].more then TierRead([], [], c + 1)
    else
      match decode(inbox[c].data, inbox[c + 1].data)
      case None => ReadTiers(inbox, c + 2, inbox[c + 1].more, route, decode)
      case Some(request) =>
        var job := NewJob(request, route);
        if !inbox[c + 1].more then TierRead([], MissingBody(job), c + 2)
        else
          var rest := ReadTiers(inbox, c + 3, inbox[c + 2].more, route, decode);
          TierRead([job.(body := inbox[c + 2].data)] + rest.jobs, rest.out, rest.next)
  }

  /** The tier loop is one round followed by the loop from where that round stopped. */
  lemma RoundThenRest(inbox: seq<Frame>, c: nat, route: seq<Bytes>, decode: Decoder)
    requires WellFramed(inbox) && c < |inbox|
    ensures var r := TierRound(inbox, c, route, decode);
      var rest := ReadTiers(inbox, r.next, r.more, route, decode);
      ReadTiers(inbox, c, true, route, decode) == TierRead(r.jobs + rest.jobs, r.out + rest.out, rest.next)
  {
    var r := TierRound(inbox, c, route, decode);
    var rest := ReadTiers(inbox, r.next, r.more, route, decode);
    if r.jobs == [] {
      assert r.jobs + rest.jobs == rest.jobs;
    }
    if r.out == [] {
      assert r.out + rest.out == rest.out;
    } else {
      assert rest == TierRead([], [], r.next);
      assert r.out + rest.out == r.out;
    }
  }

  lemma Associative<T>(a: seq<T>, b: seq<T>, c: seq<T>)
    ensures a + (b + c) == (a + b) + c
  {
  }

  datatype UnitRead = UnitRead(route: seq<Bytes>, accepted: bool, jobs: seq<Job>, out: seq<OutFrame>, next: nat)

  /** One call of `process` on a pending socket whose next frame is `c`. */
  function ReadUnit(inbox: seq<Frame>, c: nat, decode: Decoder): UnitRead
    requires WellFramed(inbox) && c < |inbox|
  {
    var r := ReadRoute(inbox, c, []);
    if r.route == [] || !r.more then UnitRead(r.route, false, [], [], r.next)
    else
      var t := ReadTiers(inbox, r.next, true, r.route, decode);
      UnitRead(r.route, true, t.jobs, t.out, t.next)
  }

  // ---------------------------------------------------------------------------
  // Properties of one unit
  // ---------------------------------------------------------------------------

  /**
   * The route is the run of non-empty frames from `c`, in arrival order; it ends at
   * the first empty frame (which is consumed and not part of the route) or at the
   * first frame that announces no more.
   */
  lemma {:induction false} ReadRouteShape(inbox: seq<Frame>, c: nat, route: seq<Bytes>)
    requires WellFramed(inbox) && c < |inbox|
    ensures var r := ReadRoute(inbox, c, route);
      && c < r.next <= |inbox|
      && r.more == inbox[r.next - 1].more
      && |r.route| >= |route| && r.route[..|route|] == route
      && (forall i :: c <= i < r.next - 1 ==> |inbox[i].data| > 0 && inbox[i].more)
      && (|inbox[r.next - 1].data| == 0 ==> r.next == c + |r.route| - |route| + 1)
      && (|inbox[r.next - 1].data| > 0 ==> r.next == c + |r.route| - |route| && !r.more)
      && (forall i :: |route| <= i < |r.route| ==> r.route[i] == inbox[c + i - |route|].data)
    decreases |inbox| - c
  {
    var f := inbox[c];
    if |f.data| > 0 && f.more {
      ReadRouteShape(inbox, c + 1, route + [f.data]);
      var r := ReadRoute(inbox, c + 1, route + [f.data]);
      assert r.route[..|route| + 1] == route + [f.data];
      assert r.route[..|route|] == (route + [f.data])[..|route|];
      assert r.route[|route|] == (route + [f.data])[|route|];
    }
  }

  /**
   * A unit is accepted exactly when its first frames are non-empty route frames that
   * announce more, followed by an empty delimiter that also announces more.  An empty
   * route, a route that runs to the end of the message, and a delimiter with nothing
   * after it are all rejected, and a rejected unit enqueues and sends nothing.
   */
  lemma UnitAccepted(inbox: seq<Frame>, c: nat, decode: Decoder)
    requires WellFramed(inbox) && c < |inbox|
    ensures var u := ReadUnit(inbox, c, decode);
      && (u.accepted <==>
            exists k :: c < k < |inbox| && |inbox[k].data| == 0 && inbox[k].more
              && forall i :: c <= i < k ==> |inbox[i].data| > 0 && inbox[i].more)
      && (!u.accepted ==> u.jobs == [] && u.out == [])
  {
    var u := ReadUnit(inbox, c, decode);
    var r := ReadRoute(inbox, c, []);
    ReadRouteShape(inbox, c, []);
    if u.accepted {
      var k := r.next - 1;
      assert |inbox[k].data| == 0 && inbox[k].more;
    }
  }

  /**
   * What one tier-loop run produces: every job carries the unit's route; at most one
   * frame is sent, and it is the "missing request body" error of a job with that route.
   */
  lemma {:induction false} TierOutcome(inbox: seq<Frame>, c: nat, more: bool, route: seq<Bytes>, decode: Decoder)
    requires WellFramed(inbox) && c <= |inbox| && (more ==> c < |inbox|)
    ensures var t := ReadTiers(inbox, c, more, route, decode);
      && c <= t.next <= |inbox|
      && (forall j :: 0 <= j < |t.jobs| ==> t.jobs[j].route == route)
      && |t.out| <= 1
      && (|t.out| == 1 ==> exists request :: t.out == MissingBody(NewJob(request, route)))
    decreases |inbox| - c
  {
    if more && inbox[c].more {
      match decode(inbox[c].data, inbox[c + 1].data)
      case None =>
        TierOutcome(inbox, c + 2, inbox[c + 1].more, route, decode);
      case Some(request) =>
        if inbox[c + 1].more {
          TierOutcome(inbox, c + 3, inbox[c + 2].more, route, decode);
        }
    }
  }

  /** `inbox[p]`, `inbox[p + 1]` is a tier that decodes, and `job` is its job with the body `inbox[p + 2]`. */
  predicate JobAt(inbox: seq<Frame>, p: nat, route: seq<Bytes>, decode: Decoder, job: Job)
  {
    && p + 2 < |inbox|
    && decode(inbox[p].data, inbox[p + 1].data).Some?
    && job == NewJob(decode(inbox[p].data, inbox[p + 1].data).value, route).(body := inbox[p + 2].data)
  }

  /**
   * `starts` are the positions, from `c` on, of the tiers the `jobs` come from: each
   * job is made from a decodable header and the body frame right after it, its id is
   * the request's id, and the tiers are disjoint and appear in the order of the jobs.
   */
  predicate InHeaderOrder(inbox: seq<Frame>, c: nat, route: seq<Bytes>, decode: Decoder, starts: seq<nat>, jobs: seq<Job>)
  {
    && |starts| == |jobs|
    && (forall j :: 0 <= j < |starts| ==> c <= starts[j] && JobAt(inbox, starts[j], route, decode, jobs[j]))
    && (forall j :: 0 <= j < |starts| ==> jobs[j].id == decode(inbox[starts[j]].data, inbox[starts[j] + 1].data).value.id)
    && (forall j :: 0 <= j < |starts| - 1 ==> starts[j] + 3 <= starts[j + 1])
  }

  /** A job from the tier at `c`, followed by jobs from tiers at `c + 3` on. */
  lemma InHeaderOrderCons(inbox: seq<Frame>, c: nat, route: seq<Bytes>, decode: Decoder,
                          job: Job, starts: seq<nat>, jobs: seq<Job>)
    requires JobAt(inbox, c, route, decode, job)
    requires InHeaderOrder(inbox, c + 3, route, decode, starts, jobs)
    ensures InHeaderOrder(inbox, c, route, decode, [c] + starts, [job] + jobs)
  {
    var starts', jobs' := [c] + starts, [job] + jobs;
    forall j | 0 < j < |starts'|
      ensures c <= starts'[j] && JobAt(inbox, starts'[j], route, decode, jobs'[j])
      ensures jobs'[j].id == decode(inbox[starts'[j]].data, inbox[starts'[j] + 1].data).value.id
    {
      assert starts'[j] == starts[j - 1] && jobs'[j] == jobs[j - 1];
    }
    forall j | 0 <= j < |starts'| - 1 ensures starts'[j] + 3 <= starts'[j + 1] {
      if j > 0 {
        assert starts'[j] == starts[j - 1] && starts'[j + 1] == starts[j];
      }
    }
  }

  /** The jobs of the tier loop are enqueued in header order. */
  lemma {:induction false} JobsInHeaderOrder(inbox: seq<Frame>, c: nat, more: bool, route: seq<Bytes>, decode: Decoder)
    returns (starts: seq<nat>)
    requires WellFramed(inbox) && c <= |inbox| && (more ==> c < |inbox|)
    ensures InHeaderOrder(inbox, c, route, decode, starts, ReadTiers(inbox, c, more, route, decode).jobs)
    decreases |inbox| - c
  {
    if !more || !inbox[c].more {
      starts := [];
    } else {
      match decode(inbox[c].data, inbox[c + 1].data)
      case None =>
        starts := JobsInHeaderOrder(inbox, c + 2, inbox[c + 1].more, route, decode);
        assert ReadTiers(inbox, c, more, route, decode) == ReadTiers(inbox, c + 2, inbox[c + 1].more, route, decode);
      case Some(request) =>
        if !inbox[c + 1].more {
          starts := [];
        } else {
          var rest := JobsInHeaderOrder(inbox, c + 3, inbox[c + 2].more, route, decode);
          var job := NewJob(request, route).(body := inbox[c + 2].data);
          var tr := ReadTiers(inbox, c + 3, inbox[c + 2].more, route, decode);
          assert ReadTiers(inbox, c, more, route, decode).jobs == [job] + tr.jobs;
          InHeaderOrderCons(inbox, c, route, decode, job, rest, tr.jobs);
          starts := [c] + rest;
        }
    }
  }

  /**
   * A header with nothing after it is answered with the "missing request body" error
   * for that request's id and is not enqueued.
   */
  lemma MissingBodyFails(inbox: seq<Frame>, c: nat, route: seq<Bytes>, decode: Decoder)
    requires WellFramed(inbox) && c < |inbox| && inbox[c].more && !inbox[c + 1].more
    requires decode(inbox[c].data, inbox[c + 1].data).Some?
    ensures var t := ReadTiers(inbox, c, true, route, decode);
      var request := decode(inbox[c].data, inbox[c + 1].data).value;
      && t.jobs == []
      && t.out == [Envelope(route, Error(request.id, RequestError, "missing request body"), false)]
  {
  }

  /** A tier that does not decode is skipped: the loop goes on with the frame after its header. */
  lemma UndecodableTierSkipped(inbox: seq<Frame>, c: nat, route: seq<Bytes>, decode: Decoder)
    requires WellFramed(inbox) && c < |inbox| && inbox[c].more
    requires decode(inbox[c].data, inbox[c + 1].data).None?
    ensures ReadTiers(inbox, c, true, route, decode) == ReadTiers(inbox, c + 2, inbox[c + 1].more, route, decode)
  {
  }

  // ---------------------------------------------------------------------------
  // Well-formed units
  // ---------------------------------------------------------------------------

  /** One tier as a client sends it. */
  datatype Tier = Tier(kind: Bytes, header: Bytes, body: Bytes)

  /** The frames of a list of tiers; only the very last frame announces no more. */
  function TierFrames(tiers: seq<Tier>): (fs: seq<Frame>)
    ensures |fs| == 3 * |tiers|
    decreases |tiers|
  {
    if tiers == [] then []
    else
      [Frame(tiers[0].kind, true), Frame(tiers[0].header, true), Frame(tiers[0].body, |tiers| > 1)]
        + TierFrames(tiers[1..])
  }

  /** The frames of a whole unit: the route, the delimiter, then the tiers. */
  function UnitFrames(route: seq<Bytes>, tiers: seq<Tier>): (fs: seq<Frame>)
    ensures |fs| == |route| + 1 + 3 * |tiers|
  {
    (seq(|route|, i requires 0 <= i < |route| => Frame(route[i], true)))
      + [Frame([], |tiers| > 0)] + TierFrames(tiers)
  }

  /** The jobs a unit of decodable tiers stands for. */
  function ExpectedJobs(route: seq<Bytes>, tiers: seq<Tier>, decode: Decoder): seq<Job>
    requires forall i :: 0 <= i < |tiers| ==> decode(tiers[i].kind, tiers[i].header).Some?
    decreases |tiers|
  {
    if tiers == [] then []
    else
      [NewJob(decode(tiers[0].kind, tiers[0].header).value, route).(body := tiers[0].body)]
        + ExpectedJobs(route, tiers[1..], decode)
  }

  lemma {:induction false} TiersOfWellFormed(inbox: seq<Frame>, c: nat, route: seq<Bytes>, tiers: seq<Tier>, decode: Decoder)
    requires WellFramed(inbox) && |tiers| > 0 && c + 3 * |tiers| == |inbox|
    requires inbox[c..] == TierFrames(tiers)
    requires forall i :: 0 <= i < |tiers| ==> decode(tiers[i].kind, tiers[i].header).Some?
    ensures ReadTiers(inbox, c, true, route, decode) == TierRead(ExpectedJobs(route, tiers, decode), [], |inbox|)
    decreases |tiers|
  {
    assert inbox[c] == inbox[c..][0] && inbox[c + 1] == inbox[c..][1] && inbox[c + 2] == inbox[c..][2];
    if |tiers| > 1 {
      assert inbox[c + 3..] == inbox[c..][3..];
      forall i | 0 <= i < |tiers[1..]| ensures decode(tiers[1..][i].kind, tiers[1..][i].header).Some? {
        assert tiers[1..][i] == tiers[i + 1];
      }
      TiersOfWellFormed(inbox, c + 3, route, tiers[1..], decode);
    }
  }

  /**
   * A well-formed unit (a non-empty route of non-empty frames, the delimiter, and
   * at least one tier, each decodable and with its body) yields one job per tier,
   * in tier order, each with the unit's route; nothing is sent and the whole unit
   * is consumed.
   */
  lemma WellFormedUnit(route: seq<Bytes>, tiers: seq<Tier>, decode: Decoder)
    requires route != [] && forall i :: 0 <= i < |route| ==> |route[i]| > 0
    requires |tiers| > 0 && forall i :: 0 <= i < |tiers| ==> decode(tiers[i].kind, tiers[i].header).Some?
    ensures WellFramed(UnitFrames(route, tiers))
    ensures ReadUnit(UnitFrames(route, tiers), 0, decode) ==
      UnitRead(route, true, ExpectedJobs(route, tiers, decode), [], |UnitFrames(route, tiers)|)
  {
    var inbox := UnitFrames(route, tiers);
    var tf := TierFrames(tiers);
    assert tf[|tf| - 1] == Frame(tiers[|tiers| - 1].body, false) by {
      LastTierFrame(tiers);
    }
    assert inbox[|inbox| - 1] == tf[|tf| - 1];
    ReadRouteShape(inbox, 0, []);
    var r := ReadRoute(inbox, 0, []);
    assert inbox[|route|] == Frame([], true);
    forall i | 0 <= i < |route| ensures inbox[i] == Frame(route[i], true) {
    }
    assert r.next == |route| + 1;
    assert r.route == route;
    assert inbox[|route| + 1..] == tf;
    TiersOfWellFormed(inbox, |route| + 1, route, tiers, decode);
  }

  lemma {:induction false} LastTierFrame(tiers: seq<Tier>)
    requires |tiers| > 0
    ensures TierFrames(tiers)[3 * |tiers| - 1] == Frame(tiers[|tiers| - 1].body, false)
    decreases |tiers|
  {
    if |tiers| > 1 {
      LastTierFrame(tiers[1..]);
      assert TierFrames(tiers)[3 * |tiers| - 1] == TierFrames(tiers[1..])[3 * |tiers[1..]| - 1];
    }
  }

  /** A route and delimiter with no tier after them: the delimiter announces no more, so the unit is rejected. */
  lemma NoTiersRejected(route: seq<Bytes>, decode: Decoder)
    requires route != [] && forall i :: 0 <= i < |route| ==> |route[i]| > 0
    ensures WellFramed(UnitFrames(route, []))
    ensures !ReadUnit(UnitFrames(route, []), 0, decode).accepted
  {
    var inbox := UnitFrames(route, []);
    ReadRouteShape(inbox, 0, []);
    var r := ReadRoute(inbox, 0, []);
    forall i | 0 <= i < |route| ensures inbox[i] == Frame(route[i], true) {
    }
    assert inbox[|route|] == Frame([], false);
    assert r.next == |route| + 1;
  }

  // ---------------------------------------------------------------------------
  // The driver object
  // ---------------------------------------------------------------------------

  /** `native_server_t` with its socket, the engine's queue and the outbound frames. */
  class NativeServer {
    /** The frames arriving on the socket, in order. */
    const inbox: seq<Frame>
    /** How many frames have been received. */
    var cursor: nat
    /** The socket's "more" flag: whether the last frame received announced another. */
    var more: bool
    /** The jobs handed to the engine by `enqueue`, in order. */
    var queue: seq<Job>
    /** The frames written back on the socket, in order. */
    var outbox: seq<OutFrame>

    ghost predicate Valid()
      reads this
    {
      && WellFramed(inbox)
      && cursor <= |inbox|
      && more == (cursor > 0 && inbox[cursor - 1].more)
    }

    constructor (inbox: seq<Frame>)
      requires WellFramed(inbox)
      ensures Valid()
      ensures this.inbox == inbox && cursor == 0 && queue == [] && outbox == []
    {
      this.inbox := inbox;
      cursor, more := 0, false;
      queue, outbox := [], [];
    }

    /** `pending()`: a frame is waiting. */
    predicate Pending()
      reads this
    {
      cursor < |inbox|
    }

    /** `recv`: takes the next frame and updates the "more" flag. */
    method Receive() returns (f: Frame)
      requires Valid() && cursor < |inbox|
      modifies this`cursor, this`more
      ensures Valid()
      ensures f == inbox[old(cursor)] && cursor == old(cursor) + 1 && more == f.more
    {
      f := inbox[cursor];
      cursor := cursor + 1;
      more := f.more;
    }

    /** `react(chunk)`: the job's tag marked "more", then the payload. */
    method ReactChunk(job: Job, payload: Bytes)
      modifies this`outbox
      ensures outbox == old(outbox) + ChunkFrames(job, payload)
    {
      outbox := outbox + [Envelope(job.route, Tag(job.id, false), true)];
      outbox := outbox + [Payload(payload, false)];
    }

    /** `react(error)`: one error frame with the job's id, the code and the message. */
    method ReactError(job: Job, code: ErrorCode, text: string)
      modifies this`outbox
      ensures outbox == old(outbox) + ErrorFrames(job, code, text)
    {
      outbox := outbox + [Envelope(job.route, Error(job.id, code, text), false)];
    }

    /** `react(choked)`: the job's tag marked completed. */
    method ReactChoked(job: Job)
      modifies this`outbox
      ensures outbox == old(outbox) + ChokedFrames(job)
    {
      outbox := outbox + [Envelope(job.route, Tag(job.id, true), false)];
    }

    /** The route loop of `process`: receives frames until a delimiter or the end of the message. */
    method ReceiveRoute() returns (route: seq<Bytes>)
      requires Valid() && cursor < |inbox|
      modifies this`cursor, this`more
      ensures Valid()
      ensures RouteRead(route, cursor, more) == ReadRoute(inbox, old(cursor), [])
    {
      route := [];
      while true
        invariant Valid() && old(cursor) <= cursor < |inbox|
        invariant ReadRoute(inbox, cursor, route) == ReadRoute(inbox, old(cursor), [])
        decreases |inbox| - cursor
      {
        var message := Receive();
        if |message.data| == 0 {
          break;
        }
        route := route + [message.data];
        if !more {
          break;
        }
      }
    }

    /** One round of the tier loop: receives one tier and acts on it. */
    method ReceiveTier(route: seq<Bytes>, decode: Decoder)
      requires Valid() && more
      modifies this`cursor, this`more, this`queue, this`outbox
      ensures Valid()
      ensures var r := TierRound(inbox, old(cursor), route, decode);
        cursor == r.next && more == r.more && queue == old(queue) + r.jobs && outbox == old(outbox) + r.out
    {
      var kind := Receive();
      if !more {
        // the tier does not decode: no header frame
        return;
      }
      var header := Receive();
      var request := decode(kind.data, header.data);
      if request.None? {
        // a corrupted request
        return;
      }
      var job := NewJob(request.value, route);
      if !more {
        ReactError(job, RequestError, "missing request body");
        return;
      }
      var body := Receive();
      job := job.(body := body.data);
      queue := queue + [job];
    }

    /** The tier loop of `process`: one tier per round while the socket announces more. */
    method ReceiveTiers(route: seq<Bytes>, decode: Decoder)
      requires Valid()
      modifies this`cursor, this`more, this`queue, this`outbox
      ensures Valid()
      ensures var t := ReadTiers(inbox, old(cursor), old(more), route, decode);
        cursor == t.next && queue == old(queue) + t.jobs && outbox == old(outbox) + t.out
    {
      while more
        invariant Valid()
        invariant var total := ReadTiers(inbox, old(cursor), old(more), route, decode);
          var rest := ReadTiers(inbox, cursor, more, route, decode);
          && rest.next == total.next
          && queue + rest.jobs == old(queue) + total.jobs
          && outbox + rest.out == old(outbox) + total.out
        decreases |inbox| - cursor
      {
        ghost var r := TierRound(inbox, cursor, route, decode);
        ghost var rest := ReadTiers(inbox, r.next, r.more, route, decode);
        ghost var q, o := queue, outbox;
        RoundThenRest(inbox, cursor, route, decode);
        ReceiveTier(route, decode);
        Associative(q, r.jobs, rest.jobs);
        Associative(o, r.out, rest.out);
      }
      assert queue + [] == queue && outbox + [] == outbox;
    }

    /** `process`: reads one request unit if a frame is pending. */
    method Process(decode: Decoder)
      requires Valid()
      modifies this`cursor, this`more, this`queue, this`outbox
      ensures Valid()
      ensures old(cursor) == |inbox| ==>
        cursor == old(cursor) && queue == old(queue) && outbox == old(outbox)
      ensures old(cursor) < |inbox| ==>
        var u := ReadUnit(inbox, old(cursor), decode);
        cursor == u.next && queue == old(queue) + u.jobs && outbox == old(outbox) + u.out
    {
      if !Pending() {
        // the watcher restart is not modelled
        return;
      }
      var route := ReceiveRoute();
      if route == [] || !more {
        // a corrupted request: no route
        return;
      }
      ReceiveTiers(route, decode);
    }
  }
}
