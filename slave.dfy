/**
 * The lifecycle of one supervised worker process (a "slave"):
 * `unknown`, then the composite state `alive` (inner states `idle` and `busy`),
 * then the terminal state `dead`.  The job slot lives in `alive`.
 *
 * The reaction lists are those of the boost.statechart declaration.  An event for
 * which neither the innermost state nor any enclosing state declares a reaction is
 * discarded, which is boost.statechart's default for an unconsumed event.
 */
module Slaves {
  import opened Wrappers

  /** The job a busy slave executes; job_t itself is not part of this model. */
  datatype JobRef = JobRef(id: nat)

  /** The inner states of `alive`. */
  datatype Activity = Idle | Busy

  /** The outer states; `Alive` carries its inner state and its job slot. */
  datatype State =
    | Unknown
    | Alive(activity: Activity, job: Option<JobRef>)
    | Dead

  datatype Event = Heartbeat | Terminated | Invoked(job: JobRef) | Choked

  /**
   * The transition table: the state after `e` in `s`, and whether a reaction
   * consumed `e`.  Reactions are tried innermost first, so in `alive/busy` a
   * heartbeat reaches the in-state reaction of `alive`.
   */
  function Step(s: State, e: Event): (State, bool)
  {
    match s
    case Unknown =>
      (match e
       case Heartbeat => (Alive(Idle, None), true)
       case Terminated => (Dead, true)
       case _ => (s, false))
    case Alive(activity, job) =>
      (match e
       case Heartbeat => (s, true)
       case Terminated => (Dead, true)
       case Invoked(j) => if activity == Idle then (Alive(Busy, Some(j)), true) else (s, false)
       case Choked => if activity == Busy then (Alive(Idle, None), true) else (s, false))
    case Dead => (s, false)
  }

  /** A job is held exactly while the slave is `alive/busy`. */
  predicate Consistent(s: State)
  {
    s.Alive? ==> (s.activity == Busy <==> s.job.Some?)
  }

  /** The state after a sequence of events. */
  function Run(s: State, es: seq<Event>): State
    decreases |es|
  {
    if es == [] then s else Run(Step(s, es[0]).0, es[1..])
  }

  /** The invoked and choked events that some reaction consumed, in order. */
  function JobEvents(s: State, es: seq<Event>): seq<Event>
    decreases |es|
  {
    if es == [] then []
    else
      var (s', handled) := Step(s, es[0]);
      var here := if handled && (es[0].Invoked? || es[0].Choked?) then [es[0]] else [];
      here + JobEvents(s', es[1..])
  }

  /** Every event is either consumed by a reaction of the exact kind the table lists, or ignored. */
  lemma StepTable(s: State, e: Event)
    ensures var (s', handled) := Step(s, e);
      && (handled <==>
            || (s.Unknown? && (e.Heartbeat? || e.Terminated?))
            || (s.Alive? && (e.Heartbeat? || e.Terminated?))
            || (s.Alive? && s.activity == Idle && e.Invoked?)
            || (s.Alive? && s.activity == Busy && e.Choked?))
      && (!handled ==> s' == s)
      && (e.Terminated? && !s.Dead? ==> s' == Dead)
      && (s.Unknown? && e.Heartbeat? ==> s' == Alive(Idle, None))
      && (s.Alive? && e.Heartbeat? ==> s' == s)
      && (s.Alive? && s.activity == Idle && e.Invoked? ==> s' == Alive(Busy, Some(e.job)))
      && (s.Alive? && s.activity == Busy && e.Choked? ==> s' == Alive(Idle, None))
  {
  }

  /** Each step keeps the job slot tied to `busy`. */
  lemma StepConsistent(s: State, e: Event)
    requires Consistent(s)
    ensures Consistent(Step(s, e).0)
  {
  }

  /** Any sequence of events keeps the job slot tied to `busy`. */
  lemma {:induction false} RunConsistent(s: State, es: seq<Event>)
    requires Consistent(s)
    ensures Consistent(Run(s, es))
    decreases |es|
  {
    if es != [] {
      StepConsistent(s, es[0]);
      RunConsistent(Step(s, es[0]).0, es[1..]);
    }
  }

  /** `dead` declares no reactions: no sequence of events leaves it. */
  lemma {:induction false} DeadIsTerminal(es: seq<Event>)
    ensures Run(Dead, es) == Dead
    ensures JobEvents(Dead, es) == []
    decreases |es|
  {
    if es != [] {
      DeadIsTerminal(es[1..]);
    }
  }

  /** Once `dead` is reached, it is kept for the rest of any run. */
  lemma {:induction false} RunReachesDeadForever(s: State, es: seq<Event>, k: nat)
    requires k <= |es|
    requires Run(s, es[..k]) == Dead
    ensures Run(s, es) == Dead
    decreases |es|
  {
    if k == 0 {
      assert es[..0] == [];
      DeadIsTerminal(es);
    } else {
      assert es[..k][0] == es[0];
      assert es[..k][1..] == es[1..][..k - 1];
      RunReachesDeadForever(Step(s, es[0]).0, es[1..], k - 1);
    }
  }

  /** The consumed job events alternate strictly, starting with an invocation. */
  ghost predicate Alternating(t: seq<Event>, next: Activity)
  {
    forall i :: 0 <= i < |t| ==>
      (t[i].Invoked? || t[i].Choked?) &&
      (t[i].Invoked? <==> ((i % 2 == 0) == (next == Idle)))
  }

  /** A job event of the expected kind, followed by an alternation starting with the other kind. */
  lemma AlternatingCons(e: Event, rest: seq<Event>, next: Activity)
    requires (e.Invoked? || e.Choked?) && (e.Invoked? <==> next == Idle)
    requires Alternating(rest, if next == Idle then Busy else Idle)
    ensures Alternating([e] + rest, next)
  {
    forall i | 0 <= i < |[e] + rest|
      ensures ([e] + rest)[i].Invoked? <==> ((i % 2 == 0) == (next == Idle))
    {
      if i > 0 {
        assert ([e] + rest)[i] == rest[i - 1];
      }
    }
  }

  /**
   * Along any run, consumed `invoked` and `choked` events strictly alternate:
   * never two invocations without a choke between them.  From `unknown` or
   * `alive/idle` the first consumed one is an invocation; from `alive/busy` it is a choke.
   */
  lemma {:induction false} JobEventsAlternate(s: State, es: seq<Event>)
    ensures Alternating(JobEvents(s, es), if s.Alive? && s.activity == Busy then Busy else Idle)
    decreases |es|
  {
    if es != [] {
      var (s', handled) := Step(s, es[0]);
      var next := if s.Alive? && s.activity == Busy then Busy else Idle;
      var next' := if s'.Alive? && s'.activity == Busy then Busy else Idle;
      JobEventsAlternate(s', es[1..]);
      var rest := JobEvents(s', es[1..]);
      if handled && (es[0].Invoked? || es[0].Choked?) {
        assert next' != next && (es[0].Invoked? <==> next == Idle);
        assert JobEvents(s, es) == [es[0]] + rest;
        AlternatingCons(es[0], rest, next);
      } else {
        assert next' == next || s'.Dead?;
        if s'.Dead? {
          DeadIsTerminal(es[1..]);
        }
        assert JobEvents(s, es) == rest;
      }
    }
  }

  /** A supervised worker: the state machine object of the engine. */
  class Slave {
    /** The slave's identity, fixed at construction. */
    const identity: string
    /** The current state of the machine, job slot included. */
    var state: State

    ghost predicate Valid()
      reads this
    {
      Consistent(state)
    }

    /** A new slave starts in `unknown`. */
    constructor (identity: string)
      ensures Valid()
      ensures this.identity == identity && state == Unknown
    {
      this.identity := identity;
      state := Unknown;
    }

    /** Heartbeat: `unknown` goes to `alive/idle`; in `alive` it is an in-state reaction. */
    method OnHeartbeat() returns (handled: bool)
      requires Valid()
      modifies this
      ensures Valid()
      ensures (state, handled) == Step(old(state), Heartbeat)
      ensures handled <==> !old(state).Dead?
    {
      match state
      case Unknown =>
        state := Alive(Idle, None);
        handled := true;
      case Alive(_, _) =>
        handled := true;
      case Dead =>
        handled := false;
    }

    /** Terminated: `unknown` and both inner states of `alive` go to `dead`; the job slot is discarded. */
    method OnTerminated() returns (handled: bool)
      requires Valid()
      modifies this
      ensures Valid()
      ensures (state, handled) == Step(old(state), Terminated)
      ensures state == Dead
      ensures handled <==> !old(state).Dead?
    {
      handled := !state.Dead?;
      state := Dead;
    }

    /** Invoked: only `alive/idle` reacts, moving to `busy` and recording the job. */
    method OnInvoked(job: JobRef) returns (handled: bool)
      requires Valid()
      modifies this
      ensures Valid()
      ensures (state, handled) == Step(old(state), Invoked(job))
      ensures handled <==> old(state) == Alive(Idle, None)
      ensures handled ==> state == Alive(Busy, Some(job))
    {
      if state.Alive? && state.activity == Idle {
        state := Alive(Busy, Some(job));
        handled := true;
      } else {
        handled := false;
      }
    }

    /** Choked: only `alive/busy` reacts, moving back to `idle` and clearing the job slot. */
    method OnChoked() returns (handled: bool)
      requires Valid()
      modifies this
      ensures Valid()
      ensures (state, handled) == Step(old(state), Choked)
      ensures handled <==> old(state).Alive? && old(state).activity == Busy
      ensures handled ==> state == Alive(Idle, None)
    {
      if state.Alive? && state.activity == Busy {
        state := Alive(Idle, None);
        handled := true;
      } else {
        handled := false;
      }
    }

    /** `busy::job()`: the job held by the enclosing `alive` state; only `busy` offers it. */
    function BusyJob(): (j: JobRef)
      reads this
      requires Valid()
      requires state.Alive? && state.activity == Busy
      ensures state.job == Some(j)
    {
      state.job.value
    }
  }
}
