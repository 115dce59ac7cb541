/**
 * The request lock and wait queue that htmx keeps on each sync element: xhr, abortable
 * and queuedRequests, with the drop, abort, replace and queue strategies. The lock is
 * re-entrant: aborting the current request releases the lock and starts a waiting
 * request inside the call that asked for the abort.
 *
 * One element's lock is modelled; locks of different elements share nothing. A call to
 * abort() runs the request's onabort handler synchronously, as browsers do for a
 * request in flight, and event listeners of the page start no request of their own.
 */
module RequestLock {
  import opened Prelude

  /** What happens to a request that must wait; NoQueue is any unknown word. */
  datatype QueueKind = First | Last | All | NoQueue

  /** The hx-sync strategy; Unsynced also stands for a word that names none. */
  datatype Strategy = Unsynced | Drop | AbortSelf | Replace | Queue(kind: QueueKind)

  /**
   * What becomes of a request once it has the lock. Sent: it is in flight. GivenUp: one
   * of the exits before sending is taken, which give the lock back: prompt or confirm
   * refused, a cancelled htmx:prompt, htmx:configRequest or htmx:beforeRequest event,
   * failed validation, or a rejected path. Threw: an exception leaves the function
   * between taking the lock and sending: a script in hx-headers or hx-vals, a malformed
   * path, or a failing open.
   */
  datatype Outcome = Sent | GivenUp | Threw

  /** One trigger of an element. `eventQueue` is the queue modifier of its trigger. */
  datatype Request = Request(
    id: nat, elt: nat, strategy: Strategy, eventQueue: Option<QueueKind>, outcome: Outcome)

  function KindOf(r: Request): QueueKind
  {
    match r.strategy
    case Queue(kind) => kind
    case _ => if r.eventQueue.Some? then r.eventQueue.value else Last
  }

  /** A request's turn: it took the lock, or its element had left the document. */
  datatype Turn = Turn(r: Request, took: bool)

  /**
   * The lock with its surroundings: `live` are the requests in flight, `detached` the
   * elements no longer in the document. `taken`, `released`, `turns` and `since` are
   * logs: who took the lock, which requests' closures released it, whose turn it was,
   * and who came to wait since the last turn.
   */
  datatype Lock = Lock(
    xhr: Option<nat>, abortable: bool, queue: seq<Request>,
    live: set<nat>, next: nat, detached: set<nat>,
    taken: seq<Request>, released: seq<nat>, turns: seq<Turn>, since: seq<Request>)

  const FREE: Lock := Lock(None, false, [], {}, 0, {}, [], [], [], [])

  function Enqueued(queue: seq<Request>, r: Request): seq<Request>
  {
    match KindOf(r)
    case First => if queue == [] then [r] else queue
    case All => queue + [r]
    case Last => [r]
    case NoQueue => queue
  }

  function Acquire(s: Lock, r: Request): Lock
  {
    s.(xhr := Some(s.next), abortable := r.strategy == AbortSelf, next := s.next + 1,
       taken := s.taken + [r], turns := s.turns + [Turn(r, true)], since := [])
  }

  /** A waiting request whose element has left the document has its turn and returns. */
  function Passed(s: Lock, r: Request): Lock
  {
    if r.elt in s.detached then s.(turns := s.turns + [Turn(r, false)], since := []) else s
  }

  /** The lock given back by the closure of the request `id`. */
  function Freed(s: Lock, id: nat): Lock
  {
    s.(xhr := None, abortable := false, released := s.released + [id])
  }

  /** issueAjaxRequest from the guards to the moment the request is sent or the call is left. */
  function Issue(s: Lock, r: Request): (t: Lock)
    ensures |t.queue| <= |s.queue| + 1
    decreases |s.queue|, 2
  {
    if r.elt in s.detached then s
    else if r.strategy == Drop && s.xhr.Some? && !s.abortable then s
    else if r.strategy == AbortSelf && s.xhr.Some? then s
    else
      var s1 := if r.strategy == Replace then Abort(s) else s;
      if s1.xhr.Some? && !s1.abortable then s1.(queue := Enqueued(s1.queue, r), since := s1.since + [r])
      else
        Start(if s1.xhr.Some? then Abort(s1) else s1, r)
  }

  /** Take the lock; what happens then is the request's outcome. An exception leaves the lock taken. */
  function Start(s: Lock, r: Request): (t: Lock)
    ensures |t.queue| <= |s.queue|
    decreases |s.queue|, 1
  {
    match r.outcome
    case Sent => Acquire(s, r).(live := s.live + {s.next})
    case GivenUp => EndLock(Acquire(s, r), s.next)
    case Threw => Acquire(s, r)
  }

  /** The htmx:abort event at the sync element. */
  function Abort(s: Lock): (t: Lock)
    ensures |t.queue| <= |s.queue|
    decreases |s.queue|, 1
  {
    if s.xhr.Some? && s.xhr.value in s.live
    then EndLock(s.(live := s.live - {s.xhr.value}), s.xhr.value)
    else s
  }

  /** endRequestLock, the closure of the request `id`. */
  function EndLock(s: Lock, id: nat): (t: Lock)
    ensures |t.queue| <= |s.queue|
    decreases |s.queue|, 0
  {
    if s.queue == [] then Freed(s, id) else Issue(Passed(Freed(s, id).(queue := s.queue[1..]), s.queue[0]), s.queue[0])
  }

  // ---------------------------------------------------------------------------
  // The same in place
  // ---------------------------------------------------------------------------

  class SyncElement {
    var xhr: Option<nat>
    var abortable: bool
    var queuedRequests: seq<Request>
    var live: set<nat>
    var next: nat
    var detached: set<nat>
    ghost var taken: seq<Request>
    ghost var released: seq<nat>
    ghost var turns: seq<Turn>
    ghost var since: seq<Request>

    ghost function View(): Lock
      reads this
    {
      Lock(xhr, abortable, queuedRequests, live, next, detached, taken, released, turns, since)
    }

    constructor ()
      ensures View() == FREE
    {
      xhr, abortable, queuedRequests := None, false, [];
      live, next, detached := {}, 0, {};
      taken, released, turns, since := [], [], [], [];
    }

    method IssueAjaxRequest(r: Request)
      modifies this
      ensures View() == Issue(old(View()), r)
      decreases |queuedRequests|, 2
    {
      if r.elt in detached {
        return;
      }
      var makeAbortable := false;
      if r.strategy == Drop && xhr.Some? && !abortable {
        return;
      } else if r.strategy == AbortSelf {
        if xhr.Some? {
          return;
        } else {
          makeAbortable := true;
        }
      } else if r.strategy == Replace {
        TriggerAbort();
      }
      if xhr.Some? {
        if abortable {
          TriggerAbort();
        } else {
          Wait(r);
          return;
        }
      }
      TakeLock(r, makeAbortable);
    }

    /** The request cannot run now: queue it as its strategy says. */
    method Wait(r: Request)
      modifies this
      ensures View() == old(View()).(queue := Enqueued(old(queuedRequests), r), since := old(since) + [r])
    {
      var queueStrategy := KindOf(r);
      if queueStrategy == First && |queuedRequests| == 0 {
        queuedRequests := queuedRequests + [r];
      } else if queueStrategy == All {
        queuedRequests := queuedRequests + [r];
      } else if queueStrategy == Last {
        queuedRequests := [];
        queuedRequests := queuedRequests + [r];
      }
      since := since + [r];
    }

    /** Take the lock, then send the request, give it up, or leave by an exception. */
    method TakeLock(r: Request, makeAbortable: bool)
      requires makeAbortable == (r.strategy == AbortSelf)
      modifies this
      ensures View() == Start(old(View()), r)
      decreases |queuedRequests|, 1
    {
      var id := next;
      next := next + 1;
      xhr := Some(id);
      abortable := makeAbortable;
      taken, turns, since := taken + [r], turns + [Turn(r, true)], [];
      match r.outcome {
        case Sent => live := live + {id};
        case GivenUp => EndRequestLock(id);
        case Threw =>
      }
    }

    method TriggerAbort()
      modifies this
      ensures View() == Abort(old(View()))
      ensures |queuedRequests| <= old(|queuedRequests|)
      decreases |queuedRequests|, 1
    {
      if xhr.Some? && xhr.value in live {
        var id := xhr.value;
        live := live - {id};
        EndRequestLock(id);
      }
    }

    method EndRequestLock(id: nat)
      modifies this
      ensures View() == EndLock(old(View()), id)
      ensures |queuedRequests| <= old(|queuedRequests|)
      decreases |queuedRequests|, 0
    {
      xhr := None;
      abortable := false;
      released := released + [id];
      if |queuedRequests| > 0 {
        var queuedRequest := queuedRequests[0];
        queuedRequests := queuedRequests[1..];
        if queuedRequest.elt in detached {
          turns, since := turns + [Turn(queuedRequest, false)], [];
        }
        IssueAjaxRequest(queuedRequest);
      }
    }

    /** onload, onerror or ontimeout of a request in flight. */
    method Settle(id: nat)
      requires id in live
      modifies this
      ensures View() == Next(old(View()), Done(id))
    {
      live := live - {id};
      EndRequestLock(id);
    }
  }

  // ---------------------------------------------------------------------------
  // Runs
  // ---------------------------------------------------------------------------

  datatype Step = Trigger(r: Request) | Done(id: nat) | AbortEvent | Detach(elt: nat)

  function Next(s: Lock, step: Step): Lock
  {
    match step
    case Trigger(r) => Issue(s, r)
    case Done(id) => if id in s.live then EndLock(s.(live := s.live - {id}), id) else s
    case AbortEvent => Abort(s)
    case Detach(elt) => s.(detached := s.detached + {elt})
  }

  function Run(steps: seq<Step>): Lock
  {
    if steps == [] then FREE else Next(Run(steps[..|steps| - 1]), steps[|steps| - 1])
  }

  // ---------------------------------------------------------------------------
  // Every taking of the lock ends once, unless by an exception
  // ---------------------------------------------------------------------------

  /** The requests of these turns, and those of them that took the lock. */
  function Asked(turns: seq<Turn>): seq<Request>
  {
    seq(|turns|, i requires 0 <= i < |turns| => turns[i].r)
  }

  function Took(turns: seq<Turn>): seq<Request>
  {
    if turns == [] then []
    else
      var last := turns[|turns| - 1];
      Took(turns[..|turns| - 1]) + if last.took then [last.r] else []
  }

  /** Numbers handed out and not in flight, released, pending or leaked by an exception do not exist. */
  predicate Accounted(s: Lock, pending: set<nat>)
  {
    && |s.taken| == s.next
    && (forall id <- s.live :: id < s.next && s.taken[id].outcome.Sent? && id !in s.released && id !in pending)
    && (forall i | 0 <= i < |s.released| ::
          s.released[i] < s.next && !s.taken[s.released[i]].outcome.Threw? && s.released[i] !in pending)
    && (forall i, j | 0 <= i < j < |s.released| :: s.released[i] != s.released[j])
    && (forall id <- pending :: id < s.next && !s.taken[id].outcome.Threw?)
    && (forall id | 0 <= id < s.next ::
          id in s.live || id in s.released || id in pending || s.taken[id].outcome.Threw?)
  }

  /** The lock is held by the latest number handed out to it, with that request's strategy. */
  predicate HeldBy(s: Lock)
  {
    && (s.xhr.None? ==> !s.abortable)
    && (s.xhr.Some? ==> s.xhr.value < |s.taken| && s.xhr.value !in s.released
                        && s.abortable == (s.taken[s.xhr.value].strategy == AbortSelf))
  }

  predicate Books(s: Lock, pending: set<nat>)
  {
    Accounted(s, pending) && HeldBy(s) && s.taken == Took(s.turns)
  }

  lemma TookMore(turns: seq<Turn>, turn: Turn)
    ensures Took(turns + [turn]) == Took(turns) + if turn.took then [turn.r] else []
  {
    assert (turns + [turn])[..|turns|] == turns;
  }

  /** Giving the lock back settles one pending number. */
  lemma FreedBooks(s: Lock, id: nat)
    requires Books(s, {id})
    ensures Books(Freed(s, id), {})
  {
    assert forall x :: x in s.released + [id] <==> x in s.released || x == id;
  }

  lemma AcquireBooks(s: Lock, r: Request)
    requires Books(s, {})
    ensures r.outcome.Sent? ==> Books(Acquire(s, r).(live := s.live + {s.next}), {})
    ensures r.outcome.GivenUp? ==> Books(Acquire(s, r), {s.next})
    ensures r.outcome.Threw? ==> Books(Acquire(s, r), {})
  {
    TookMore(s.turns, Turn(r, true));
    hide Took;
    assert forall id | 0 <= id < s.next :: (s.taken + [r])[id] == s.taken[id];
    assert forall x <- s.released :: x < s.next;
  }

  lemma PassedBooks(s: Lock, r: Request)
    requires Books(s, {})
    ensures Books(Passed(s, r), {})
  {
    TookMore(s.turns, Turn(r, false));
    assert s.taken + [] == s.taken;
  }

  lemma {:induction false} EndBooks(s: Lock, id: nat)
    requires Books(s, {id})
    ensures Books(EndLock(s, id), {})
    decreases |s.queue|, 0
  {
    FreedBooks(s, id);
    if s.queue != [] {
      var next := Freed(s, id).(queue := s.queue[1..]);
      assert Books(next, {});
      PassedBooks(next, s.queue[0]);
      hide Books;
      IssueBooks(Passed(next, s.queue[0]), s.queue[0]);
    }
  }

  lemma {:induction false} AbortBooks(s: Lock)
    requires Books(s, {})
    ensures Books(Abort(s), {})
    decreases |s.queue|, 1
  {
    if s.xhr.Some? && s.xhr.value in s.live {
      EndBooks(s.(live := s.live - {s.xhr.value}), s.xhr.value);
    }
  }

  lemma {:induction false} StartBooks(s: Lock, r: Request)
    requires Books(s, {})
    ensures Books(Start(s, r), {})
    decreases |s.queue|, 1
  {
    AcquireBooks(s, r);
    hide Books;
    if r.outcome.GivenUp? {
      EndBooks(Acquire(s, r), s.next);
    }
  }

  lemma {:induction false} IssueBooks(s: Lock, r: Request)
    requires Books(s, {})
    ensures Books(Issue(s, r), {})
    decreases |s.queue|, 2
  {
    hide Books;
    AbortBooks(s);
    var s1 := if r.strategy == Replace then Abort(s) else s;
    assert Books(s1.(queue := Enqueued(s1.queue, r), since := s1.since + [r]), {}) by {
      WaitBooks(s1, r);
    }
    AbortBooks(s1);
    StartBooks(if s1.xhr.Some? then Abort(s1) else s1, r);
  }

  lemma WaitBooks(s: Lock, r: Request)
    requires Books(s, {})
    ensures Books(s.(queue := Enqueued(s.queue, r), since := s.since + [r]), {})
  {
  }

  lemma StepBooks(s: Lock, step: Step)
    requires Books(s, {})
    ensures Books(Next(s, step), {})
  {
    match step {
      case Trigger(r) => IssueBooks(s, r);
      case Done(id) =>
        if id in s.live {
          EndBooks(s.(live := s.live - {id}), id);
        }
      case AbortEvent => AbortBooks(s);
      case Detach(elt) =>
    }
  }

  lemma {:induction false} RunBooks(steps: seq<Step>)
    ensures Books(Run(steps), {})
  {
    if steps != [] {
      RunBooks(steps[..|steps| - 1]);
      StepBooks(Run(steps[..|steps| - 1]), steps[|steps| - 1]);
    }
  }

  /**
   * In every run each taking of the lock is in flight, or was released exactly once, or
   * was left by an exception; so all are live or released if and only if none threw. A
   * lock that is held is held by a request in flight unless that request threw.
   */
  lemma EveryTakingEnds(steps: seq<Step>)
    ensures var s := Run(steps);
            && |s.taken| == s.next
            && (forall id | 0 <= id < s.next ::
                  && (id in s.live || id in s.released <==> !s.taken[id].outcome.Threw?)
                  && !(id in s.live && id in s.released))
            && (forall i, j | 0 <= i < j < |s.released| :: s.released[i] != s.released[j])
            && ((forall id | 0 <= id < s.next :: id in s.live || id in s.released)
                  <==> forall r <- s.taken :: !r.outcome.Threw?)
            && (s.xhr.Some? ==>
                  s.xhr.value < s.next && (s.xhr.value in s.live <==> !s.taken[s.xhr.value].outcome.Threw?))
  {
    RunBooks(steps);
    var s := Run(steps);
    hide Run, Took;
    assert forall i | 0 <= i < |s.taken| :: s.taken[i] in s.taken;
  }

  // ---------------------------------------------------------------------------
  // A lock left by an exception
  // ---------------------------------------------------------------------------

  function Resume(s: Lock, steps: seq<Step>): Lock
  {
    if steps == [] then s else Next(Resume(s, steps[..|steps| - 1]), steps[|steps| - 1])
  }

  /** Held, not abortable, and nobody in flight who could give the lock back. */
  predicate Stuck(s: Lock)
  {
    s.xhr.Some? && !s.abortable && s.live == {}
  }

  lemma StuckStep(s: Lock, step: Step)
    requires Stuck(s)
    ensures Stuck(Next(s, step)) && Next(s, step).taken == s.taken
  {
    assert Abort(s) == s;
  }

  lemma {:induction false} StuckForever(s: Lock, steps: seq<Step>)
    requires Stuck(s)
    ensures Stuck(Resume(s, steps)) && Resume(s, steps).taken == s.taken
  {
    if steps != [] {
      StuckForever(s, steps[..|steps| - 1]);
      StuckStep(Resume(s, steps[..|steps| - 1]), steps[|steps| - 1]);
    }
  }

  lemma {:induction false} EndTakes(s: Lock, id: nat)
    ensures |EndLock(s, id).taken| >= |s.taken| && EndLock(s, id).detached == s.detached
    ensures |EndLock(s, id).taken| > |s.taken| || EndLock(s, id).xhr.None?
    decreases |s.queue|, 0
  {
    if s.queue != [] {
      var r, next := s.queue[0], Passed(Freed(s, id).(queue := s.queue[1..]), s.queue[0]);
      if r.elt !in s.detached {
        assert Issue(next, r) == Start(next, r);
        if r.outcome.GivenUp? {
          EndTakes(Acquire(next, r), next.next);
        }
      }
    }
  }

  lemma StartTakes(s: Lock, r: Request)
    ensures |Start(s, r).taken| > |s.taken|
  {
    if r.outcome.GivenUp? {
      EndTakes(Acquire(s, r), s.next);
    }
  }

  /** A plain request takes a lock that is free or abortable. */
  lemma PlainTakes(s: Lock, r: Request)
    requires r.strategy.Unsynced? && r.elt !in s.detached && (s.xhr.None? || s.abortable)
    ensures |Issue(s, r).taken| > |s.taken|
  {
    if s.xhr.Some? {
      if s.xhr.value in s.live {
        EndTakes(s.(live := s.live - {s.xhr.value}), s.xhr.value);
      }
      StartTakes(Abort(s), r);
    } else {
      StartTakes(s, r);
    }
  }

  lemma {:induction false} Fresh(used: set<nat>) returns (n: nat)
    ensures n !in used && forall e <- used :: e < n
  {
    if used == {} {
      n := 0;
    } else {
      var e :| e in used;
      var m := Fresh(used - {e});
      assert forall x <- used :: x == e || x in used - {e};
      n := if e < m then m else e + 1;
    }
  }

  ghost predicate CanTake(s: Lock)
  {
    exists steps :: Takes(s, steps)
  }

  predicate Takes(s: Lock, steps: seq<Step>)
  {
    |Resume(s, steps).taken| > |s.taken|
  }

  lemma ResumeOne(s: Lock, a: Step)
    ensures Resume(s, [a]) == Next(s, a)
  {
    assert [a][..0] == [];
  }

  lemma ResumeTwo(s: Lock, a: Step, b: Step)
    ensures Resume(s, [a, b]) == Next(Next(s, a), b)
  {
    assert [a, b][..1] == [a];
    ResumeOne(s, a);
  }

  /** Exactly when no request can ever take the lock again. */
  lemma StuckExactly(s: Lock)
    ensures CanTake(s) <==> !Stuck(s)
  {
    if Stuck(s) {
      forall steps
        ensures !Takes(s, steps)
      {
        StuckForever(s, steps);
      }
    } else {
      var steps := WayToTake(s);
      assert Takes(s, steps);
    }
  }

  lemma WayToTake(s: Lock) returns (steps: seq<Step>)
    requires !Stuck(s)
    ensures Takes(s, steps)
  {
    var elt := Fresh(s.detached);
    var plain := Trigger(Request(0, elt, Unsynced, None, Sent));
    if s.xhr.None? || s.abortable {
      PlainTakes(s, plain.r);
      ResumeOne(s, plain);
      steps := [plain];
    } else {
      var id :| id in s.live;
      EndTakes(s.(live := s.live - {id}), id);
      var t := Next(s, Done(id));
      ResumeOne(s, Done(id));
      if |t.taken| > |s.taken| {
        steps := [Done(id)];
      } else {
        PlainTakes(t, plain.r);
        ResumeTwo(s, Done(id), plain);
        steps := [Done(id), plain];
      }
    }
  }

  // ---------------------------------------------------------------------------
  // At most one live request, and a free lock has an empty queue
  // ---------------------------------------------------------------------------

  /** At most one request is live, it holds the lock, and a free lock has nobody waiting. */
  predicate OneLive(s: Lock)
  {
    && (s.xhr.None? ==> s.queue == [] && s.live == {})
    && (s.xhr.Some? ==> s.live <= {s.xhr.value})
  }

  predicate NoAborters(queue: seq<Request>) {
    forall r <- queue :: r.strategy != AbortSelf
  }

  /** What holds between calls. */
  predicate Inv(s: Lock)
  {
    && OneLive(s) && NoAborters(s.queue)
    && (s.abortable ==> s.xhr.Some? && s.queue == [])
  }

  /**
   * Giving the lock back reaches a request that returns at the guards, with more behind
   * it: a re-issued request that returns before the lock does not start the next.
   */
  predicate Strands(queue: seq<Request>, detached: set<nat>)
  {
    queue != [] &&
      if queue[0].elt in detached then |queue| > 1
      else queue[0].outcome.GivenUp? && Strands(queue[1..], detached)
  }

  /** What is left waiting then. */
  function Stranded(queue: seq<Request>, detached: set<nat>): (rest: seq<Request>)
    requires Strands(queue, detached)
    ensures rest != [] && |rest| < |queue|
  {
    if queue[0].elt in detached then queue[1..] else Stranded(queue[1..], detached)
  }

  /**
   * What giving the lock back leads to, from a state with nobody in flight: a good state,
   * or a free lock with the stranded requests waiting.
   */
  lemma {:induction false} EndLockInv(s: Lock, id: nat)
    requires s.live == {} && NoAborters(s.queue)
    ensures var t := EndLock(s, id);
            && t.detached == s.detached
            && if Strands(s.queue, s.detached)
               then t.xhr.None? && t.live == {} && !t.abortable && t.queue == Stranded(s.queue, s.detached) && NoAborters(t.queue)
               else Inv(t)
    decreases |s.queue|, 0
  {
    if s.queue != [] {
      var r, next := s.queue[0], Passed(Freed(s, id).(queue := s.queue[1..]), s.queue[0]);
      assert forall q <- s.queue[1..] :: q in s.queue;
      assert r in s.queue;
      if r.elt !in s.detached {
        assert Issue(next, r) == Start(next, r);
        if r.outcome.GivenUp? {
          EndLockInv(Acquire(next, r), next.next);
        }
      }
    }
  }

  /** A lock given back is left free with requests still waiting exactly when the queue strands. */
  lemma {:induction false} StrandedExactly(s: Lock, id: nat)
    ensures (EndLock(s, id).xhr.None? && EndLock(s, id).queue != []) <==> Strands(s.queue, s.detached)
    decreases |s.queue|
  {
    if s.queue != [] && s.queue[0].elt !in s.detached {
      var r, next := s.queue[0], Freed(s, id).(queue := s.queue[1..]);
      assert Issue(next, r) == Start(next, r);
      if r.outcome.GivenUp? {
        StrandedExactly(Acquire(next, r), next.next);
      }
    }
  }

  /** Nobody can strand who waits alone. */
  lemma ShortNeverStrands(queue: seq<Request>, detached: set<nat>)
    requires |queue| <= 1
    ensures !Strands(queue, detached)
  {
    if queue != [] {
      assert queue[1..] == [];
    }
  }

  predicate HolderLive(s: Lock)
  {
    s.xhr.Some? && s.xhr.value in s.live
  }

  /**
   * The step strands requests: the end or abort of the holder does; or a `replace`
   * request that aborts the holder does and, itself given up, strands what is left.
   * Otherwise the new request takes the lock that was left free.
   */
  predicate StrandsAt(s: Lock, step: Step)
  {
    match step
    case Trigger(r) =>
      && r.elt !in s.detached && r.strategy == Replace && r.outcome.GivenUp?
      && HolderLive(s) && Strands(s.queue, s.detached)
      && Strands(Stranded(s.queue, s.detached), s.detached)
    case Done(id) => id in s.live && Strands(s.queue, s.detached)
    case AbortEvent => HolderLive(s) && Strands(s.queue, s.detached)
    case Detach(_) => false
  }

  /** Starting a request on a free lock with requests waiting, or on an empty queue. */
  lemma StartInv(s: Lock, r: Request)
    requires s.live == {} && NoAborters(s.queue) && (r.strategy == AbortSelf ==> s.queue == [])
    ensures Inv(Start(s, r)) <==> !(r.outcome.GivenUp? && Strands(s.queue, s.detached))
    ensures r.outcome.GivenUp? && Strands(s.queue, s.detached) ==> !OneLive(Start(s, r))
  {
    if r.outcome.GivenUp? {
      EndLockInv(Acquire(s, r), s.next);
    }
  }

  lemma AbortInv(s: Lock)
    requires Inv(s)
    ensures var t := Abort(s);
            && t.detached == s.detached
            && (s.abortable ==> t.live == {} && t.queue == [])
            && (!HolderLive(s) ==> t == s)
            && if HolderLive(s) && Strands(s.queue, s.detached)
               then t.xhr.None? && t.live == {} && t.queue == Stranded(s.queue, s.detached) && NoAborters(t.queue) && !t.abortable
               else Inv(t)
  {
    if HolderLive(s) {
      assert s.live - {s.xhr.value} == {};
      EndLockInv(s.(live := s.live - {s.xhr.value}), s.xhr.value);
    }
  }

  /** A request that comes after any abort of the old holder. */
  lemma LateIssueInv(s: Lock, r: Request)
    requires Inv(s) && (r.strategy == AbortSelf ==> s.xhr.None?)
    ensures var t := if s.xhr.Some? && !s.abortable then s.(queue := Enqueued(s.queue, r), since := s.since + [r])
                     else Start(if s.xhr.Some? then Abort(s) else s, r);
            Inv(t)
  {
    if s.xhr.None? {
      ShortNeverStrands(s.queue, s.detached);
      StartInv(s, r);
    } else if s.abortable {
      AbortInv(s);
      ShortNeverStrands(Abort(s).queue, s.detached);
      StartInv(Abort(s), r);
    }
  }

  lemma IssueInv(s: Lock, r: Request)
    requires Inv(s)
    ensures Inv(Issue(s, r)) <==> !StrandsAt(s, Trigger(r))
    ensures StrandsAt(s, Trigger(r)) ==> !OneLive(Issue(s, r))
  {
    if r.elt !in s.detached && !(r.strategy == Drop && s.xhr.Some? && !s.abortable)
       && !(r.strategy == AbortSelf && s.xhr.Some?)
    {
      if r.strategy == Replace && HolderLive(s) && Strands(s.queue, s.detached) {
        AbortInv(s);
        hide Strands, Abort, NoAborters;
        StartInv(Abort(s), r);
      } else if r.strategy == Replace {
        AbortInv(s);
        hide Strands, Abort, NoAborters;
        LateIssueInv(Abort(s), r);
      } else {
        LateIssueInv(s, r);
      }
    }
  }

  lemma NextInv(s: Lock, step: Step)
    requires Inv(s)
    ensures Inv(Next(s, step)) <==> !StrandsAt(s, step)
    ensures OneLive(Next(s, step)) <==> !StrandsAt(s, step)
  {
    match step {
      case Trigger(r) => IssueInv(s, r);
      case Done(id) =>
        if id in s.live {
          assert s.live - {id} == {};
          EndLockInv(s.(live := s.live - {id}), id);
        }
      case AbortEvent => AbortInv(s);
      case Detach(elt) =>
    }
  }

  predicate AlwaysOneLive(steps: seq<Step>)
  {
    OneLive(Run(steps)) && (steps == [] || AlwaysOneLive(steps[..|steps| - 1]))
  }

  predicate NeverStrands(steps: seq<Step>)
  {
    steps == [] || (NeverStrands(steps[..|steps| - 1]) && !StrandsAt(Run(steps[..|steps| - 1]), steps[|steps| - 1]))
  }

  lemma {:induction false} RunInv(steps: seq<Step>)
    requires NeverStrands(steps)
    ensures Inv(Run(steps))
  {
    if steps != [] {
      RunInv(steps[..|steps| - 1]);
      NextInv(Run(steps[..|steps| - 1]), steps[|steps| - 1]);
    }
  }

  /**
   * Exactly when, after every step of a run, at most one request is live, it holds the
   * lock, and a free lock has nobody waiting: when no step strands requests. Elements may
   * leave the document and requests may throw at any time.
   */
  lemma {:induction false} OneLiveExactly(steps: seq<Step>)
    ensures AlwaysOneLive(steps) <==> NeverStrands(steps)
  {
    if steps != [] {
      var before, step := steps[..|steps| - 1], steps[|steps| - 1];
      OneLiveExactly(before);
      if NeverStrands(before) {
        RunInv(before);
        NextInv(Run(before), step);
      }
    }
  }

  /** Exactly when a lock is stuck in such a run: its holder threw and cannot be aborted. */
  lemma StuckByThrow(steps: seq<Step>)
    requires NeverStrands(steps)
    ensures var s := Run(steps);
            Stuck(s) <==> s.xhr.Some? && s.xhr.value < |s.taken|
                          && s.taken[s.xhr.value].outcome.Threw? && s.taken[s.xhr.value].strategy != AbortSelf
  {
    RunInv(steps);
    RunBooks(steps);
    EveryTakingEnds(steps);
    hide Run;
  }

  const T := Request(0, 0, Unsynced, None, Threw)
  const W := Request(1, 0, Unsynced, None, Sent)

  /** The first request throws and keeps the lock; the second waits for ever. */
  lemma LeakedRun()
    ensures Run([Trigger(T), Trigger(W)])
         == Lock(Some(0), false, [W], {}, 1, {}, [T], [], [Turn(T, true)], [W])
    ensures !CanTake(Run([Trigger(T), Trigger(W)]))
  {
    var t := Next(FREE, Trigger(T));
    assert t == Lock(Some(0), false, [], {}, 1, {}, [T], [], [Turn(T, true)], []);
    assert Next(t, Trigger(W)) == t.(queue := [W], since := [W]);
    assert [Trigger(T), Trigger(W)][..1] == [Trigger(T)] && [Trigger(T)][..0] == [];
    assert Run([Trigger(T)]) == t;
    StuckExactly(Run([Trigger(T), Trigger(W)]));
  }

  // ---------------------------------------------------------------------------
  // What each queue strategy does over whole runs
  // ---------------------------------------------------------------------------

  /** What a step adds to the arrivals. */
  function Arrival(s: Lock, step: Step): seq<Request>
  {
    if step.Trigger? && step.r.elt !in s.detached then [step.r] else []
  }

  /** The requests that came past the guards, in trigger order. */
  function Arrivals(steps: seq<Step>): seq<Request>
  {
    if steps == [] then []
    else
      var before, step := steps[..|steps| - 1], steps[|steps| - 1];
      Arrivals(before) + Arrival(Run(before), step)
  }

  /**
   * The request only queues, and queues in this way: hx-sync says so; or it names no
   * strategy and the trigger says so; or neither says anything and this is `last`.
   */
  predicate QueuesAs(r: Request, kind: QueueKind)
  {
    || r.strategy == Queue(kind)
    || (r.strategy == Unsynced && r.eventQueue == Some(kind))
    || (r.strategy == Unsynced && r.eventQueue == None && kind == Last)
  }

  predicate OfKind(steps: seq<Step>, kind: QueueKind) {
    forall step <- steps :: step.Trigger? ==> QueuesAs(step.r, kind)
  }

  predicate Queueing(s: Lock)
  {
    !s.abortable && NoAborters(s.queue)
  }

  /** When the lock is given back, waiting requests have their turns in queue order. */
  lemma {:induction false} EndLockOrder(s: Lock, id: nat)
    ensures var t := EndLock(s, id);
            && Asked(t.turns) + t.queue == Asked(s.turns) + s.queue
            && |s.turns| <= |t.turns| && (s.queue != [] ==> |s.turns| < |t.turns|)
            && t.since == (if s.queue == [] then s.since else [])
            && (NoAborters(s.queue) ==> Queueing(t))
    decreases |s.queue|, 0
  {
    if s.queue != [] {
      var r, rest := s.queue[0], s.queue[1..];
      var next := Freed(s, id).(queue := rest);
      assert [r] + rest == s.queue && r in s.queue;
      assert forall q <- rest :: q in s.queue;
      if r.elt in s.detached {
        assert Asked(s.turns + [Turn(r, false)]) + rest == Asked(s.turns) + ([r] + rest);
      } else {
        assert Issue(next, r) == Start(next, r);
        StartOrder(next, r);
      }
    }
  }

  lemma {:induction false} StartOrder(s: Lock, r: Request)
    ensures var t := Start(s, r);
            && Asked(t.turns) + t.queue == Asked(s.turns) + ([r] + s.queue)
            && |s.turns| < |t.turns| && t.since == []
            && (NoAborters(s.queue) && r.strategy != AbortSelf ==> Queueing(t))
    decreases |s.queue|, 1
  {
    var held := Acquire(s, r);
    assert Asked(held.turns) + s.queue == Asked(s.turns) + ([r] + s.queue);
    if r.outcome.GivenUp? {
      EndLockOrder(held, s.next);
    }
  }

  /** At least the head of the queue has had its turn, and nobody else is lost or reordered. */
  lemma DrainTurns(s: Lock, t: Lock)
    requires Asked(t.turns) + t.queue == Asked(s.turns) + s.queue
    requires |s.turns| <= |t.turns| && (s.queue != [] ==> |s.turns| < |t.turns|)
    ensures s.queue != [] ==> Asked(s.turns) + [s.queue[0]] <= Asked(t.turns)
    ensures |s.queue| <= 1 ==> Asked(t.turns) == Asked(s.turns) + s.queue && t.queue == []
  {
    var all := Asked(s.turns) + s.queue;
    assert |Asked(t.turns)| == |t.turns| && all[..|t.turns|] == Asked(t.turns);
    if s.queue != [] {
      assert all[..|s.turns| + 1] == Asked(s.turns) + [s.queue[0]];
    }
  }

  /** When a live request ends, the turn is that of the head of the queue. */
  lemma DrainStartsWaiting(s: Lock, id: nat)
    requires id in s.live
    ensures var t := Next(s, Done(id));
            && Asked(t.turns) + t.queue == Asked(s.turns) + s.queue
            && (s.queue != [] ==> Asked(s.turns) + [s.queue[0]] <= Asked(t.turns))
            && (|s.queue| <= 1 ==> Asked(t.turns) == Asked(s.turns) + s.queue && t.queue == [])
  {
    EndLockOrder(s.(live := s.live - {id}), id);
    hide EndLock, Asked;
    DrainTurns(s, Next(s, Done(id)));
  }

  /** One step of a run in which requests only queue. */
  lemma QueueStep(s: Lock, step: Step, kind: QueueKind)
    requires Queueing(s) && OfKind([step], kind)
    ensures Queueing(Next(s, step))
    ensures var t := Next(s, step);
            match step
            case Trigger(r) =>
              if r.elt in s.detached then t == s
              else if s.xhr.Some? then t == s.(queue := Enqueued(s.queue, r), since := s.since + [r])
              else Asked(t.turns) + t.queue == Asked(s.turns) + ([r] + s.queue) && |s.turns| < |t.turns| && t.since == []
            case Detach(elt) => t == s.(detached := s.detached + {elt})
            case _ =>
              || t == s
              || (Asked(t.turns) + t.queue == Asked(s.turns) + s.queue
                  && |s.turns| <= |t.turns| && (s.queue != [] ==> |s.turns| < |t.turns|)
                  && t.since == if s.queue == [] then s.since else [])
  {
    match step {
      case Trigger(r) =>
        assert [step][0] == step;
        if r.elt !in s.detached && s.xhr.None? {
          StartOrder(s, r);
        }
      case Done(id) =>
        if id in s.live {
          EndLockOrder(s.(live := s.live - {id}), id);
        }
      case AbortEvent =>
        if HolderLive(s) {
          EndLockOrder(s.(live := s.live - {s.xhr.value}), s.xhr.value);
        }
      case Detach(elt) =>
    }
  }

  lemma {:induction false} AlwaysQueueing(steps: seq<Step>, kind: QueueKind)
    requires OfKind(steps, kind)
    ensures Queueing(Run(steps))
  {
    if steps != [] {
      AlwaysQueueing(steps[..|steps| - 1], kind);
      LastOfKind(steps, kind);
      QueueStep(Run(steps[..|steps| - 1]), steps[|steps| - 1], kind);
    }
  }

  lemma LastOfKind(steps: seq<Step>, kind: QueueKind)
    requires steps != [] && OfKind(steps, kind)
    ensures OfKind(steps[..|steps| - 1], kind) && OfKind([steps[|steps| - 1]], kind)
  {
  }

  /** A request comes to a free lock that others wait for, and is served first. */
  predicate Overtakes(s: Lock, step: Step)
  {
    step.Trigger? && step.r.elt !in s.detached && s.xhr.None? && s.queue != []
  }

  predicate NoOvertaking(steps: seq<Step>)
  {
    steps == [] || (NoOvertaking(steps[..|steps| - 1]) && !Overtakes(Run(steps[..|steps| - 1]), steps[|steps| - 1]))
  }

  /** Overtaking takes stranded requests. */
  lemma {:induction false} NeverOvertaken(steps: seq<Step>)
    requires NeverStrands(steps)
    ensures NoOvertaking(steps)
  {
    if steps != [] {
      NeverOvertaken(steps[..|steps| - 1]);
      RunInv(steps[..|steps| - 1]);
    }
  }

  /** The turns so far and then the queue are the arrivals, in trigger order. */
  predicate InOrder(steps: seq<Step>)
  {
    Asked(Run(steps).turns) + Run(steps).queue == Arrivals(steps)
  }

  predicate AlwaysInOrder(steps: seq<Step>)
  {
    InOrder(steps) && (steps == [] || AlwaysInOrder(steps[..|steps| - 1]))
  }

  /** Every trigger makes a request of its own. */
  predicate NewRequests(steps: seq<Step>)
  {
    steps == [] ||
      (NewRequests(steps[..|steps| - 1]) &&
       (steps[|steps| - 1].Trigger? ==> steps[|steps| - 1].r !in Arrivals(steps[..|steps| - 1])))
  }

  lemma InOrderStep(s: Lock, arrivals: seq<Request>, step: Step)
    requires Queueing(s) && OfKind([step], All) && Asked(s.turns) + s.queue == arrivals
    requires step.Trigger? ==> step.r !in arrivals
    ensures var t := Next(s, step);
            Asked(t.turns) + t.queue == arrivals + Arrival(s, step) <==> !Overtakes(s, step)
  {
    QueueStep(s, step, All);
    assert arrivals + [] == arrivals;
    if step.Trigger? {
      assert [step][0] == step;
    }
    var t, done := Next(s, step), Asked(s.turns);
    hide Next, Asked, OfKind;
    if step.Trigger? && step.r.elt !in s.detached {
      Regroup(done, s.queue, [step.r]);
      if s.xhr.None? && s.queue != [] {
        assert (done + ([step.r] + s.queue))[|done|] == step.r;
        assert (done + (s.queue + [step.r]))[|done|] == s.queue[0];
        assert arrivals[|done|] == s.queue[0] && s.queue[0] in arrivals;
      }
    }
  }

  /**
   * Under `all`, exactly when requests have their turns in trigger order and none is
   * lost, all along a run: when none overtakes stranded ones. A turn takes the lock,
   * unless the element has left the document meanwhile.
   */
  lemma {:induction false} QueueAllExactly(steps: seq<Step>)
    requires OfKind(steps, All) && NewRequests(steps)
    ensures AlwaysInOrder(steps) <==> NoOvertaking(steps)
    ensures Run(steps).taken == Took(Run(steps).turns)
  {
    RunBooks(steps);
    if steps != [] {
      var before, step := steps[..|steps| - 1], steps[|steps| - 1];
      LastOfKind(steps, All);
      QueueAllExactly(before);
      AlwaysQueueing(before, All);
      if InOrder(before) {
        InOrderStep(Run(before), Arrivals(before), step);
      }
    }
  }

  predicate EndsWith(s: seq<Request>, tail: seq<Request>) {
    |tail| <= |s| && s[|s| - |tail|..] == tail
  }

  lemma EndsWithMore(s: seq<Request>, tail: seq<Request>, r: Request)
    requires EndsWith(s, tail)
    ensures EndsWith(s + [r], tail + [r])
    ensures EndsWith(s + [r], [r])
  {
  }

  lemma EndsWithLess(s: seq<Request>, tail: seq<Request>)
    requires EndsWith(s, tail)
    ensures EndsWith(s, [])
    ensures tail != [] ==> EndsWith(s, [tail[|tail| - 1]])
  {
  }

  /** The request whose turn was last. */
  function Latest(turns: seq<Turn>): seq<Request>
  {
    if turns == [] then [] else [turns[|turns| - 1].r]
  }

  /** The latest turn and all that came since end the arrivals; the last of these waits. */
  predicate LastWaits(s: Lock, arrivals: seq<Request>) {
    && (s.turns == [] ==> arrivals == [] && s.since == [])
    && EndsWith(arrivals, Latest(s.turns) + s.since)
    && s.queue == if s.since == [] then [] else [s.since[|s.since| - 1]]
  }

  /** The latest turn when at most one request waited and it was served. */
  lemma LatestAfter(s: Lock, t: Lock, r: seq<Request>)
    requires Asked(t.turns) + t.queue == Asked(s.turns) + r && |r| <= 1
    requires |s.turns| <= |t.turns| && (r != [] ==> |s.turns| < |t.turns|)
    ensures t.queue == [] && Latest(t.turns) == if r == [] then Latest(s.turns) else r
    ensures |t.turns| == |s.turns| + |r|
  {
    var all := Asked(s.turns) + r;
    assert |Asked(t.turns)| == |t.turns| && |all| == |s.turns| + |r|;
    assert Asked(t.turns) == all[..|t.turns|] == all;
    if t.turns != [] {
      assert Asked(t.turns)[|t.turns| - 1] == t.turns[|t.turns| - 1].r;
    }
  }

  lemma LastWaitsTrigger(s: Lock, arrivals: seq<Request>, r: Request)
    requires Queueing(s) && OneLive(s) && OfKind([Trigger(r)], Last) && LastWaits(s, arrivals)
    requires r.elt !in s.detached
    requires s.xhr.Some? ==> s.turns != []
    ensures LastWaits(Next(s, Trigger(r)), arrivals + [r])
  {
    QueueStep(s, Trigger(r), Last);
    var t := Next(s, Trigger(r));
    assert KindOf(r) == Last by { assert [Trigger(r)][0] == Trigger(r); }
    if s.xhr.None? {
      assert [r] + s.queue == [r];
      LatestAfter(s, t, [r]);
    }
    hide Next, OfKind, EndsWith, Asked;
    EndsWithMore(arrivals, Latest(s.turns) + s.since, r);
    assert [r] + [] == [r];
    Regroup(Latest(s.turns), s.since, [r]);
  }

  lemma LastWaitsStep(s: Lock, arrivals: seq<Request>, step: Step)
    requires Queueing(s) && OneLive(s) && OfKind([step], Last) && LastWaits(s, arrivals)
    requires s.xhr.Some? ==> s.turns != []
    ensures LastWaits(Next(s, step), arrivals + Arrival(s, step))
  {
    assert arrivals + [] == arrivals;
    if step.Trigger? && step.r.elt !in s.detached {
      LastWaitsTrigger(s, arrivals, step.r);
    } else {
      QueueStep(s, step, Last);
      var t := Next(s, step);
      hide Next, OfKind, OneLive, EndsWith;
      EndsWithLess(arrivals, Latest(s.turns) + s.since);
      if t != s && !step.Detach? {
        LatestAfter(s, t, s.queue);
        assert Latest(t.turns) + [] == Latest(t.turns);
        assert s.queue != [] ==> (Latest(s.turns) + s.since)[|Latest(s.turns) + s.since| - 1] == s.queue[0];
      }
    }
  }

  /** Requests that only queue, at most one at a time, never strand. */
  lemma OneWaitingNeverStrands(steps: seq<Step>, kind: QueueKind)
    requires steps != [] && OfKind(steps, kind)
    requires NeverStrands(steps[..|steps| - 1]) && |Run(steps[..|steps| - 1]).queue| <= 1
    ensures NeverStrands(steps)
  {
    var s := Run(steps[..|steps| - 1]);
    ShortNeverStrands(s.queue, s.detached);
    assert steps[|steps| - 1] in steps;
  }

  /**
   * Under `last`, the arrivals end with the latest turn and all that came since, and the
   * one waiting is the most recent of them; such runs never strand requests.
   */
  lemma {:induction false} QueueLastRun(steps: seq<Step>)
    requires OfKind(steps, Last)
    ensures LastWaits(Run(steps), Arrivals(steps)) && NeverStrands(steps)
  {
    if steps != [] {
      var before, step := steps[..|steps| - 1], steps[|steps| - 1];
      LastOfKind(steps, Last);
      QueueLastRun(before);
      AlwaysQueueing(before, Last);
      RunInv(before);
      RunBooks(before);
      LastWaitsStep(Run(before), Arrivals(before), step);
      OneWaitingNeverStrands(steps, Last);
    }
  }

  /** All that came since the latest turn ends the arrivals; the first of these waits. */
  predicate FirstWaits(s: Lock, arrivals: seq<Request>) {
    EndsWith(arrivals, s.since) && s.queue == if s.since == [] then [] else [s.since[0]]
  }

  lemma FirstWaitsStep(s: Lock, arrivals: seq<Request>, step: Step)
    requires Queueing(s) && OneLive(s) && OfKind([step], First) && FirstWaits(s, arrivals)
    ensures FirstWaits(Next(s, step), arrivals + Arrival(s, step))
  {
    QueueStep(s, step, First);
    var t := Next(s, step);
    assert arrivals + [] == arrivals;
    EndsWithLess(arrivals, s.since);
    if step.Trigger? {
      assert KindOf(step.r) == First by { assert [step][0] == step; }
      if s.xhr.None? && step.r.elt !in s.detached {
        assert [step.r] + s.queue == [step.r];
        LatestAfter(s, t, [step.r]);
      }
      hide Next, OfKind, Asked;
      EndsWithMore(arrivals, s.since, step.r);
      EndsWithLess(arrivals + [step.r], s.since + [step.r]);
    } else if t != s && !step.Detach? {
      LatestAfter(s, t, s.queue);
    }
  }

  /**
   * Under `first`, the arrivals end with all that came since the latest turn, and the one
   * waiting is the first of them; such runs never strand requests.
   */
  lemma {:induction false} QueueFirstRun(steps: seq<Step>)
    requires OfKind(steps, First)
    ensures FirstWaits(Run(steps), Arrivals(steps)) && NeverStrands(steps)
  {
    if steps != [] {
      var before, step := steps[..|steps| - 1], steps[|steps| - 1];
      LastOfKind(steps, First);
      QueueFirstRun(before);
      AlwaysQueueing(before, First);
      RunInv(before);
      FirstWaitsStep(Run(before), Arrivals(before), step);
      OneWaitingNeverStrands(steps, First);
    }
  }

  // ---------------------------------------------------------------------------
  // Requests that never wait
  // ---------------------------------------------------------------------------

  /** `drop` and `abort` requests, and those with an unknown word for their queue. */
  predicate NeverQueues(r: Request)
  {
    || r.strategy == Drop || r.strategy == AbortSelf || r.strategy == Queue(NoQueue)
    || (r.strategy in {Unsynced, Replace} && r.eventQueue == Some(NoQueue))
  }

  /** The queue afterwards holds old waiters and at most this request, if it queues at all. */
  predicate Waiters(before: seq<Request>, after: seq<Request>, r: Request)
  {
    forall q <- after :: q in before || (q == r && !NeverQueues(r))
  }

  lemma {:induction false} EndWaiters(s: Lock, id: nat)
    ensures forall q <- EndLock(s, id).queue :: q in s.queue
    decreases |s.queue|, 0
  {
    if s.queue != [] {
      var r, next := s.queue[0], Passed(Freed(s, id).(queue := s.queue[1..]), s.queue[0]);
      assert r in s.queue && forall q <- next.queue :: q in s.queue;
      IssueWaiters(next, r);
      hide Issue;
    }
  }

  lemma {:induction false} AbortWaiters(s: Lock)
    ensures forall q <- Abort(s).queue :: q in s.queue
    decreases |s.queue|, 1
  {
    if HolderLive(s) {
      EndWaiters(s.(live := s.live - {s.xhr.value}), s.xhr.value);
    }
  }

  lemma {:induction false} StartWaiters(s: Lock, r: Request)
    ensures forall q <- Start(s, r).queue :: q in s.queue
    decreases |s.queue|, 1
  {
    if r.outcome.GivenUp? {
      EndWaiters(Acquire(s, r), s.next);
    }
  }

  lemma {:induction false} IssueWaiters(s: Lock, r: Request)
    ensures Waiters(s.queue, Issue(s, r).queue, r)
    decreases |s.queue|, 2
  {
    AbortWaiters(s);
    var s1 := if r.strategy == Replace then Abort(s) else s;
    AbortWaiters(s1);
    StartWaiters(if s1.xhr.Some? then Abort(s1) else s1, r);
    hide Abort, Start;
  }

  /** In no run does such a request ever wait. */
  lemma {:induction false} NeverInQueue(steps: seq<Step>)
    ensures forall r <- Run(steps).queue :: !NeverQueues(r)
  {
    if steps != [] {
      var s, step := Run(steps[..|steps| - 1]), steps[|steps| - 1];
      NeverInQueue(steps[..|steps| - 1]);
      match step {
        case Trigger(r) => IssueWaiters(s, r);
        case Done(id) =>
          if id in s.live {
            EndWaiters(s.(live := s.live - {id}), id);
          }
        case AbortEvent => AbortWaiters(s);
        case Detach(_) =>
      }
      hide Issue, EndLock, Abort, NeverQueues;
    }
  }

  /** All requests are of one sort: `abort`; or `drop` or an unknown word for their queue. */
  predicate OnlyRefusing(steps: seq<Step>, aborts: bool)
  {
    forall step <- steps :: step.Trigger? ==>
      if aborts then step.r.strategy == AbortSelf
      else step.r.strategy == Drop || QueuesAs(step.r, NoQueue)
  }

  /** The requests of attached elements that found the lock free, in trigger order. */
  function MetFree(steps: seq<Step>): seq<Request>
  {
    if steps == [] then []
    else
      var s, step := Run(steps[..|steps| - 1]), steps[|steps| - 1];
      MetFree(steps[..|steps| - 1])
        + if step.Trigger? && step.r.elt !in s.detached && s.xhr.None? then [step.r] else []
  }

  /** With an empty queue the lock is simply freed, and a start leads to nothing else. */
  lemma Alone(s: Lock, id: nat)
    requires s.queue == []
    ensures EndLock(s, id) == Freed(s, id)
  {
  }

  lemma StartAlone(s: Lock, r: Request)
    requires s.queue == []
    ensures Start(s, r) == match r.outcome
                           case Sent => Acquire(s, r).(live := s.live + {s.next})
                           case GivenUp => Freed(Acquire(s, r), s.next)
                           case Threw => Acquire(s, r)
  {
    Alone(Acquire(s, r), s.next);
  }

  lemma RefusingStep(s: Lock, step: Step, aborts: bool)
    requires s.queue == [] && (s.abortable ==> aborts) && OnlyRefusing([step], aborts)
    ensures var t := Next(s, step);
            && t.queue == [] && (t.abortable ==> aborts)
            && t.taken == s.taken + if step.Trigger? && step.r.elt !in s.detached && s.xhr.None? then [step.r] else []
  {
    assert [step][0] == step;
    assert s.taken + [] == s.taken;
    match step {
      case Trigger(r) =>
        StartAlone(s, r);
        if s.xhr.None? && r.elt !in s.detached {
          assert Issue(s, r) == Start(s, r);
        }
      case Done(id) => Alone(s.(live := s.live - {id}), id);
      case AbortEvent =>
        if HolderLive(s) {
          Alone(s.(live := s.live - {s.xhr.value}), s.xhr.value);
        }
      case Detach(_) =>
    }
  }

  /**
   * With `abort` requests only, and with `drop` requests only, exactly those requests take
   * the lock that find it free, in trigger order; all others are discarded.
   */
  lemma {:induction false} RefusingRun(steps: seq<Step>, aborts: bool)
    requires OnlyRefusing(steps, aborts)
    ensures Run(steps).taken == MetFree(steps) && Run(steps).queue == []
    ensures Run(steps).abortable ==> aborts
  {
    if steps != [] {
      RefusingRun(steps[..|steps| - 1], aborts);
      RefusingStep(Run(steps[..|steps| - 1]), steps[|steps| - 1], aborts);
    }
  }

  /**
   * While the lock is held by an `abort` request, any other request takes it at once, and
   * the one in flight is aborted; a second `abort` request is discarded.
   */
  lemma AbortableGivesWay(steps: seq<Step>, r: Request)
    requires NeverStrands(steps) && Run(steps).abortable && r.elt !in Run(steps).detached
    ensures var s := Run(steps); var t := Next(s, Trigger(r));
            if r.strategy == AbortSelf then t == s
            else
              && t.taken == s.taken + [r] && t.live == (if r.outcome.Sent? then {s.next} else {})
              && (HolderLive(s) ==> s.xhr.value in t.released)
  {
    RunInv(steps);
    var s := Run(steps);
    hide Run;
    if r.strategy != AbortSelf {
      var free := s;
      if HolderLive(s) {
        assert s.live - {s.xhr.value} == {};
        free := Freed(s.(live := {}), s.xhr.value);
        Alone(s.(live := {}), s.xhr.value);
        assert Abort(s) == free && s.xhr.value in free.released;
      }
      StartAlone(free, r);
      assert {} + {s.next} == {s.next};
      assert Issue(s, r) == Start(free, r);
    }
  }

  predicate OnlyReplace(steps: seq<Step>)
  {
    forall step <- steps :: step.Trigger? ==> step.r.strategy == Replace
  }

  /** The latest request to take the lock threw. */
  predicate LastThrew(s: Lock)
  {
    s.taken != [] && s.taken[|s.taken| - 1].outcome.Threw?
  }

  /** The lock is free, or held by the latest request in flight, or left by one that threw. */
  predicate Replacing(s: Lock)
  {
    && !s.abortable && s.next == |s.taken|
    && (s.xhr.None? ==> s.live == {})
    && (s.xhr.Some? ==> s.xhr.value == s.next - 1 && s.live == if LastThrew(s) then {} else {s.next - 1})
    && (s.queue != [] ==> s.since != [])
    && (s.since != [] ==> s.xhr.Some? && LastThrew(s))
  }

  lemma ReplacingStep(s: Lock, step: Step)
    requires Replacing(s) && OnlyReplace([step])
    ensures var t := Next(s, step);
            Replacing(t) && t.taken + t.since == s.taken + s.since + Arrival(s, step)
  {
    assert [step][0] == step;
    assert s.taken + s.since + [] == s.taken + s.since;
    assert s.taken + [] == s.taken;
    assert {} + {s.next} == {s.next};
    var free := s;
    if HolderLive(s) {
      assert s.live - {s.xhr.value} == {};
      free := Freed(s.(live := {}), s.xhr.value);
      assert s.queue == [] && s.since == [];
      Alone(s.(live := {}), s.xhr.value);
      assert Abort(s) == free;
    }
    match step {
      case Trigger(r) =>
        if r.elt in s.detached {
          assert Issue(s, r) == s;
        } else if free.xhr.None? {
          StartAlone(free, r);
          assert Issue(s, r) == Start(free, r);
        } else {
          assert Issue(s, r) == s.(queue := Enqueued(s.queue, r), since := s.since + [r]);
        }
      case Done(id) => assert Next(s, step) == if id in s.live then free else s;
      case AbortEvent => assert Next(s, step) == if HolderLive(s) then free else s;
      case Detach(_) =>
    }
  }

  /**
   * With `replace` requests only, each takes the lock as it comes and aborts the one before,
   * until one leaves the lock by an exception: then the later ones wait for ever.
   */
  lemma {:induction false} ReplaceRun(steps: seq<Step>)
    requires OnlyReplace(steps)
    ensures var s := Run(steps);
            && s.taken + s.since == Arrivals(steps)
            && (s.since != [] ==> LastThrew(s) && s.live == {})
            && s.live <= {s.next - 1}
    ensures Replacing(Run(steps))
  {
    if steps != [] {
      ReplaceRun(steps[..|steps| - 1]);
      ReplacingStep(Run(steps[..|steps| - 1]), steps[|steps| - 1]);
    }
  }

  // ---------------------------------------------------------------------------
  // Two requests in flight
  // ---------------------------------------------------------------------------

  const A := Request(0, 0, Unsynced, None, Sent)
  const B := Request(1, 1, Queue(All), None, Sent)
  const C := Request(2, 0, Queue(All), None, Sent)
  const D := Request(3, 0, AbortSelf, None, Sent)
  const E := Request(4, 0, Unsynced, None, Sent)

  const STRANDED: Lock := Lock(None, false, [C], {}, 1, {1}, [A], [0], [Turn(A, true), Turn(B, false)], [])

  /** B and C wait for A; B's element goes; A ends: the lock is free and C waits. */
  lemma StrandedRun()
    ensures Next(Next(Next(Next(Next(FREE, Trigger(A)), Trigger(B)), Trigger(C)), Detach(1)), Done(0)) == STRANDED
  {
    var t1 := Next(FREE, Trigger(A));
    assert t1 == Lock(Some(0), false, [], {0}, 1, {}, [A], [], [Turn(A, true)], []);
    var t3 := Next(Next(t1, Trigger(B)), Trigger(C));
    assert t3 == t1.(queue := [B, C], since := [B, C]);
    var t4 := Next(t3, Detach(1));
    assert t4 == t3.(detached := {1});
    assert t4.queue[1..] == [C] && t4.live - {0} == {};
  }

  /** D takes the free lock, abortable; E aborts it, which starts C, and starts itself. */
  lemma OvertakenRun()
    ensures var t := Next(Next(STRANDED, Trigger(D)), Trigger(E));
            t.live == {2, 3} && t.xhr == Some(3) && t.queue == []
  {
    var s := STRANDED;
    var t := Next(s, Trigger(D));
    assert s.live + {1} == {1};
    assert Issue(s, D) == Start(s, D) == t;
    assert t.xhr == Some(1) && t.abortable && t.queue == [C] && t.live == {1} && t.next == 2 && t.detached == {1};
    var ended := t.(live := {});
    assert t.live - {1} == {} && t.queue[1..] == [];
    var idle := Freed(ended, 1).(queue := []);
    assert Abort(t) == EndLock(ended, 1) == Issue(idle, C) == Start(idle, C);
    assert {} + {2} == {2};
    var u := Start(idle, C);
    assert u.xhr == Some(2) && u.live == {2} && u.next == 3;
    assert Issue(t, E) == Start(u, E);
    assert {2} + {3} == {2, 3};
  }

  /** A stranded queue can then put two requests in flight on one element. */
  lemma TwoLiveRequests()
    ensures Run([Trigger(A), Trigger(B), Trigger(C), Detach(1), Done(0), Trigger(D), Trigger(E)]).live == {2, 3}
  {
    StrandedRun();
    OvertakenRun();
    RunSeven([Trigger(A), Trigger(B), Trigger(C), Detach(1), Done(0), Trigger(D), Trigger(E)]);
  }

  /** The end of either then frees the lock while the other is still in flight. */
  lemma FreedUnderway()
    ensures var s := Run([Trigger(A), Trigger(B), Trigger(C), Detach(1), Done(0), Trigger(D), Trigger(E), Done(2)]);
            s.xhr == None && s.live == {3}
  {
    var seven := [Trigger(A), Trigger(B), Trigger(C), Detach(1), Done(0), Trigger(D), Trigger(E)];
    var eight := [Trigger(A), Trigger(B), Trigger(C), Detach(1), Done(0), Trigger(D), Trigger(E), Done(2)];
    StrandedRun();
    OvertakenRun();
    RunSeven(seven);
    assert eight[..7] == seven;
    assert Run(eight) == Next(Run(seven), Done(2));
    hide Run;
    var t := Run(seven);
    assert t.live - {2} == {3};
    Alone(t.(live := {3}), 2);
  }

  lemma RunSeven(steps: seq<Step>)
    requires |steps| == 7
    ensures Run(steps) ==
      Next(Next(Next(Next(Next(Next(Next(FREE, steps[0]), steps[1]), steps[2]), steps[3]), steps[4]), steps[5]), steps[6])
  {
    hide Next;
    assert Run(steps[..0]) == FREE;
    assert steps[..1][..0] == steps[..0] && steps[..2][..1] == steps[..1] && steps[..3][..2] == steps[..2];
    assert steps[..4][..3] == steps[..3] && steps[..5][..4] == steps[..4] && steps[..6][..5] == steps[..5];
    assert steps[..7][..6] == steps[..6] && steps[..7] == steps;
    assert Run(steps[..1]) == Next(FREE, steps[0]);
    assert Run(steps[..2]) == Next(Run(steps[..1]), steps[1]);
    assert Run(steps[..3]) == Next(Run(steps[..2]), steps[2]);
    assert Run(steps[..4]) == Next(Run(steps[..3]), steps[3]);
    assert Run(steps[..5]) == Next(Run(steps[..4]), steps[4]);
    assert Run(steps[..6]) == Next(Run(steps[..5]), steps[5]);
    assert Run(steps[..7]) == Next(Run(steps[..6]), steps[6]);
  }
}
