/**
 * The hub's Run loop channel operation by channel operation, with senders and pumps
 * running in between: inside an arm it stands before a delete, before the join or leave
 * send, or among the sends of a broadcast. Each of these sends is a select with a default
 * case; `blocking` is the loop as it would be without the default cases.
 */
module HubLoop {
  import opened Prelude
  import opened Rendering
  import opened HubProtocol

  /** Where Run is; `todo` are the subscribers a broadcast has not come to yet. */
  datatype Point =
    | AtSelect
    | BeforeJoin(sub: Sub)
    | BeforeDelete(id: string)
    | BeforeLeave(sub: Sub)
    | Sending(entry: Entry, todo: set<string>)
    | Returned

  datatype Loop = Loop(hub: State, at: Point)

  /** A step of a sender or a pump, or an operation of Run. */
  datatype Move =
    | Other(step: Step)
    | ReceiveRegister(sub: Sub)
    | ReceiveUnregister(id: string)
    | ReceiveMessage(now: int)
    | Return
    | Delete
    | SendEvent
    | DropEvent
    | SendFrame(id: string)
    | DropFrame(id: string)
    | EndSending

  /** The steps of pumps, each on its own connection. */
  predicate PumpStep(step: Step)
  {
    step.Take? || step.WriteDone? || step.Disconnect? || step.CloseSend?
  }

  predicate OthersStep(step: Step)
  {
    PumpStep(step) || step.Post? || step.Stop?
  }

  predicate AtEvent(at: Point)
  {
    at.BeforeJoin? || at.BeforeLeave?
  }

  predicate Able(blocking: bool, l: Loop, move: Move)
  {
    match move
    case Other(step) => OthersStep(step) && Enabled(l.hub, step)
    case ReceiveRegister(sub) => l.at.AtSelect? && Enabled(l.hub, Register(sub))
    case ReceiveUnregister(id) => l.at.AtSelect? && Enabled(l.hub, Unregister(id))
    case ReceiveMessage(_) => l.at.AtSelect? && l.hub.broadcast != []
    case Return => l.at.AtSelect? && l.hub.stopping
    case Delete => l.at.BeforeDelete?
    case SendEvent => AtEvent(l.at) && |l.hub.broadcast| < CAPACITY
    case DropEvent => AtEvent(l.at) && |l.hub.broadcast| >= CAPACITY && !blocking
    case SendFrame(id) => l.at.Sending? && id in l.at.todo && id in l.hub.conns && |l.hub.conns[id].queue| < CAPACITY
    case DropFrame(id) =>
      l.at.Sending? && id in l.at.todo && id in l.hub.conns && |l.hub.conns[id].queue| >= CAPACITY && !blocking
    case EndSending => l.at.Sending? && l.at.todo == {}
  }

  function Joined(s: State, sub: Sub): State
  {
    s.(members := s.members + {sub.id}, conns := s.conns[sub.id := NewConn(sub, |s.log|)])
  }

  function Deleted(s: State, id: string): State
    requires id in s.conns
  {
    s.(arm := Selecting, members := s.members - {id}, conns := s.conns[id := s.conns[id].(left := Some(|s.log|))])
  }

  function EventOf(at: Point): Message
    requires AtEvent(at)
  {
    Event(if at.BeforeJoin? then Join else Leave, at.sub.id, at.sub.user)
  }

  function WithFrame(s: State, id: string, c: Conn): State
  {
    s.(conns := s.conns[id := c])
  }

  function Act(blocking: bool, l: Loop, move: Move): Loop
  {
    if !Able(blocking, l, move) then l
    else match move
      case Other(step) => l.(hub := Next(l.hub, step))
      case ReceiveRegister(sub) => Loop(Joined(l.hub, sub), BeforeJoin(sub))
      case ReceiveUnregister(id) => Loop(Next(l.hub, Unregister(id)), BeforeDelete(id))
      case ReceiveMessage(now) =>
        var e := Popped(l.hub, now);
        Loop(Half(l.hub, e, {}), Sending(e, l.hub.members))
      case Return => Loop(l.hub.(arm := Exited), Returned)
      case Delete =>
        if l.at.id in l.hub.members && l.at.id in l.hub.conns
        then Loop(Deleted(l.hub, l.at.id), BeforeLeave(l.hub.conns[l.at.id].sub))
        else Loop(l.hub.(arm := Selecting), AtSelect)
      case SendEvent => Loop(l.hub.(broadcast := l.hub.broadcast + [EventOf(l.at)]), AtSelect)
      case DropEvent => Loop(l.hub.(lost := l.hub.lost + 1), AtSelect)
      case SendFrame(id) =>
        var c := l.hub.conns[id];
        var frame := FrameOf(c.sub, l.at.entry);
        Loop(WithFrame(l.hub, id, c.(offers := c.offers + [HubProtocol.Offer(frame, true)], queue := c.queue + [frame])),
             Sending(l.at.entry, l.at.todo - {id}))
      case DropFrame(id) =>
        var c := l.hub.conns[id];
        Loop(WithFrame(l.hub, id, c.(offers := c.offers + [HubProtocol.Offer(FrameOf(c.sub, l.at.entry), false)])),
             Sending(l.at.entry, l.at.todo - {id}))
      case EndSending => l.(at := AtSelect)
  }

  /** The head of the queue popped and rendered, and sent to some subscribers so far. */
  function Half(s: State, e: Entry, done: set<string>): State
    requires s.broadcast != []
  {
    s.(broadcast := s.broadcast[1..], log := s.log + [e],
       conns := map id | id in s.conns :: if id in done then Offered(s.conns[id], FrameOf(s.conns[id].sub, e)) else s.conns[id],
       last := HubProtocol.Render(s.last, e.html, e.message, e.now).0)
  }

  function Continue(blocking: bool, l: Loop, moves: seq<Move>): Loop
  {
    if moves == [] then l else Act(blocking, Continue(blocking, l, moves[..|moves| - 1]), moves[|moves| - 1])
  }

  const BEGIN: Loop := Loop(START, AtSelect)

  function Play(blocking: bool, moves: seq<Move>): Loop
  {
    Continue(blocking, BEGIN, moves)
  }

  lemma ContinueMore(blocking: bool, l: Loop, moves: seq<Move>, move: Move)
    ensures Continue(blocking, l, moves + [move]) == Act(blocking, Continue(blocking, l, moves), move)
  {
    assert (moves + [move])[..|moves|] == moves;
  }

  // ---------------------------------------------------------------------------
  // No arm waits
  // ---------------------------------------------------------------------------

  predicate LoopInv(l: Loop)
  {
    && l.hub.members <= l.hub.conns.Keys
    && (l.at.Sending? ==> l.at.todo <= l.hub.members)
    && l.hub.arm == (if l.at.BeforeDelete? then Removing(l.at.id) else if l.at.Returned? then Exited else Selecting)
  }

  lemma ActInv(blocking: bool, l: Loop, move: Move)
    requires LoopInv(l)
    ensures LoopInv(Act(blocking, l, move))
  {
    hide HubProtocol.Render, HasHtml, FrameOf, Popped;
  }

  lemma {:induction false} ContinueInv(blocking: bool, l: Loop, moves: seq<Move>)
    requires LoopInv(l)
    ensures LoopInv(Continue(blocking, l, moves))
  {
    if moves != [] {
      ContinueInv(blocking, l, moves[..|moves| - 1]);
      ActInv(blocking, Continue(blocking, l, moves[..|moves| - 1]), moves[|moves| - 1]);
    }
  }

  /** How many more operations of its own Run needs to be back at its select. */
  function Distance(at: Point): nat
  {
    match at
    case AtSelect => 0
    case Returned => 0
    case BeforeJoin(_) => 1
    case BeforeLeave(_) => 1
    case BeforeDelete(_) => 2
    case Sending(_, todo) => |todo| + 1
  }

  predicate Own(move: Move)
  {
    !move.Other?
  }

  /** The next operation of Run inside an arm. */
  function NextMove(l: Loop, id: string): Move
  {
    match l.at
    case BeforeDelete(_) => Delete
    case Sending(_, todo) =>
      if todo == {} then EndSending
      else if id in l.hub.conns && |l.hub.conns[id].queue| < CAPACITY then SendFrame(id) else DropFrame(id)
    case _ => if |l.hub.broadcast| < CAPACITY then SendEvent else DropEvent
  }

  /** Others leave Run where it is; each own operation inside an arm brings it closer to the select. */
  lemma DistanceFalls(blocking: bool, l: Loop, move: Move)
    requires Distance(l.at) > 0
    ensures var t := Act(blocking, l, move);
            if Own(move) && Able(blocking, l, move) then Distance(t.at) < Distance(l.at) && !t.at.Returned? else t.at == l.at
  {
  }

  function OwnCount(blocking: bool, l: Loop, moves: seq<Move>): nat
  {
    if moves == [] then 0
    else
      var before, move := moves[..|moves| - 1], moves[|moves| - 1];
      OwnCount(blocking, l, before) + if Own(move) && Able(blocking, Continue(blocking, l, before), move) then 1 else 0
  }

  predicate BackAt(blocking: bool, l: Loop, moves: seq<Move>, k: nat)
    requires k <= |moves|
  {
    Continue(blocking, l, moves[..k]).at.AtSelect?
  }

  lemma {:induction false} ComesBack(blocking: bool, l: Loop, moves: seq<Move>)
    requires Distance(l.at) > 0
    ensures || (exists k | 0 <= k <= |moves| :: BackAt(blocking, l, moves, k))
            || (var at := Continue(blocking, l, moves).at;
                Distance(at) > 0 && Distance(at) + OwnCount(blocking, l, moves) <= Distance(l.at))
  {
    if moves != [] {
      var before, move := moves[..|moves| - 1], moves[|moves| - 1];
      ComesBack(blocking, l, before);
      if k: nat :| 0 <= k <= |before| && BackAt(blocking, l, before, k) {
        assert before[..k] == moves[..k];
        assert BackAt(blocking, l, moves, k);
      } else {
        DistanceFalls(blocking, Continue(blocking, l, before), move);
        hide Act, Able;
        if Continue(blocking, l, moves).at.AtSelect? {
          assert moves[..|moves|] == moves;
          assert BackAt(blocking, l, moves, |moves|);
        }
      }
    }
  }

  ghost predicate CanReturn(blocking: bool, l: Loop)
  {
    exists moves :: Returns(blocking, l, moves)
  }

  /** Operations of Run alone lead to the select. */
  predicate Returns(blocking: bool, l: Loop, moves: seq<Move>)
  {
    (forall move <- moves :: Own(move)) && Continue(blocking, l, moves).at.AtSelect?
  }

  lemma {:induction false} ContinueFirst(blocking: bool, l: Loop, move: Move, moves: seq<Move>)
    ensures Continue(blocking, l, [move] + moves) == Continue(blocking, Act(blocking, l, move), moves)
  {
    if moves == [] {
      assert [move] + moves == [move] && [move][..0] == [];
    } else {
      var all := [move] + moves;
      ContinueFirst(blocking, l, move, moves[..|moves| - 1]);
      assert all[..|all| - 1] == [move] + moves[..|moves| - 1];
    }
  }

  lemma SomeMove(l: Loop) returns (move: Move)
    requires LoopInv(l) && Distance(l.at) > 0
    ensures Own(move) && Able(false, l, move)
  {
    var id := if l.at.Sending? && l.at.todo != {} then SomeId(l.at.todo) else "";
    move := NextMove(l, id);
  }

  lemma {:induction false} WayBack(l: Loop) returns (moves: seq<Move>)
    requires LoopInv(l) && !l.at.Returned?
    ensures Returns(false, l, moves)
    decreases Distance(l.at)
  {
    moves := [];
    if Distance(l.at) > 0 {
      var move := SomeMove(l);
      DistanceFalls(false, l, move);
      ActInv(false, l, move);
      var more := WayBack(Act(false, l, move));
      ContinueFirst(false, l, move, more);
      moves := [move] + more;
    }
  }

  /**
   * Run never waits inside an arm. In every reachable state off the select it has an
   * operation it can do at once, whatever is full, and its own operations alone lead back
   * to the select; and whatever senders and pumps do in between, it is back after so many
   * operations of its own: at most two, or one more than the subscribers still to come in
   * a broadcast.
   */
  lemma RunNeverWaits(moves: seq<Move>, more: seq<Move>)
    ensures var l := Play(false, moves);
            Distance(l.at) > 0 ==>
              && (exists move :: Own(move) && Able(false, l, move)) && CanReturn(false, l)
              && Distance(l.at) <= |l.hub.members| + 2
              && (OwnCount(false, l, more) >= Distance(l.at) ==>
                    exists k | 0 <= k <= |more| :: BackAt(false, l, more, k))
  {
    ContinueInv(false, BEGIN, moves);
    var l := Play(false, moves);
    if Distance(l.at) > 0 {
      ComesBack(false, l, more);
      var move := SomeMove(l);
      assert Own(move) && Able(false, l, move);
      var way := WayBack(l);
      assert Returns(false, l, way);
      if l.at.Sending? {
        SmallerSet(l.at.todo, l.hub.members);
      }
    }
  }

  ghost function SomeId(ids: set<string>): (id: string)
    requires ids != {}
    ensures id in ids
  {
    var id :| id in ids;
    id
  }

  lemma SmallerSet(a: set<string>, b: set<string>)
    requires a <= b
    ensures |a| <= |b|
  {
    assert b == a + (b - a);
  }

  // ---------------------------------------------------------------------------
  // Without the default cases
  // ---------------------------------------------------------------------------

  /** Nobody but Run takes from the broadcast queue. */
  lemma BlockedStep(l: Loop, move: Move)
    requires AtEvent(l.at) && |l.hub.broadcast| >= CAPACITY
    ensures Act(true, l, move).at == l.at && |Act(true, l, move).hub.broadcast| >= CAPACITY
  {
  }

  lemma {:induction false} BlockedForever(l: Loop, moves: seq<Move>)
    requires AtEvent(l.at) && |l.hub.broadcast| >= CAPACITY
    ensures Continue(true, l, moves).at == l.at && |Continue(true, l, moves).hub.broadcast| >= CAPACITY
  {
    if moves != [] {
      BlockedForever(l, moves[..|moves| - 1]);
      BlockedStep(Continue(true, l, moves[..|moves| - 1]), moves[|moves| - 1]);
    }
  }

  /** Operations of Run and steps of others lead to the select. */
  ghost predicate CanEverReturn(blocking: bool, l: Loop)
  {
    exists moves :: Ends(blocking, l, moves)
  }

  predicate Ends(blocking: bool, l: Loop, moves: seq<Move>)
  {
    Continue(blocking, l, moves).at.AtSelect?
  }

  /** A blocking event send would ever come back exactly when the hub's own queue has room. */
  lemma BlockingEventExactly(l: Loop)
    requires AtEvent(l.at)
    ensures CanEverReturn(true, l) <==> |l.hub.broadcast| < CAPACITY
  {
    if |l.hub.broadcast| < CAPACITY {
      assert [SendEvent][..0] == [];
      assert Ends(true, l, [SendEvent]);
    } else {
      forall moves
        ensures !Ends(true, l, moves)
      {
        BlockedForever(l, moves);
      }
    }
  }

  /** The pump of a full subscriber that wants to leave waits for Run, and Run for the pump. */
  lemma FullStep(l: Loop, move: Move, id: string)
    requires l.at.Sending? && id in l.at.todo && id in l.hub.conns
    requires |l.hub.conns[id].queue| >= CAPACITY && l.hub.conns[id].phase.Leaving?
    ensures var t := Act(true, l, move);
            && t.at.Sending? && id in t.at.todo && id in t.hub.conns
            && |t.hub.conns[id].queue| >= CAPACITY && t.hub.conns[id].phase.Leaving?
  {
  }

  lemma {:induction false} FullForever(l: Loop, moves: seq<Move>, id: string)
    requires l.at.Sending? && id in l.at.todo && id in l.hub.conns
    requires |l.hub.conns[id].queue| >= CAPACITY && l.hub.conns[id].phase.Leaving?
    ensures var t := Continue(true, l, moves);
            && t.at.Sending? && id in t.at.todo && id in t.hub.conns
            && |t.hub.conns[id].queue| >= CAPACITY && t.hub.conns[id].phase.Leaving?
  {
    if moves != [] {
      FullForever(l, moves[..|moves| - 1], id);
      FullStep(Continue(true, l, moves[..|moves| - 1]), moves[|moves| - 1], id);
    }
  }

  function Posts(m: Message, n: nat): seq<Move>
  {
    if n == 0 then [] else Posts(m, n - 1) + [Other(Post(m))]
  }

  lemma {:induction false} PostsFill(m: Message, n: nat)
    requires n <= CAPACITY && !m.Event?
    ensures var l := Play(true, Posts(m, n));
            l.at.AtSelect? && |l.hub.broadcast| == n && l.hub.conns == map[] && l.hub.arm.Selecting?
  {
    if n > 0 {
      PostsFill(m, n - 1);
      ContinueMore(true, BEGIN, Posts(m, n - 1), Other(Post(m)));
    }
  }

  /** Without the default cases a join into a full queue would stop the hub for good. */
  lemma DeadlockRun(m: Message, sub: Sub)
    requires !m.Event?
    ensures !CanEverReturn(true, Play(true, Posts(m, CAPACITY) + [ReceiveRegister(sub)]))
  {
    PostsFill(m, CAPACITY);
    ContinueMore(true, BEGIN, Posts(m, CAPACITY), ReceiveRegister(sub));
    hide Posts, Continue;
    BlockingEventExactly(Play(true, Posts(m, CAPACITY) + [ReceiveRegister(sub)]));
  }

  /** Nor would a broadcast ever get past a full subscriber that has gone. */
  lemma FullSubscriberDeadlock(l: Loop, id: string)
    requires l.at.Sending? && id in l.at.todo && id in l.hub.conns
    requires |l.hub.conns[id].queue| >= CAPACITY && l.hub.conns[id].phase.Leaving?
    ensures !CanEverReturn(true, l)
  {
    forall moves
      ensures !Ends(true, l, moves)
    {
      FullForever(l, moves, id);
    }
  }

  // ---------------------------------------------------------------------------
  // The arms as single steps
  // ---------------------------------------------------------------------------

  function Resume(s: State, steps: seq<Step>): State
  {
    if steps == [] then s else Next(Resume(s, steps[..|steps| - 1]), steps[|steps| - 1])
  }

  lemma ResumeMore(s: State, steps: seq<Step>, step: Step)
    ensures Resume(s, steps + [step]) == Next(Resume(s, steps), step)
  {
    assert (steps + [step])[..|steps|] == steps;
  }

  lemma {:induction false} ExecAppend(a: seq<Step>, b: seq<Step>)
    ensures Exec(a + b) == Resume(Exec(a), b)
  {
    if b == [] {
      assert a + b == a;
    } else {
      hide *;
      var front, last := b[..|b| - 1], b[|b| - 1];
      ExecAppend(a, front);
      FrontAndLast(b);
      Regroup(a, front, [last]);
      ExecMore(a + front, last);
      ResumeMore(Exec(a), front, last);
    }
  }

  predicate AllPump(steps: seq<Step>)
  {
    forall i | 0 <= i < |steps| :: PumpStep(steps[i])
  }

  /** Steps of others that leave these connections alone. */
  predicate Avoid(steps: seq<Step>, ids: set<string>)
  {
    forall i | 0 <= i < |steps| :: OthersStep(steps[i]) && (PumpStep(steps[i]) ==> steps[i].id !in ids)
  }

  /**
   * The state inside an arm is that of the steps `early`, with the arm half done, and
   * then the steps `late`; at the select it is that of `early`.
   */
  predicate Related(l: Loop, early: seq<Step>, late: seq<Step>)
  {
    var a := Exec(early);
    match l.at
    case BeforeJoin(sub) =>
      Enabled(a, Register(sub)) && AllPump(late) && l.hub == Resume(Joined(a, sub), late)
    case BeforeLeave(sub) =>
      && a.arm == Removing(sub.id) && sub.id in a.members && sub.id in a.conns && a.conns[sub.id].sub == sub
      && AllPump(late) && l.hub == Resume(Deleted(a, sub.id), late)
    case Sending(e, todo) =>
      && a.arm.Selecting? && a.broadcast != [] && e == Popped(a, e.now) && todo <= a.members
      && Avoid(late, todo) && l.hub == Resume(Half(a, e, a.members - todo), late)
    case _ => late == [] && l.hub == a
  }

  // What commutes ---------------------------------------------------------------

  /** Two states that differ in their queue and counters only. */
  predicate SameConns(s: State, t: State)
  {
    t == s.(broadcast := t.broadcast, stopping := t.stopping, lost := t.lost)
  }

  lemma PumpIgnoresQueue(s: State, t: State, step: Step)
    requires SameConns(s, t) && PumpStep(step)
    ensures SameConns(Next(s, step), Next(t, step))
    ensures Next(t, step).broadcast == t.broadcast && Next(t, step).lost == t.lost && Next(t, step).stopping == t.stopping
  {
  }

  lemma {:induction false} PumpsIgnoreQueue(s: State, t: State, steps: seq<Step>)
    requires SameConns(s, t) && AllPump(steps)
    ensures SameConns(Resume(s, steps), Resume(t, steps))
    ensures var u := Resume(t, steps); u.broadcast == t.broadcast && u.lost == t.lost && u.stopping == t.stopping
  {
    if steps != [] {
      var before := steps[..|steps| - 1];
      PumpsIgnoreQueue(s, t, before);
      PumpIgnoresQueue(Resume(s, before), Resume(t, before), steps[|steps| - 1]);
    }
  }

  lemma StepKeeps(s: State, step: Step, id: string, c: Conn)
    requires OthersStep(step) && (PumpStep(step) ==> step.id != id) && id in s.conns
    ensures Next(WithFrame(s, id, c), step) == WithFrame(Next(s, step), id, c)
    ensures id in Next(s, step).conns && Next(s, step).conns[id] == s.conns[id]
  {
    hide Taken, Written;
    var t := WithFrame(s, id, c);
    assert Enabled(t, step) == Enabled(s, step);
    if PumpStep(step) && Enabled(s, step) {
      assert t.conns[step.id] == s.conns[step.id];
      var d := Next(s, step).conns[step.id];
      assert s.conns[id := c][step.id := d] == s.conns[step.id := d][id := c];
    }
  }

  /** Steps that leave a connection alone commute with any change of it. */
  lemma {:induction false} StepsKeep(s: State, steps: seq<Step>, id: string, c: Conn)
    requires Avoid(steps, {id}) && id in s.conns
    ensures Resume(WithFrame(s, id, c), steps) == WithFrame(Resume(s, steps), id, c)
    ensures id in Resume(s, steps).conns && Resume(s, steps).conns[id] == s.conns[id]
  {
    if steps != [] {
      var before := steps[..|steps| - 1];
      StepsKeep(s, before, id, c);
      StepKeeps(Resume(s, before), steps[|steps| - 1], id, c);
    }
  }

  lemma AvoidOne(steps: seq<Step>, ids: set<string>, id: string)
    requires Avoid(steps, ids) && id in ids
    ensures Avoid(steps, {id})
  {
  }

  // Each operation keeps the relation --------------------------------------------

  lemma EventRelated(blocking: bool, l: Loop, early: seq<Step>, late: seq<Step>, move: Move)
    requires Related(l, early, late) && AtEvent(l.at) && (move.SendEvent? || move.DropEvent?) && Able(blocking, l, move)
    ensures Related(Act(blocking, l, move), early + [if l.at.BeforeJoin? then Register(l.at.sub) else Remove] + late, [])
  {
    var a := Exec(early);
    var step := if l.at.BeforeJoin? then Register(l.at.sub) else Remove;
    var half := if l.at.BeforeJoin? then Joined(a, l.at.sub) else Deleted(a, l.at.sub.id);
    ExecMore(early, step);
    ExecAppend(early + [step], late);
    assert Next(a, step) == PostEvent(half, if l.at.BeforeJoin? then Join else Leave, l.at.sub);
    assert SameConns(half, Next(a, step));
    PumpsIgnoreQueue(half, half, late);
    PumpsIgnoreQueue(half, Next(a, step), late);
    hide Exec, Next, Enabled, AllPump;
  }

  /** A pump step before the event is sent. */
  lemma PumpBeforeEvent(l: Loop, early: seq<Step>, late: seq<Step>, step: Step)
    requires Related(l, early, late) && AtEvent(l.at) && PumpStep(step)
    ensures Related(l.(hub := Next(l.hub, step)), early, late + [step])
  {
    var a := Exec(early);
    hide Exec, Next, Enabled;
    ResumeMore(if l.at.BeforeJoin? then Joined(a, l.at.sub) else Deleted(a, l.at.sub.id), late, step);
  }

  /** A post or a stop before the event is sent: it might as well have come before the arm. */
  lemma PostBeforeEvent(l: Loop, early: seq<Step>, late: seq<Step>, step: Step)
    requires Related(l, early, late) && AtEvent(l.at) && (step.Post? || step.Stop?) && Enabled(l.hub, step)
    ensures Related(l.(hub := Next(l.hub, step)), early + [step], late)
  {
    var a := Exec(early);
    ExecMore(early, step);
    hide Exec;
    var half := if l.at.BeforeJoin? then Joined(a, l.at.sub) else Deleted(a, l.at.sub.id);
    PumpsIgnoreQueue(half, half, late);
    assert Enabled(a, step);
    var t := Next(a, step);
    var half' := if l.at.BeforeJoin? then Joined(t, l.at.sub) else Deleted(t, l.at.sub.id);
    assert SameConns(half, half');
    PumpsIgnoreQueue(half, half', late);
    hide AllPump, Resume;
  }

  lemma HalfWith(s: State, e: Entry, done: set<string>, id: string, c: Conn)
    requires s.broadcast != [] && id in s.conns && id !in done
    ensures Half(WithFrame(s, id, c), e, done) == WithFrame(Half(s, e, done), id, c)
  {
    hide HubProtocol.Render, Offered, FrameOf;
  }

  lemma HalfMore(s: State, e: Entry, done: set<string>, id: string)
    requires s.broadcast != [] && id in s.conns && id !in done
    ensures Half(s, e, done + {id}) == WithFrame(Half(s, e, done), id, Offered(s.conns[id], FrameOf(s.conns[id].sub, e)))
  {
    hide HubProtocol.Render, Offered, FrameOf;
  }

  lemma HalfAll(s: State, e: Entry)
    requires s.broadcast != [] && s.arm.Selecting? && e == Popped(s, e.now)
    ensures Half(s, e, s.members) == Next(s, Broadcast(e.now))
  {
    hide HubProtocol.Render, Offered, FrameOf, HasHtml;
  }

  lemma HalfNone(s: State, e: Entry)
    requires s.broadcast != []
    ensures Half(s, e, s.members - s.members) == Half(s, e, {})
  {
    assert s.members - s.members == {};
  }

  /** A frame sent or dropped in a broadcast. */
  lemma FrameRelated(blocking: bool, l: Loop, early: seq<Step>, late: seq<Step>, move: Move)
    requires Related(l, early, late) && (move.SendFrame? || move.DropFrame?) && Able(blocking, l, move)
    requires Exec(early).members <= Exec(early).conns.Keys
    ensures Related(Act(blocking, l, move), early, late)
  {
    var a, e, todo, id := Exec(early), l.at.entry, l.at.todo, move.id;
    var done := a.members - todo;
    var c := Offered(a.conns[id], FrameOf(a.conns[id].sub, e));
    AvoidOne(late, todo, id);
    assert a.members - (todo - {id}) == done + {id};
    HalfMore(a, e, done, id);
    assert Half(a, e, done).conns[id] == a.conns[id];
    StepsKeep(Half(a, e, done), late, id, c);
    hide Exec, Next, Enabled, Resume, Half, Popped, FrameOf;
    assert l.hub.conns[id] == a.conns[id];
    assert Avoid(late, todo - {id});
  }

  /** Same connections but one, with the same subscriber: the popped message renders alike. */
  lemma PoppedWith(s: State, id: string, c: Conn, now: int)
    requires s.broadcast != [] && id in s.conns && c.sub == s.conns[id].sub
    ensures Popped(WithFrame(s, id, c), now) == Popped(s, now)
  {
    var t := WithFrame(s, id, c);
    assert forall other <- s.conns :: t.conns[other].sub == s.conns[other].sub;
    assert HasHtml(t) == HasHtml(s);
  }

  /** A pump step is a change of its own connection. */
  function Pumped(c: Conn, step: Step): Conn
    requires PumpStep(step) && (step.Take? ==> c.queue != []) && (step.WriteDone? ==> c.hand.Some?)
  {
    match step
    case Take(_) => Taken(c)
    case WriteDone(_) => Written(c)
    case Disconnect(_) => c.(phase := Leaving)
    case CloseSend(_) => c.(phase := Closed)
  }

  lemma PumpIsFrame(s: State, step: Step)
    requires PumpStep(step) && Enabled(s, step)
    ensures Next(s, step) == WithFrame(s, step.id, Pumped(s.conns[step.id], step))
    ensures Pumped(s.conns[step.id], step).sub == s.conns[step.id].sub
  {
  }

  /** The pump of a subscriber still to come in a broadcast: its step might as well have come before. */
  lemma EarlyPump(l: Loop, early: seq<Step>, late: seq<Step>, step: Step)
    requires Related(l, early, late) && l.at.Sending? && PumpStep(step) && Enabled(l.hub, step) && step.id in l.at.todo
    requires Exec(early).members <= Exec(early).conns.Keys
    ensures Related(l.(hub := Next(l.hub, step)), early + [step], late)
  {
    var a, e, todo, id := Exec(early), l.at.entry, l.at.todo, step.id;
    var done := a.members - todo;
    AvoidOne(late, todo, id);
    StepsKeep(Half(a, e, done), late, id, a.conns[id]);
    assert l.hub.conns[id] == a.conns[id];
    assert Enabled(a, step);
    PumpIsFrame(a, step);
    PumpIsFrame(l.hub, step);
    var c := Pumped(a.conns[id], step);
    ExecMore(early, step);
    PoppedWith(a, id, c, e.now);
    HalfWith(a, e, done, id, c);
    StepsKeep(Half(a, e, done), late, id, c);
    hide Exec, Next, Enabled, Resume, Half, Popped, Pumped;
  }

  lemma DuringSending(l: Loop, early: seq<Step>, late: seq<Step>, step: Step)
    requires Related(l, early, late) && l.at.Sending? && OthersStep(step) && Enabled(l.hub, step)
    requires Exec(early).members <= Exec(early).conns.Keys
    ensures if PumpStep(step) && step.id in l.at.todo then Related(l.(hub := Next(l.hub, step)), early + [step], late)
            else Related(l.(hub := Next(l.hub, step)), early, late + [step])
  {
    if PumpStep(step) && step.id in l.at.todo {
      EarlyPump(l, early, late, step);
    } else {
      var a := Exec(early);
      ResumeMore(Half(a, l.at.entry, a.members - l.at.todo), late, step);
      hide Exec, Next, Enabled, Resume, Half, Popped;
    }
  }

  lemma EndRelated(blocking: bool, l: Loop, early: seq<Step>, late: seq<Step>)
    requires Related(l, early, late) && Able(blocking, l, EndSending)
    ensures Related(Act(blocking, l, EndSending), early + [Broadcast(l.at.entry.now)] + late, [])
  {
    var a, e := Exec(early), l.at.entry;
    assert a.members - {} == a.members;
    HalfAll(a, e);
    ExecMore(early, Broadcast(e.now));
    ExecAppend(early + [Broadcast(e.now)], late);
    hide Exec, Next, Enabled, Resume, Half, Popped;
  }

  lemma KnownById(steps: seq<Step>, id: string)
    requires id in Exec(steps).conns
    ensures Exec(steps).conns[id].sub.id == id
  {
    ExecInv(steps);
    assert ConnInv(Exec(steps), id, Exec(steps).conns[id]);
    hide Exec, OfferedAll, Accounted;
  }

  /** The operations at the select, and the delete, which do not end in an event. */
  lemma SelectRelated(blocking: bool, l: Loop, early: seq<Step>, move: Move)
    requires Related(l, early, []) && LoopInv(l) && Able(blocking, l, move)
    requires !AtEvent(l.at) && !l.at.Sending?
    ensures var t := Act(blocking, l, move);
            var step := match move
                        case Other(step) => step
                        case ReceiveUnregister(id) => Unregister(id)
                        case Return => Exit
                        case _ => Remove;
            if move.ReceiveRegister? || move.ReceiveMessage? || (move.Delete? && t.at.BeforeLeave?)
            then Related(t, early, []) else Related(t, early + [step], [])
  {
    var a := Exec(early);
    match move {
      case Other(step) => ExecMore(early, step);
      case ReceiveUnregister(id) => ExecMore(early, Unregister(id));
      case Return => ExecMore(early, Exit);
      case Delete =>
        ExecMore(early, Remove);
        if l.at.id in a.conns {
          KnownById(early, l.at.id);
        }
        hide Exec;
      case ReceiveMessage(now) =>
        HalfNone(a, Popped(a, now));
        hide Exec, Half, HasHtml, HubProtocol.Render;
      case _ =>
    }
  }

  lemma ActRelated(blocking: bool, l: Loop, early: seq<Step>, late: seq<Step>, move: Move)
    returns (early': seq<Step>, late': seq<Step>)
    requires LoopInv(l) && Related(l, early, late)
    ensures Related(Act(blocking, l, move), early', late')
  {
    early', late' := early, late;
    if Able(blocking, l, move) {
      ExecInv(early);
      assert Exec(early).members <= Exec(early).conns.Keys;
      hide Exec, Next, Enabled, Inv, Resume, Half, Popped, LoopInv;
      if move.Other? && AtEvent(l.at) {
        assert OthersStep(move.step) && Enabled(l.hub, move.step);
        if PumpStep(move.step) {
          PumpBeforeEvent(l, early, late, move.step);
          late' := late + [move.step];
        } else {
          PostBeforeEvent(l, early, late, move.step);
          early' := early + [move.step];
        }
      } else if move.Other? && l.at.Sending? {
        DuringSending(l, early, late, move.step);
        if PumpStep(move.step) && move.step.id in l.at.todo {
          early' := early + [move.step];
        } else {
          late' := late + [move.step];
        }
      } else if move.SendEvent? || move.DropEvent? {
        EventRelated(blocking, l, early, late, move);
        early', late' := early + [if l.at.BeforeJoin? then Register(l.at.sub) else Remove] + late, [];
      } else if move.SendFrame? || move.DropFrame? {
        FrameRelated(blocking, l, early, late, move);
      } else if move.EndSending? {
        EndRelated(blocking, l, early, late);
        early', late' := early + [Broadcast(l.at.entry.now)] + late, [];
      } else {
        early' := SelectStep(blocking, l, early, move);
      }
    }
  }

  lemma SelectStep(blocking: bool, l: Loop, early: seq<Step>, move: Move) returns (early': seq<Step>)
    requires Related(l, early, []) && LoopInv(l) && Able(blocking, l, move)
    requires !AtEvent(l.at) && !l.at.Sending?
    ensures Related(Act(blocking, l, move), early', [])
  {
    SelectRelated(blocking, l, early, move);
    early' := early;
    if !move.ReceiveRegister? && !move.ReceiveMessage? && !(move.Delete? && Act(blocking, l, move).at.BeforeLeave?) {
      var step := match move
                  case Other(step) => step
                  case ReceiveUnregister(id) => Unregister(id)
                  case Return => Exit
                  case _ => Remove;
      early' := early + [step];
    }
  }

  /** Every run of the loop is related to a run of single steps. */
  lemma {:induction false} PlayRelated(moves: seq<Move>) returns (early: seq<Step>, late: seq<Step>)
    ensures Related(Play(false, moves), early, late)
  {
    if moves == [] {
      early, late := [], [];
    } else {
      var before := moves[..|moves| - 1];
      early, late := PlayRelated(before);
      ContinueInv(false, BEGIN, before);
      early, late := ActRelated(false, Play(false, before), early, late, moves[|moves| - 1]);
    }
  }

  ghost predicate Reachable(s: State)
  {
    exists steps :: Exec(steps) == s
  }

  /**
   * The arms may be taken for single steps: whenever Run is at its select, the hub is in
   * a state that a run of the hub protocol reaches, however senders and pumps have run
   * between the channel operations of its arms.
   */
  lemma ArmsAreSteps(moves: seq<Move>)
    requires Distance(Play(false, moves).at) == 0
    ensures Reachable(Play(false, moves).hub)
  {
    var early, late := PlayRelated(moves);
    hide Exec, Play;
  }

  /** In the middle of a broadcast Run never comes to a closed channel, nor to one handed over. */
  lemma NeverSendsOnClosed(moves: seq<Move>, id: string)
    requires Play(false, moves).at.Sending? && id in Play(false, moves).at.todo
    ensures var hub := Play(false, moves).hub;
            id in hub.conns && (hub.conns[id].phase.Pumping? || hub.conns[id].phase.Leaving?)
  {
    var early, late := PlayRelated(moves);
    var l, a := Play(false, moves), Exec(early);
    ExecInv(early);
    assert id in a.members && id in a.conns && ConnInv(a, id, a.conns[id]);
    hide Play, Exec, OfferedAll, Accounted;
    var half := Half(a, l.at.entry, a.members - l.at.todo);
    assert half.conns[id] == a.conns[id];
    AvoidOne(late, l.at.todo, id);
    StepsKeep(half, late, id, a.conns[id]);
  }
}
