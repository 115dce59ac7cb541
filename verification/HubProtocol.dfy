/**
 * The SSE hub as a step system: the Run loop with its bounded broadcast queue, the
 * rendezvous of register and unregister, and one write pump per subscriber with its
 * bounded send queue. Any list of steps is a run; a step that is not enabled in the
 * state it meets changes nothing.
 */
module HubProtocol {
  import opened Prelude
  import opened Rendering

  /** The capacity of the broadcast queue and of every send queue. */
  const CAPACITY: nat := 256

  datatype EventKind = Join | Leave

  /**
   * A message by what its bytes decode to. Senders post marshalled chat messages;
   * Malformed stands for bytes that are not JSON.
   */
  datatype Message =
    | ChatMsg(chat: Chat)
    | Event(kind: EventKind, client: string, user: string)
    | Malformed(raw: string)

  /** The HTML made of a message once per broadcast, for all HTML subscribers. */
  datatype Fragment = Blank | EventSpan(kind: EventKind, user: string) | Row(chat: Chat, flags: Flags)

  datatype Frame = Html(fragment: Fragment) | Json(message: Message)

  datatype Sub = Sub(id: string, user: string, html: bool)

  /** A popped message with its fragment, the time, and whether an HTML subscriber was there. */
  datatype Entry = Entry(message: Message, fragment: Fragment, now: int, html: bool)

  /** A frame offered to a subscriber's send queue, and whether there was room. */
  datatype Offer = Offer(frame: Frame, kept: bool)

  /** Leaving: blocked on unregister. HandedOver: taken by Run, channel not yet closed. */
  datatype Phase = Pumping | Leaving | HandedOver | Closed

  /**
   * A connection. `taken` logs what its pump received, `written` what reached the
   * stream, `offers` what Run offered; `from` and `left` are the lengths of the hub's
   * log when it joined and left the map of subscribers.
   */
  datatype Conn = Conn(
    sub: Sub, phase: Phase, queue: seq<Frame>, hand: Option<Frame>,
    taken: seq<Frame>, written: seq<Frame>, offers: seq<Offer>, from: nat, left: Option<nat>)

  /** Where Run is: at its select, inside the unregister arm, or returned. */
  datatype Arm = Selecting | Removing(id: string) | Exited

  datatype State = State(
    members: set<string>, conns: map<string, Conn>, broadcast: seq<Message>, last: Last,
    arm: Arm, stopping: bool, log: seq<Entry>, lost: nat)

  const START: State := State({}, map[], [], NEVER, Selecting, false, [], 0)

  // ---------------------------------------------------------------------------
  // The steps
  // ---------------------------------------------------------------------------

  datatype Step =
    | Post(m: Message)
    | Register(sub: Sub)
    | Unregister(id: string)
    | Remove
    | Broadcast(now: int)
    | Take(id: string)
    | WriteDone(id: string)
    | Disconnect(id: string)
    | CloseSend(id: string)
    | Stop
    | Exit

  /** Client identifiers are generated and never repeat, so Register brings a new one. */
  predicate Enabled(s: State, step: Step)
  {
    match step
    case Post(m) => !m.Event? && |s.broadcast| < CAPACITY
    case Register(sub) => s.arm.Selecting? && sub.id !in s.conns
    case Unregister(id) => s.arm.Selecting? && id in s.conns && s.conns[id].phase.Leaving?
    case Remove => s.arm.Removing?
    case Broadcast(_) => s.arm.Selecting? && s.broadcast != []
    case Take(id) => id in s.conns && s.conns[id].phase.Pumping? && s.conns[id].hand.None? && s.conns[id].queue != []
    case WriteDone(id) => id in s.conns && s.conns[id].phase.Pumping? && s.conns[id].hand.Some?
    case Disconnect(id) => id in s.conns && s.conns[id].phase.Pumping?
    case CloseSend(id) => id in s.conns && s.conns[id].phase.HandedOver?
    case Stop => true
    case Exit => s.arm.Selecting? && s.stopping
  }

  /** broadcastEvent: append to the hub's own input queue, or drop. */
  function PostEvent(s: State, kind: EventKind, sub: Sub): State
  {
    if |s.broadcast| < CAPACITY then s.(broadcast := s.broadcast + [Event(kind, sub.id, sub.user)])
    else s.(lost := s.lost + 1)
  }

  function Render(last: Last, html: bool, m: Message, now: int): (Last, Fragment)
  {
    if !html then (last, Blank)
    else match m
      case Malformed(_) => (last, Blank)
      case Event(kind, _, user) => (last, EventSpan(kind, user))
      case ChatMsg(chat) => (LastOf([chat]), Row(chat, HubFlags(last, chat, now)))
  }

  function FrameOf(sub: Sub, entry: Entry): Frame
  {
    if sub.html then Html(entry.fragment) else Json(entry.message)
  }

  function Offered(c: Conn, frame: Frame): Conn
  {
    var kept := |c.queue| < CAPACITY;
    c.(offers := c.offers + [Offer(frame, kept)], queue := if kept then c.queue + [frame] else c.queue)
  }

  function FanOut(s: State, entry: Entry): map<string, Conn>
  {
    map id | id in s.conns :: if id in s.members then Offered(s.conns[id], FrameOf(s.conns[id].sub, entry)) else s.conns[id]
  }

  predicate HasHtml(s: State)
  {
    exists id <- s.members :: id in s.conns && s.conns[id].sub.html
  }

  /** What Run makes of the message at the head of its queue. */
  function Popped(s: State, now: int): Entry
    requires s.broadcast != []
  {
    var m := s.broadcast[0];
    Entry(m, Render(s.last, HasHtml(s), m, now).1, now, HasHtml(s))
  }

  /** A JSON pump skips what it cannot decode. */
  predicate Writes(frame: Frame) {
    frame.Html? || !frame.message.Malformed?
  }

  /** The pump receives the next frame. */
  function Taken(c: Conn): Conn
    requires c.queue != []
  {
    var frame := c.queue[0];
    c.(queue := c.queue[1..], taken := c.taken + [frame], hand := if Writes(frame) then Some(frame) else None)
  }

  /** The frame in hand has reached the stream. */
  function Written(c: Conn): Conn
    requires c.hand.Some?
  {
    c.(hand := None, written := c.written + [c.hand.value])
  }

  function NewConn(sub: Sub, from: nat): Conn
  {
    Conn(sub, Pumping, [], None, [], [], [], from, None)
  }

  /** The rest of the unregister arm, once Run has received the subscriber. */
  function Removed(s: State, id: string): State
  {
    if id in s.members && id in s.conns then
      var c := s.conns[id].(left := Some(|s.log|));
      PostEvent(s.(members := s.members - {id}, conns := s.conns[id := c]), Leave, c.sub)
    else s
  }

  function Next(s: State, step: Step): State
  {
    if !Enabled(s, step) then s
    else match step
      case Post(m) => s.(broadcast := s.broadcast + [m])
      case Register(sub) =>
        PostEvent(s.(members := s.members + {sub.id}, conns := s.conns[sub.id := NewConn(sub, |s.log|)]), Join, sub)
      case Unregister(id) =>
        s.(arm := Removing(id), conns := s.conns[id := s.conns[id].(phase := HandedOver)])
      case Remove =>
        Removed(s.(arm := Selecting), s.arm.id)
      case Broadcast(now) =>
        var entry := Popped(s, now);
        s.(broadcast := s.broadcast[1..], log := s.log + [entry], conns := FanOut(s, entry),
           last := Render(s.last, entry.html, entry.message, now).0)
      case Take(id) =>
        s.(conns := s.conns[id := Taken(s.conns[id])])
      case WriteDone(id) =>
        s.(conns := s.conns[id := Written(s.conns[id])])
      case Disconnect(id) => s.(conns := s.conns[id := s.conns[id].(phase := Leaving)])
      case CloseSend(id) => s.(conns := s.conns[id := s.conns[id].(phase := Closed)])
      case Stop => s.(stopping := true)
      case Exit => s.(arm := Exited)
  }

  function Exec(steps: seq<Step>): State
  {
    if steps == [] then START else Next(Exec(steps[..|steps| - 1]), steps[|steps| - 1])
  }

  lemma ExecMore(steps: seq<Step>, step: Step)
    ensures Exec(steps + [step]) == Next(Exec(steps), step)
  {
    assert (steps + [step])[..|steps|] == steps;
  }

  // ---------------------------------------------------------------------------
  // What every step keeps
  // ---------------------------------------------------------------------------

  function Kept(offers: seq<Offer>): seq<Frame>
  {
    if offers == [] then []
    else
      var o := offers[|offers| - 1];
      Kept(offers[..|offers| - 1]) + if o.kept then [o.frame] else []
  }

  function Writable(frames: seq<Frame>): seq<Frame>
  {
    if frames == [] then []
    else
      var f := frames[|frames| - 1];
      Writable(frames[..|frames| - 1]) + if Writes(f) then [f] else []
  }

  function InHand(c: Conn): seq<Frame>
  {
    if c.hand.Some? then [c.hand.value] else []
  }

  /** The length of the log up to which the connection was in the map. */
  function Until(s: State, c: Conn): nat
  {
    if c.left.Some? then c.left.value else |s.log|
  }

  /** Every message popped while it was in the map was offered, in that order. */
  predicate OfferedAll(s: State, c: Conn)
  {
    && c.from <= Until(s, c) <= |s.log|
    && |c.offers| == Until(s, c) - c.from
    && forall i | 0 <= i < |c.offers| :: c.offers[i].frame == FrameOf(c.sub, s.log[c.from + i])
  }

  /** What was kept is what the pump took, then what is queued, and it writes what it takes. */
  predicate Accounted(c: Conn)
  {
    && |c.queue| <= CAPACITY
    && Kept(c.offers) == c.taken + c.queue
    && Writable(c.taken) == c.written + InHand(c)
  }

  predicate Placed(s: State, id: string, c: Conn)
  {
    && c.sub.id == id
    && (id in s.members <==> c.left.None?)
    && (c.phase.Pumping? || c.phase.Leaving? ==> id in s.members)
    && (c.phase.HandedOver? || c.phase.Closed? ==> id !in s.members || s.arm == Removing(id))
  }

  predicate ConnInv(s: State, id: string, c: Conn)
  {
    OfferedAll(s, c) && Accounted(c) && Placed(s, id, c)
  }

  predicate Inv(s: State)
  {
    && s.members <= s.conns.Keys
    && |s.broadcast| <= CAPACITY
    && (forall id <- s.conns :: ConnInv(s, id, s.conns[id]))
    && (s.arm.Removing? ==>
          s.arm.id in s.members && !s.conns[s.arm.id].phase.Pumping? && !s.conns[s.arm.id].phase.Leaving?)
  }

  lemma KeptMore(offers: seq<Offer>, o: Offer)
    ensures Kept(offers + [o]) == Kept(offers) + if o.kept then [o.frame] else []
  {
    assert (offers + [o])[..|offers|] == offers;
  }

  lemma WritableMore(frames: seq<Frame>, f: Frame)
    ensures Writable(frames + [f]) == Writable(frames) + if Writes(f) then [f] else []
  {
    assert (frames + [f])[..|frames|] == frames;
  }

  lemma OfferedAccounted(c: Conn, frame: Frame)
    requires Accounted(c)
    ensures Accounted(Offered(c, frame))
  {
    var kept := |c.queue| < CAPACITY;
    KeptMore(c.offers, Offer(frame, kept));
  }

  lemma TakeAccounted(c: Conn)
    requires Accounted(c) && c.hand.None? && c.queue != []
    ensures Accounted(Taken(c))
  {
    WritableMore(c.taken, c.queue[0]);
    assert c.taken + c.queue == c.taken + [c.queue[0]] + c.queue[1..];
  }

  lemma WriteAccounted(c: Conn)
    requires Accounted(c) && c.hand.Some?
    ensures Accounted(Written(c))
  {
    assert c.written + [c.hand.value] + [] == c.written + [c.hand.value];
  }

  lemma OfferedMore(s: State, t: State, entry: Entry, c: Conn)
    requires OfferedAll(s, c) && t.log == s.log + [entry]
    ensures if c.left.None? then OfferedAll(t, Offered(c, FrameOf(c.sub, entry))) else OfferedAll(t, c)
  {
    if c.left.None? {
      assert t.log[c.from + |c.offers|] == entry;
    }
  }

  lemma SameOffers(s: State, t: State, c: Conn, d: Conn)
    requires s.log == t.log && c.sub == d.sub && c.offers == d.offers && c.from == d.from
    requires Until(s, c) == Until(t, d)
    ensures OfferedAll(s, c) == OfferedAll(t, d)
  {
  }

  lemma FanOutInv(s: State, t: State, entry: Entry, id: string)
    requires Inv(s) && id in s.conns && s.arm.Selecting?
    requires t.log == s.log + [entry] && t.members == s.members && t.arm == s.arm
    ensures ConnInv(t, id, FanOut(s, entry)[id])
  {
    var c := s.conns[id];
    assert ConnInv(s, id, c);
    hide Inv, Accounted, OfferedAll, FrameOf;
    OfferedAccounted(c, FrameOf(c.sub, entry));
    OfferedMore(s, t, entry, c);
  }

  lemma BroadcastInv(s: State, now: int)
    requires Inv(s) && Enabled(s, Broadcast(now))
    ensures Inv(Next(s, Broadcast(now)))
  {
    var t := Next(s, Broadcast(now));
    forall id <- t.conns
      ensures ConnInv(t, id, t.conns[id])
    {
      FanOutInv(s, t, Popped(s, now), id);
    }
  }

  /** Only one connection changes, and neither the map nor the log does. */
  lemma SetConnInv(s: State, id: string, c: Conn, arm: Arm)
    requires Inv(s) && id in s.conns && Accounted(c) && Placed(s.(arm := arm), id, c)
    requires var d := s.conns[id]; c.sub == d.sub && c.offers == d.offers && c.from == d.from && c.left == d.left
    requires s.arm == arm || (s.arm.Selecting? && arm == Removing(id) && id in s.members)
    requires arm == Removing(id) ==> c.phase.HandedOver? || c.phase.Closed?
    ensures Inv(s.(conns := s.conns[id := c], arm := arm))
  {
    hide OfferedAll, Accounted;
    var t := s.(conns := s.conns[id := c], arm := arm);
    forall other <- t.conns
      ensures ConnInv(t, other, t.conns[other])
    {
      assert ConnInv(s, other, s.conns[other]);
      SameOffers(s, t, s.conns[other], t.conns[other]);
    }
  }

  lemma PumpInv(s: State, step: Step)
    requires Inv(s) && Enabled(s, step) && (step.Take? || step.WriteDone?)
    ensures Inv(Next(s, step))
  {
    var c := s.conns[step.id];
    assert ConnInv(s, step.id, c);
    if step.Take? {
      TakeAccounted(c);
      SetConnInv(s, step.id, Taken(c), s.arm);
    } else {
      WriteAccounted(c);
      SetConnInv(s, step.id, Written(c), s.arm);
    }
  }

  lemma PhaseInv(s: State, step: Step)
    requires Inv(s) && Enabled(s, step) && (step.Disconnect? || step.CloseSend? || step.Unregister?)
    ensures Inv(Next(s, step))
  {
    var c := s.conns[step.id];
    assert ConnInv(s, step.id, c);
    var phase := if step.Disconnect? then Leaving else if step.CloseSend? then Closed else HandedOver;
    SetConnInv(s, step.id, c.(phase := phase), if step.Unregister? then Removing(step.id) else s.arm);
  }

  lemma NewConnInv(s: State, t: State, sub: Sub)
    requires t.log == s.log && sub.id in t.members
    ensures ConnInv(t, sub.id, NewConn(sub, |s.log|))
  {
  }

  lemma RegisterInv(s: State, sub: Sub)
    requires Inv(s) && Enabled(s, Register(sub))
    ensures Inv(Next(s, Register(sub)))
  {
    var t := Next(s, Register(sub));
    hide OfferedAll, Accounted, NewConn;
    NewConnInv(s, t, sub);
    forall id <- t.conns
      ensures ConnInv(t, id, t.conns[id])
    {
      if id != sub.id {
        assert ConnInv(s, id, s.conns[id]);
        SameOffers(s, t, s.conns[id], t.conns[id]);
      }
    }
  }

  lemma RemoveInv(s: State)
    requires Inv(s) && Enabled(s, Remove)
    ensures Inv(Next(s, Remove))
  {
    hide OfferedAll, Accounted;
    var t := Next(s, Remove);
    forall id <- t.conns
      ensures ConnInv(t, id, t.conns[id])
    {
      assert ConnInv(s, id, s.conns[id]);
      SameOffers(s, t, s.conns[id], t.conns[id]);
      SameQueues(s.conns[id], t.conns[id]);
    }
  }

  lemma SameQueues(c: Conn, d: Conn)
    requires d == c.(left := d.left)
    ensures Accounted(c) == Accounted(d)
  {
  }

  /** Posting, stopping and returning touch no connection. */
  lemma QuietInv(s: State, step: Step)
    requires Inv(s) && Enabled(s, step) && (step.Post? || step.Stop? || step.Exit?)
    ensures Inv(Next(s, step))
  {
    hide OfferedAll, Accounted;
    var t := Next(s, step);
    forall id <- t.conns
      ensures ConnInv(t, id, t.conns[id])
    {
      assert ConnInv(s, id, s.conns[id]);
      SameOffers(s, t, s.conns[id], t.conns[id]);
    }
  }

  lemma NextInv(s: State, step: Step)
    requires Inv(s)
    ensures Inv(Next(s, step))
  {
    hide Inv;
    if Enabled(s, step) {
      match step {
        case Broadcast(now) => BroadcastInv(s, now);
        case Register(sub) => RegisterInv(s, sub);
        case Remove => RemoveInv(s);
        case Post(_) => QuietInv(s, step);
        case Stop => QuietInv(s, step);
        case Exit => QuietInv(s, step);
        case Take(_) => PumpInv(s, step);
        case WriteDone(_) => PumpInv(s, step);
        case _ => PhaseInv(s, step);
      }
    }
  }

  lemma {:induction false} ExecInv(steps: seq<Step>)
    ensures Inv(Exec(steps))
  {
    if steps != [] {
      ExecInv(steps[..|steps| - 1]);
      NextInv(Exec(steps[..|steps| - 1]), steps[|steps| - 1]);
    }
  }

  // ---------------------------------------------------------------------------
  // Delivery to one subscriber
  // ---------------------------------------------------------------------------

  lemma {:induction false} WritableAppend(a: seq<Frame>, b: seq<Frame>)
    ensures Writable(a + b) == Writable(a) + Writable(b)
  {
    if b == [] {
      assert a + b == a;
    } else {
      assert (a + b)[..|a + b| - 1] == a + b[..|b| - 1];
      WritableAppend(a, b[..|b| - 1]);
    }
  }

  function OfferedFrames(offers: seq<Offer>): seq<Frame>
  {
    seq(|offers|, i requires 0 <= i < |offers| => offers[i].frame)
  }

  function Messages(log: seq<Entry>): seq<Message>
  {
    seq(|log|, i requires 0 <= i < |log| => log[i].message)
  }

  /** The messages as JSON subscribers are sent them, and the fragments as HTML ones are. */
  function Jsons(messages: seq<Message>): seq<Frame>
  {
    seq(|messages|, i requires 0 <= i < |messages| => Json(messages[i]))
  }

  function Htmls(log: seq<Entry>): seq<Frame>
  {
    seq(|log|, i requires 0 <= i < |log| => Html(log[i].fragment))
  }

  /** The messages that are JSON. */
  function Decodable(messages: seq<Message>): seq<Message>
  {
    if messages == [] then []
    else
      var m := messages[|messages| - 1];
      Decodable(messages[..|messages| - 1]) + if m.Malformed? then [] else [m]
  }

  /** A JSON pump writes exactly the messages that are JSON, an HTML pump everything. */
  lemma {:induction false} WritableJsons(messages: seq<Message>)
    ensures Writable(Jsons(messages)) == Jsons(Decodable(messages))
  {
    if messages != [] {
      var before, m := messages[..|messages| - 1], messages[|messages| - 1];
      WritableJsons(before);
      assert Jsons(messages)[..|messages| - 1] == Jsons(before);
    }
  }

  lemma {:induction false} WritableHtmls(log: seq<Entry>)
    ensures Writable(Htmls(log)) == Htmls(log)
  {
    if log != [] {
      WritableHtmls(log[..|log| - 1]);
      assert Htmls(log)[..|log| - 1] == Htmls(log[..|log| - 1]);
    }
  }

  /**
   * For every run and every subscriber: the messages popped while it was in the map are
   * exactly those offered to it, in pop order, a JSON subscriber being offered the message
   * itself and an HTML subscriber its fragment; and of those kept, what is on the wire,
   * then in hand, then still queued, is all that its pump writes, in the same order.
   */
  lemma SplitsExactly(steps: seq<Step>, id: string)
    requires id in Exec(steps).conns
    ensures var s := Exec(steps); var c := s.conns[id];
            && c.from <= Until(s, c) <= |s.log|
            && OfferedFrames(c.offers) ==
                 (var popped := s.log[c.from..Until(s, c)]; if c.sub.html then Htmls(popped) else Jsons(Messages(popped)))
            && c.written + InHand(c) + Writable(c.queue) == Writable(Kept(c.offers))
            && |c.queue| <= CAPACITY
  {
    ExecInv(steps);
    var s := Exec(steps);
    var c := s.conns[id];
    assert ConnInv(s, id, c);
    WritableAppend(c.taken, c.queue);
  }

  lemma {:induction false} AllKept(offers: seq<Offer>)
    requires forall o <- offers :: o.kept
    ensures Kept(offers) == OfferedFrames(offers)
  {
    if offers != [] {
      AllKept(offers[..|offers| - 1]);
    }
  }

  /** How one step changes what one subscriber was offered. */
  lemma OffersStep(s: State, step: Step, id: string)
    requires Inv(s) && id in Next(s, step).conns
    ensures var t := Next(s, step); var d := t.conns[id];
            if id !in s.conns then d.offers == []
            else
              var c := s.conns[id];
              d.from == c.from &&
              if step.Broadcast? && Enabled(s, step) && id in s.members
              then d.offers == c.offers + [Offer(FrameOf(c.sub, Popped(s, step.now)), |c.queue| < CAPACITY)]
                   && |s.log| == c.from + |c.offers|
              else d.offers == c.offers
  {
    hide Inv, FrameOf, Popped, Render;
    if step.Broadcast? {
      OffersBroadcast(s, step.now, id);
    }
  }

  lemma OffersBroadcast(s: State, now: int, id: string)
    requires Inv(s) && id in s.conns
    ensures id in s.members ==> |s.log| == s.conns[id].from + |s.conns[id].offers|
    ensures Enabled(s, Broadcast(now)) ==>
      Next(s, Broadcast(now)).conns == FanOut(s, Popped(s, now))
  {
    assert ConnInv(s, id, s.conns[id]);
    hide Inv, Accounted, FrameOf, Popped, Render;
  }

  /** Step k registered this connection, when the log had its length at that moment. */
  predicate JoinedAt(steps: seq<Step>, k: nat, c: Conn)
    requires k < |steps|
  {
    steps[k] == Register(c.sub) && Enabled(Exec(steps[..k]), steps[k]) && |Exec(steps[..k]).log| == c.from
  }

  /** Step k removed this connection. */
  predicate LeftAt(steps: seq<Step>, k: nat, c: Conn)
    requires k < |steps|
  {
    var s := Exec(steps[..k]);
    steps[k].Remove? && s.arm == Removing(c.sub.id) && c.sub.id in s.members && Some(|s.log|) == c.left
  }

  /** The connection stays the same one, in the map for as long. */
  predicate SameStay(c: Conn, d: Conn)
  {
    d.sub == c.sub && d.from == c.from && d.left == c.left
  }

  lemma RegisterStay(s: State, sub: Sub, id: string)
    requires Enabled(s, Register(sub))
    ensures var t := Next(s, Register(sub));
            && t.conns.Keys == s.conns.Keys + {sub.id}
            && t.conns[sub.id] == NewConn(sub, |s.log|) && (id in s.conns ==> t.conns[id] == s.conns[id])
  {
  }

  lemma RemoveStay(s: State, id: string)
    requires Enabled(s, Remove)
    ensures var t := Next(s, Remove);
            && t.conns.Keys == s.conns.Keys
            && (id in s.conns ==>
                  var c := s.conns[id];
                  t.conns[id] == if s.arm == Removing(id) && id in s.members then c.(left := Some(|s.log|)) else c)
  {
  }

  lemma BroadcastStay(s: State, now: int, id: string)
    requires Enabled(s, Broadcast(now))
    ensures var t := Next(s, Broadcast(now));
            t.conns.Keys == s.conns.Keys && (id in s.conns ==> SameStay(s.conns[id], t.conns[id]))
  {
    hide Popped, Render, FrameOf;
  }

  lemma OtherStay(s: State, step: Step, id: string)
    requires !step.Register? && !step.Remove? && !step.Broadcast?
    ensures var t := Next(s, step);
            t.conns.Keys == s.conns.Keys && (id in s.conns ==> SameStay(s.conns[id], t.conns[id]))
  {
  }

  /** How one step changes who is connected. */
  lemma ConnStep(s: State, step: Step, id: string)
    requires Inv(s) && id in Next(s, step).conns
    ensures var t := Next(s, step); var d := t.conns[id];
            if id !in s.conns then
              Enabled(s, step) && step == Register(d.sub) && d.from == |s.log| && d.left.None? && d.sub.id == id
            else
              var c := s.conns[id];
              d.sub == c.sub && d.from == c.from && c.sub.id == id &&
              if step.Remove? && s.arm == Removing(id) && id in s.members then d.left == Some(|s.log|)
              else d.left == c.left
  {
    if id in s.conns {
      assert s.conns[id].sub.id == id by { assert ConnInv(s, id, s.conns[id]); }
    }
    assert step.Remove? && s.arm.Removing? ==> Enabled(s, step);
    assert !Enabled(s, step) ==> Next(s, step) == s;
    hide Next, Inv, Enabled;
    if Enabled(s, step) {
      match step {
        case Register(sub) => RegisterStay(s, sub, id);
        case Remove => RemoveStay(s, id);
        case Broadcast(now) => BroadcastStay(s, now, id);
        case _ => OtherStay(s, step, id);
      }
    }
  }

  lemma JoinedAtMore(before: seq<Step>, step: Step, c: Conn, d: Conn)
    requires c.sub == d.sub && c.from == d.from
    ensures (exists k | 0 <= k < |before| :: JoinedAt(before, k, c)) ==>
            exists k | 0 <= k < |before + [step]| :: JoinedAt(before + [step], k, d)
  {
    if k :| 0 <= k < |before| && JoinedAt(before, k, c) {
      assert (before + [step])[..k] == before[..k];
      assert JoinedAt(before + [step], k, d);
    }
  }

  lemma LeftAtMore(before: seq<Step>, step: Step, c: Conn, d: Conn)
    requires c.sub == d.sub && c.left == d.left
    ensures (exists k | 0 <= k < |before| :: LeftAt(before, k, c)) ==>
            exists k | 0 <= k < |before + [step]| :: LeftAt(before + [step], k, d)
  {
    if k :| 0 <= k < |before| && LeftAt(before, k, c) {
      assert (before + [step])[..k] == before[..k];
      assert LeftAt(before + [step], k, d);
    }
  }

  /**
   * A connection is in the map from the step that registered it to the step that removed
   * it: the messages it is offered are those popped between the two.
   */
  lemma {:induction false} JoinsAndLeaves(steps: seq<Step>, id: string)
    requires id in Exec(steps).conns
    ensures var c := Exec(steps).conns[id];
            && c.sub.id == id
            && (exists k | 0 <= k < |steps| :: JoinedAt(steps, k, c))
            && (c.left.Some? ==> exists k | 0 <= k < |steps| :: LeftAt(steps, k, c))
            && (id in Exec(steps).members <==> c.left.None?)
  {
    ExecInv(steps);
    assert ConnInv(Exec(steps), id, Exec(steps).conns[id]);
    var before, step := steps[..|steps| - 1], steps[|steps| - 1];
    var s := Exec(before);
    ExecInv(before);
    ConnStep(s, step, id);
    assert before + [step] == steps && Exec(steps) == Next(s, step) && steps[..|before|] == before;
    var d := Exec(steps).conns[id];
    hide Next, Inv, Enabled, Exec, ConnInv;
    if id !in s.conns {
      assert JoinedAt(steps, |before|, d);
    } else {
      var c := s.conns[id];
      JoinsAndLeaves(before, id);
      JoinedAtMore(before, step, c, d);
      if d.left == c.left {
        LeftAtMore(before, step, c, d);
      } else {
        assert LeftAt(steps, |before|, d);
      }
    }
  }

  /** The step of the run that offered the i-th message to the subscriber. */
  predicate OfferedAt(steps: seq<Step>, k: nat, id: string, i: nat, kept: bool)
    requires k < |steps|
  {
    var s := Exec(steps[..k]);
    && steps[k].Broadcast? && Enabled(s, steps[k])
    && id in s.members && id in s.conns
    && |s.log| == s.conns[id].from + i
    && (kept <==> |s.conns[id].queue| < 256)
  }

  lemma OfferedAtMore(before: seq<Step>, step: Step, k: nat, id: string, i: nat, kept: bool)
    requires k < |before| && OfferedAt(before, k, id, i, kept)
    ensures OfferedAt(before + [step], k, id, i, kept)
  {
    assert (before + [step])[..k] == before[..k];
  }

  lemma OfferedAtLast(before: seq<Step>, step: Step, id: string, i: nat)
    requires var s := Exec(before);
             step.Broadcast? && Enabled(s, step) && id in s.members && id in s.conns && |s.log| == s.conns[id].from + i
    ensures OfferedAt(before + [step], |before|, id, i, |Exec(before).conns[id].queue| < CAPACITY)
  {
    assert (before + [step])[..|before|] == before;
  }

  /** A message is dropped exactly when the subscriber's queue was full as it was popped. */
  lemma {:induction false} DropsExactlyWhenFull(steps: seq<Step>, id: string, i: nat)
    requires id in Exec(steps).conns && i < |Exec(steps).conns[id].offers|
    ensures exists k | 0 <= k < |steps| :: OfferedAt(steps, k, id, i, Exec(steps).conns[id].offers[i].kept)
  {
    var before, step := steps[..|steps| - 1], steps[|steps| - 1];
    var s := Exec(before);
    ExecInv(before);
    OffersStep(s, step, id);
    assert before + [step] == steps && Exec(steps) == Next(s, step);
    hide Next, Inv, Enabled, OfferedAt, Exec;
    var kept := Next(s, step).conns[id].offers[i].kept;
    if i < |s.conns[id].offers| {
      DropsExactlyWhenFull(before, id, i);
      var k :| 0 <= k < |before| && OfferedAt(before, k, id, i, s.conns[id].offers[i].kept);
      OfferedAtMore(before, step, k, id, i, kept);
    } else {
      OfferedAtLast(before, step, id, i);
    }
  }

  /** Its queue has room whenever a message is popped. */
  predicate NeverFull(steps: seq<Step>, id: string)
  {
    forall k | 0 <= k < |steps| && steps[k].Broadcast? ::
      id in Exec(steps[..k]).conns ==> |Exec(steps[..k]).conns[id].queue| < 256
  }

  /**
   * A subscriber whose queue never fills loses nothing: a JSON subscriber gets all decodable
   * messages popped while it was in the map, an HTML subscriber all their fragments.
   */
  lemma NeverFullLosesNothing(steps: seq<Step>, id: string)
    requires id in Exec(steps).conns && NeverFull(steps, id)
    ensures var s := Exec(steps); var c := s.conns[id];
            && c.from <= Until(s, c) <= |s.log|
            && var popped := s.log[c.from..Until(s, c)];
               c.written + InHand(c) + Writable(c.queue) ==
                 if c.sub.html then Htmls(popped) else Jsons(Decodable(Messages(popped)))
  {
    var s, c := Exec(steps), Exec(steps).conns[id];
    SplitsExactly(steps, id);
    WritableJsons(Messages(s.log[c.from..Until(s, c)]));
    WritableHtmls(s.log[c.from..Until(s, c)]);
    forall i | 0 <= i < |c.offers|
      ensures c.offers[i].kept
    {
      DropsExactlyWhenFull(steps, id, i);
      var k :| 0 <= k < |steps| && OfferedAt(steps, k, id, i, c.offers[i].kept);
    }
    AllKept(c.offers);
  }

  // ---------------------------------------------------------------------------
  // The hub's own queue
  // ---------------------------------------------------------------------------

  /** All messages ever accepted into the broadcast queue, in order. */
  function Accepted(s: State): seq<Message>
  {
    Messages(s.log) + s.broadcast
  }

  /** The messages a step adds. */
  function Adds(s: State, step: Step): seq<Message>
  {
    if !Enabled(s, step) then []
    else match step
      case Post(m) => [m]
      case Register(sub) => if |s.broadcast| < CAPACITY then [Event(Join, sub.id, sub.user)] else []
      case Remove =>
        if |s.broadcast| < CAPACITY && s.arm.id in s.members && s.arm.id in s.conns
        then [Event(Leave, s.conns[s.arm.id].sub.id, s.conns[s.arm.id].sub.user)] else []
      case _ => []
  }

  lemma AcceptedStep(s: State, step: Step)
    ensures Accepted(Next(s, step)) == Accepted(s) + Adds(s, step)
    ensures s.log <= Next(s, step).log
  {
    var t := Next(s, step);
    if Enabled(s, step) && step.Broadcast? {
      assert Messages(t.log) == Messages(s.log) + [s.broadcast[0]];
      assert s.broadcast == [s.broadcast[0]] + s.broadcast[1..];
    }
  }

  lemma {:induction false} AcceptedGrows(steps: seq<Step>, more: seq<Step>)
    ensures Accepted(Exec(steps)) <= Accepted(Exec(steps + more))
    ensures Exec(steps).log <= Exec(steps + more).log
  {
    hide *;
    if more == [] {
      assert steps + more == steps;
    } else {
      var before := steps + more[..|more| - 1];
      AcceptedGrows(steps, more[..|more| - 1]);
      assert steps + more == before + [more[|more| - 1]];
      ExecMore(before, more[|more| - 1]);
      AcceptedStep(Exec(before), more[|more| - 1]);
    }
  }

  /** The number of messages popped in a run. */
  function Pops(steps: seq<Step>): nat
  {
    if steps == [] then 0
    else
      var before, step := steps[..|steps| - 1], steps[|steps| - 1];
      Pops(before) + if step.Broadcast? && Enabled(Exec(before), step) then 1 else 0
  }

  lemma {:induction false} LogCountsPops(steps: seq<Step>)
    ensures |Exec(steps).log| == Pops(steps)
  {
    if steps != [] {
      LogCountsPops(steps[..|steps| - 1]);
    }
  }

  /** A message at position p of the queue is the one popped by the (p+1)-st pop from now. */
  lemma PoppedInTurn(steps: seq<Step>, more: seq<Step>, p: nat)
    requires p < |Exec(steps).broadcast|
    requires Pops(steps + more) == Pops(steps) + p + 1
    ensures var log := Exec(steps + more).log;
            log != [] && log[|log| - 1].message == Exec(steps).broadcast[p]
  {
    LogCountsPops(steps);
    LogCountsPops(steps + more);
    AcceptedGrows(steps, more);
    hide Exec, Pops;
    var s, t := Exec(steps), Exec(steps + more);
    assert Accepted(s)[|s.log| + p] == Accepted(t)[|s.log| + p];
  }

  /**
   * Run never sends on a closed channel. A subscriber in the map has a closed one only
   * while Run is in the arm that is about to remove it.
   */
  lemma ClosedOnlyWhileRemoving(steps: seq<Step>, id: string, now: int)
    requires id in Exec(steps).members && id in Exec(steps).conns
    ensures var s := Exec(steps);
            && (s.conns[id].phase.Closed? ==> s.arm == Removing(id))
            && (Enabled(s, Broadcast(now)) ==> !s.conns[id].phase.Closed? && !s.conns[id].phase.HandedOver?)
  {
    ExecInv(steps);
    assert ConnInv(Exec(steps), id, Exec(steps).conns[id]);
  }

  // ---------------------------------------------------------------------------
  // Join and leave events
  // ---------------------------------------------------------------------------

  /** The client set a reader of the events would keep. */
  function Replay(messages: seq<Message>): set<string>
  {
    if messages == [] then {}
    else
      var before, m := Replay(messages[..|messages| - 1]), messages[|messages| - 1];
      if m.Event? then (if m.kind.Join? then before + {m.client} else before - {m.client}) else before
  }

  /** Of one client there is at most a join followed by at most a leave. */
  predicate JoinThenLeave(messages: seq<Message>)
  {
    forall i, j | 0 <= i < j < |messages| ::
      messages[i].Event? && messages[j].Event? && messages[i].client == messages[j].client ==>
        messages[i].kind.Join? && messages[j].kind.Leave?
  }

  /** Events are about known clients, and a leave about one no longer in the map. */
  predicate EventsKnown(s: State, messages: seq<Message>)
  {
    forall i | 0 <= i < |messages| && messages[i].Event? ::
      && messages[i].client in s.conns && s.conns[messages[i].client].sub.user == messages[i].user
      && (messages[i].kind.Leave? ==> messages[i].client !in s.members)
  }

  lemma JoinThenLeaveMore(messages: seq<Message>, m: Message)
    requires JoinThenLeave(messages)
    requires m.Event? ==> forall i | 0 <= i < |messages| && messages[i].Event? && messages[i].client == m.client ::
                            messages[i].kind.Join? && m.kind.Leave?
    ensures JoinThenLeave(messages + [m])
  {
  }

  lemma EventsStep(s: State, step: Step)
    requires Inv(s) && JoinThenLeave(Accepted(s)) && EventsKnown(s, Accepted(s))
    ensures JoinThenLeave(Accepted(Next(s, step))) && EventsKnown(Next(s, step), Accepted(Next(s, step)))
  {
    AcceptedStep(s, step);
    var all, more, t := Accepted(s), Adds(s, step), Next(s, step);
    if Enabled(s, step) && step.Remove? {
      assert ConnInv(s, s.arm.id, s.conns[s.arm.id]);
    }
    ClientsStep(s, step);
    forall i | 0 <= i < |all| && all[i].Event?
      ensures all[i].client in t.conns && t.conns[all[i].client].sub.user == all[i].user
    {
      ConnStep(s, step, all[i].client);
    }
    hide Accepted, Next, Inv, JoinThenLeave, Adds;
    if more == [] {
      assert all + more == all;
    } else {
      assert more == [more[0]];
      JoinThenLeaveMore(all, more[0]);
    }
  }

  /** Clients are never forgotten, and one that left the map never comes back. */
  lemma ClientsStep(s: State, step: Step)
    requires Inv(s)
    ensures s.conns.Keys <= Next(s, step).conns.Keys
    ensures forall id <- s.conns :: id !in s.members ==> id !in Next(s, step).members
    ensures Adds(s, step) != [] && Adds(s, step)[0].Event? ==>
              var m := Adds(s, step)[0];
              && m.client in Next(s, step).conns && Next(s, step).conns[m.client].sub.user == m.user
              && (if m.kind.Join? then m.client !in s.conns else m.client in s.members && m.client !in Next(s, step).members)
  {
    if Enabled(s, step) && step.Remove? {
      assert ConnInv(s, s.arm.id, s.conns[s.arm.id]);
    }
    hide ConnInv;
  }

  lemma ReplayMore(messages: seq<Message>, more: seq<Message>)
    requires |more| <= 1
    ensures more == [] ==> Replay(messages + more) == Replay(messages)
    ensures more != [] && !more[0].Event? ==> Replay(messages + more) == Replay(messages)
    ensures more != [] && more[0].Event? ==>
      Replay(messages + more) ==
        if more[0].kind.Join? then Replay(messages) + {more[0].client} else Replay(messages) - {more[0].client}
  {
    if more == [] {
      assert messages + more == messages;
    } else {
      assert (messages + more)[..|messages|] == messages;
    }
  }

  lemma ReplayStep(s: State, step: Step)
    requires Inv(s) && Next(s, step).lost == 0 && Replay(Accepted(s)) == s.members
    ensures Replay(Accepted(Next(s, step))) == Next(s, step).members
  {
    AcceptedStep(s, step);
    ReplayMore(Accepted(s), Adds(s, step));
    if Enabled(s, step) && step.Remove? {
      assert ConnInv(s, s.arm.id, s.conns[s.arm.id]);
    }
    hide Accepted, Replay;
  }

  lemma LostStep(s: State, step: Step)
    ensures s.lost <= Next(s, step).lost
  {
  }

  /**
   * Replaying the join and leave events, popped and queued, gives exactly the current
   * subscribers as long as no event was dropped; and with or without drops every client
   * has at most one join, then at most one leave.
   */
  lemma {:induction false} EventsTellMembers(steps: seq<Step>)
    ensures var s := Exec(steps);
            && (s.lost == 0 ==> Replay(Accepted(s)) == s.members)
            && JoinThenLeave(Accepted(s)) && EventsKnown(s, Accepted(s))
  {
    if steps != [] {
      var before, step := steps[..|steps| - 1], steps[|steps| - 1];
      EventsTellMembers(before);
      ExecInv(before);
      EventsStep(Exec(before), step);
      LostStep(Exec(before), step);
      if Exec(steps).lost == 0 {
        ReplayStep(Exec(before), step);
      }
    }
  }

  /** A pump that takes frames and writes them, a number of times. */
  function Turns(id: string, n: nat): seq<Step>
  {
    if n == 0 then [] else Turns(id, n - 1) + [Take(id), WriteDone(id)]
  }

  /** The connection after its first n frames in the queue are dealt with. */
  function Drained(c: Conn, n: nat): Conn
    requires n <= |c.queue|
  {
    c.(queue := c.queue[n..], taken := c.taken + c.queue[..n], written := c.written + Writable(c.queue[..n]))
  }

  lemma DrainOne(start: State, id: string, n: nat)
    requires id in start.conns && n < |start.conns[id].queue|
    requires start.conns[id].phase.Pumping? && start.conns[id].hand.None?
    ensures var c := start.conns[id];
            var s := start.(conns := start.conns[id := Drained(c, n)]);
            Next(Next(s, Take(id)), WriteDone(id)) == start.(conns := start.conns[id := Drained(c, n + 1)])
  {
    var c := start.conns[id];
    var s := start.(conns := start.conns[id := Drained(c, n)]);
    var d, frame := Drained(c, n), c.queue[n];
    WritableMore(c.queue[..n], frame);
    assert c.queue[..n + 1] == c.queue[..n] + [frame] && d.queue[0] == frame && d.queue[1..] == c.queue[n + 1..];
    assert c.taken + c.queue[..n] + [frame] == c.taken + c.queue[..n + 1];
    hide Writable;
    var t := Next(s, Take(id));
    assert t == s.(conns := s.conns[id := Taken(d)]);
    assert c.written + (Writable(c.queue[..n]) + []) == c.written + Writable(c.queue[..n]);
    assert c.written + (Writable(c.queue[..n]) + [frame]) == c.written + Writable(c.queue[..n]) + [frame];
    if Writes(frame) {
      assert Written(Taken(d)) == Drained(c, n + 1);
    } else {
      assert Taken(d) == Drained(c, n + 1);
    }
  }

  /** A pump can always catch up: it writes what is queued, in order, and changes nothing else. */
  lemma {:induction false} PumpCatchesUp(steps: seq<Step>, id: string, n: nat)
    requires var s := Exec(steps);
             id in s.conns && s.conns[id].phase.Pumping? && s.conns[id].hand.None? && n <= |s.conns[id].queue|
    ensures var s := Exec(steps);
            Exec(steps + Turns(id, n)) == s.(conns := s.conns[id := Drained(s.conns[id], n)])
  {
    hide *;
    if n == 0 {
      NothingDrained(Exec(steps), id);
      NoTurns(steps, id);
    } else {
      PumpCatchesUp(steps, id, n - 1);
      var before := steps + Turns(id, n - 1);
      TurnsMore(steps, id, n);
      ExecMore(before, Take(id));
      ExecMore(before + [Take(id)], WriteDone(id));
      DrainOne(Exec(steps), id, n - 1);
    }
  }

  lemma NoTurns(steps: seq<Step>, id: string)
    ensures steps + Turns(id, 0) == steps
  {
  }

  lemma TurnsMore(steps: seq<Step>, id: string, n: nat)
    requires n > 0
    ensures steps + Turns(id, n) == steps + Turns(id, n - 1) + [Take(id)] + [WriteDone(id)]
  {
  }

  lemma NothingDrained(s: State, id: string)
    requires id in s.conns
    ensures s.(conns := s.conns[id := Drained(s.conns[id], 0)]) == s
  {
    var c := s.conns[id];
    assert c.queue[0..] == c.queue && c.taken + [] == c.taken && c.written + [] == c.written;
  }

  /** The end of a connection: its pump gives up, Run takes it out, and its channel is closed. */
  function Departure(id: string): seq<Step>
  {
    [Disconnect(id), Unregister(id), Remove, CloseSend(id)]
  }

  /**
   * A pump can always leave while Run is at its select: these four steps take its subscriber
   * out of the map at the present end of the log, close its channel, and announce the leave
   * if there is room, whatever the queues hold.
   */
  lemma DepartureRemoves(steps: seq<Step>, id: string)
    requires var s := Exec(steps); s.arm.Selecting? && id in s.conns && s.conns[id].phase.Pumping?
    ensures var s := Exec(steps); var t := Exec(steps + Departure(id)); var c := s.conns[id];
            && id in s.members && t.members == s.members - {id} && t.arm.Selecting? && t.log == s.log
            && t.conns == s.conns[id := c.(phase := Closed, left := Some(|s.log|))]
            && t.broadcast == s.broadcast + if |s.broadcast| < 256 then [Event(Leave, id, c.sub.user)] else []
  {
    var s := Exec(steps);
    assert id in s.members && s.conns[id].sub.id == id by {
      ExecInv(steps);
      assert ConnInv(s, id, s.conns[id]);
    }
    ExecFour(steps, Disconnect(id), Unregister(id), Remove, CloseSend(id));
    hide Exec;
    FourSteps(s, id);
  }

  lemma ExecFour(steps: seq<Step>, a: Step, b: Step, c: Step, d: Step)
    ensures Exec(steps + [a, b, c, d]) == Next(Next(Next(Next(Exec(steps), a), b), c), d)
  {
    hide *;
    ExecMore(steps, a);
    ExecMore(steps + [a], b);
    ExecMore(steps + [a] + [b], c);
    ExecMore(steps + [a] + [b] + [c], d);
    assert steps + [a] + [b] + [c] + [d] == steps + [a, b, c, d];
  }

  lemma FourSteps(s: State, id: string)
    requires s.arm.Selecting? && id in s.conns && s.conns[id].phase.Pumping? && id in s.members && s.conns[id].sub.id == id
    ensures var t := Next(Next(Next(Next(s, Disconnect(id)), Unregister(id)), Remove), CloseSend(id));
            var c := s.conns[id];
            && t.members == s.members - {id} && t.arm.Selecting? && t.log == s.log
            && t.conns == s.conns[id := c.(phase := Closed, left := Some(|s.log|))]
            && t.broadcast == s.broadcast + if |s.broadcast| < 256 then [Event(Leave, id, c.sub.user)] else []
  {
    var c := s.conns[id];
    var s1 := Next(s, Disconnect(id));
    assert s1 == s.(conns := s.conns[id := c.(phase := Leaving)]);
    var s2 := Next(s1, Unregister(id));
    assert s2 == s1.(arm := Removing(id), conns := s1.conns[id := c.(phase := HandedOver)]);
    var s3 := Next(s2, Remove);
    assert s3.conns == s2.conns[id := c.(phase := HandedOver, left := Some(|s.log|))];
    assert s.broadcast + [] == s.broadcast;
  }

  // ---------------------------------------------------------------------------
  // The rows rendered in a run
  // ---------------------------------------------------------------------------

  /** The chat messages popped while an HTML subscriber was there. */
  function Rendered(log: seq<Entry>): seq<Live>
  {
    if log == [] then []
    else
      var e := log[|log| - 1];
      Rendered(log[..|log| - 1]) + if e.html && e.message.ChatMsg? then [Live(e.message.chat, e.now)] else []
  }

  function Rows(log: seq<Entry>): seq<Flags>
  {
    if log == [] then []
    else
      var e := log[|log| - 1];
      Rows(log[..|log| - 1]) + if e.fragment.Row? then [e.fragment.flags] else []
  }

  /**
   * The rows that HTML subscribers get are the fold over the chat messages popped while
   * one of them was there: the others leave no trace in the grouping of rows.
   */
  lemma {:induction false} RowsAreFold(steps: seq<Step>)
    ensures var s := Exec(steps);
            && Rows(s.log) == HubFold(NEVER, Rendered(s.log))
            && s.last == LastOf(Chats(Rendered(s.log)))
  {
    if steps != [] {
      var before, step := steps[..|steps| - 1], steps[|steps| - 1];
      RowsAreFold(before);
      var s := Exec(before);
      LogStep(s, step);
      hide Next, Enabled, Popped, Rows, Rendered, Render;
      if step.Broadcast? && Enabled(s, step) {
        RowsMore(s.log, Popped(s, step.now), s.last);
      }
    }
  }

  lemma LogStep(s: State, step: Step)
    ensures var t := Next(s, step);
            if step.Broadcast? && Enabled(s, step) then
              var e := Popped(s, step.now);
              && t.log == s.log + [e] && t.last == Render(s.last, e.html, e.message, e.now).0
              && e.fragment == Render(s.last, e.html, e.message, e.now).1
            else t.log == s.log && t.last == s.last
  {
  }

  lemma RowsMore(log: seq<Entry>, e: Entry, last: Last)
    requires Rows(log) == HubFold(NEVER, Rendered(log)) && last == LastOf(Chats(Rendered(log)))
    requires e.fragment == Render(last, e.html, e.message, e.now).1
    ensures Rows(log + [e]) == HubFold(NEVER, Rendered(log + [e]))
    ensures Render(last, e.html, e.message, e.now).0 == LastOf(Chats(Rendered(log + [e])))
  {
    assert (log + [e])[..|log|] == log;
    var live := Rendered(log);
    if e.html && e.message.ChatMsg? {
      var x := Live(e.message.chat, e.now);
      FoldMore([], live, x);
      assert All([], live) == Chats(live);
      assert Chats(live + [x]) == Chats(live) + [x.chat];
      assert LastOf([]) == NEVER;
    } else {
      assert live + [] == live;
    }
  }

  /** Step k popped this entry as the i-th: its message from the queue, its time, its audience. */
  predicate PoppedBy(steps: seq<Step>, k: nat, i: nat, e: Entry)
    requires k < |steps|
  {
    var s := Exec(steps[..k]);
    && steps[k] == Broadcast(e.now) && s.arm.Selecting? && |s.log| == i
    && s.broadcast != [] && s.broadcast[0] == e.message
    && (e.html <==> exists id <- s.members :: id in s.conns && s.conns[id].sub.html)
  }

  lemma PoppedByMore(before: seq<Step>, step: Step, k: nat, i: nat, e: Entry)
    requires k < |before| && PoppedBy(before, k, i, e)
    ensures PoppedBy(before + [step], k, i, e)
  {
    assert (before + [step])[..k] == before[..k];
  }

  lemma PoppedByLast(before: seq<Step>, step: Step)
    requires step.Broadcast? && Enabled(Exec(before), step)
    ensures PoppedBy(before + [step], |before|, |Exec(before).log|, Popped(Exec(before), step.now))
  {
    assert (before + [step])[..|before|] == before;
    hide Render;
  }

  /** Every entry of the log was popped by one step, from the head of the queue. */
  lemma {:induction false} PoppedFromQueue(steps: seq<Step>, i: nat)
    requires i < |Exec(steps).log|
    ensures exists k | 0 <= k < |steps| :: PoppedBy(steps, k, i, Exec(steps).log[i])
  {
    var before, step := steps[..|steps| - 1], steps[|steps| - 1];
    var s := Exec(before);
    LogStep(s, step);
    assert before + [step] == steps && Exec(steps) == Next(s, step);
    hide Next, Enabled, PoppedBy, Exec, Popped;
    if i < |s.log| {
      PoppedFromQueue(before, i);
      var k :| 0 <= k < |before| && PoppedBy(before, k, i, s.log[i]);
      PoppedByMore(before, step, k, i, s.log[i]);
      assert PoppedBy(steps, k, i, Exec(steps).log[i]);
    } else {
      PoppedByLast(before, step);
      assert PoppedBy(steps, |before|, i, Exec(steps).log[i]);
    }
  }

  /** What HTML subscribers are shown of this message, whatever the grouping of rows. */
  predicate Shows(fragment: Fragment, m: Message)
  {
    match m
    case Malformed(_) => fragment == Blank
    case Event(kind, _, user) => fragment == EventSpan(kind, user)
    case ChatMsg(chat) => fragment.Row? && fragment.chat == chat
  }

  /** The connection is an HTML subscriber that was in the map when entry i was popped. */
  predicate Watched(s: State, id: string, i: nat)
  {
    id in s.conns && s.conns[id].sub.html && s.conns[id].from <= i < Until(s, s.conns[id])
  }

  predicate RenderedRight(s: State, i: nat)
    requires i < |s.log|
  {
    && (s.log[i].html <==> exists id <- s.conns :: Watched(s, id, i))
    && if s.log[i].html then Shows(s.log[i].fragment, s.log[i].message) else s.log[i].fragment == Blank
  }

  lemma WatchedStep(s: State, step: Step, id: string, i: nat)
    requires Inv(s) && i < |s.log|
    ensures Watched(s, id, i) <==> Watched(Next(s, step), id, i)
  {
    if id in Next(s, step).conns {
      ConnStep(s, step, id);
      LogStep(s, step);
      ClientsStep(s, step);
      if id in s.conns {
        assert ConnInv(s, id, s.conns[id]);
      }
    }
    ClientsStep(s, step);
    hide Next, Inv, Accounted;
  }

  /** The entry just popped was rendered for those in the map. */
  lemma WatchedNow(s: State, now: int, id: string)
    requires Inv(s) && Enabled(s, Broadcast(now))
    ensures Watched(Next(s, Broadcast(now)), id, |s.log|) <==> id in s.members && s.conns[id].sub.html
  {
    var t := Next(s, Broadcast(now));
    if id in s.conns {
      assert ConnInv(s, id, s.conns[id]);
      ConnStep(s, Broadcast(now), id);
      LogStep(s, Broadcast(now));
    }
    assert t.conns.Keys == s.conns.Keys;
    hide Next, Accounted;
  }

  /**
   * Every entry of every run was rendered exactly when some HTML subscriber was in the map
   * at its pop; and then the fragment is a row of that very chat message, or names the
   * event's kind and user.
   */
  lemma {:induction false} FragmentsTell(steps: seq<Step>, i: nat)
    requires i < |Exec(steps).log|
    ensures RenderedRight(Exec(steps), i)
  {
    var before, step := steps[..|steps| - 1], steps[|steps| - 1];
    var s := Exec(before);
    var t := Next(s, step);
    ExecInv(before);
    LogStep(s, step);
    ClientsStep(s, step);
    if i < |s.log| {
      FragmentsTell(before, i);
      forall id
        ensures Watched(s, id, i) <==> Watched(t, id, i)
      {
        WatchedStep(s, step, id, i);
      }
      hide Next, Inv, Watched;
      assert forall id :: Watched(s, id, i) ==> id in s.conns;
    } else {
      forall id
        ensures Watched(t, id, i) <==> id in s.members && s.conns[id].sub.html
      {
        WatchedNow(s, step.now, id);
      }
      RenderShows(s, step.now);
      hide Next, Watched, Popped;
    }
  }

  lemma RenderShows(s: State, now: int)
    requires s.broadcast != []
    ensures var e := Popped(s, now);
            && (e.html <==> exists id <- s.members :: id in s.conns && s.conns[id].sub.html)
            && if e.html then Shows(e.fragment, e.message) else e.fragment == Blank
  {
  }

  /** With an HTML subscriber at every pop, live rows group messages as the page does. */
  lemma LiveRowsMatchPage(steps: seq<Step>)
    requires forall e <- Exec(steps).log :: e.html && (e.message.ChatMsg? ==> e.message.chat.user != "" && e.message.chat.day != 0)
    ensures var live := Rendered(Exec(steps).log);
            && Rows(Exec(steps).log) == HubFold(NEVER, live)
            && forall i | 0 <= i < |live| :: AgreeAt(live, i)
  {
    RowsAreFold(steps);
    RenderedFrom(Exec(steps).log);
    LiveListMatchesPage(Rendered(Exec(steps).log));
  }

  lemma {:induction false} RenderedFrom(log: seq<Entry>)
    requires forall e <- log :: e.message.ChatMsg? ==> e.message.chat.user != "" && e.message.chat.day != 0
    ensures forall x <- Rendered(log) :: x.chat.user != "" && x.chat.day != 0
  {
    if log != [] {
      RenderedFrom(log[..|log| - 1]);
    }
  }
}
