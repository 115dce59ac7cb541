/**
 * A receiving client against concurrent senders: senders save a message and then hand
 * it to the hub, in two separate steps; the client connects, listens, and then asks for
 * history. Connecting returns once response headers arrive, which the server flushes
 * with the first event written to the stream.
 */
module Catchup {
  import opened Prelude
  import opened Rendering
  import opened HubProtocol
  import opened MessageStore

  /** SyncHistory(0) asks for this many of the newest messages. */
  const RECENT: nat := 10

  /** The answer to the history request, and how many messages were saved by then. */
  datatype History = History(messages: seq<Chat>, count: nat)

  /** `pending` are the ids saved by senders that have not reached the hub yet. */
  datatype World = World(hub: State, rows: seq<Chat>, pending: set<nat>, history: Option<History>)

  const BEGIN: World := World(START, [], {}, None)

  datatype Move =
    | Save(user: string, content: string, time: int, day: int)
    | Send(id: nat)
    | Hub(step: Step)
    | Sync

  /** One move of the world, seen by the client with the given identifier. */
  function Act(me: string, w: World, move: Move): World
  {
    match move
    case Save(user, content, time, day) =>
      var id := |w.rows| + 1;
      w.(rows := w.rows + [Chat(id, user, content, time, day)], pending := w.pending + {id})
    case Send(id) =>
      if id in w.pending && 0 < id <= |w.rows| && Enabled(w.hub, Post(ChatMsg(w.rows[id - 1]))) then
        w.(hub := Next(w.hub, Post(ChatMsg(w.rows[id - 1]))), pending := w.pending - {id})
      else w
    case Hub(step) => if step.Post? then w else w.(hub := Next(w.hub, step))
    case Sync =>
      if w.history.None? && me in w.hub.conns && w.hub.conns[me].written != [] then
        w.(history := Some(History(Select(w.rows, 0, RECENT), |w.rows|)))
      else w
  }

  function Play(me: string, moves: seq<Move>): World
  {
    if moves == [] then BEGIN else Act(me, Play(me, moves[..|moves| - 1]), moves[|moves| - 1])
  }

  predicate Numbered(rows: seq<Chat>)
  {
    forall i | 0 <= i < |rows| :: rows[i].id == i + 1
  }

  /** Chat messages that reached the hub are saved rows, each at one place, no longer pending. */
  predicate Traced(rows: seq<Chat>, pending: set<nat>, accepted: seq<Message>)
  {
    && (forall i | 0 <= i < |accepted| && accepted[i].ChatMsg? ::
          var m := accepted[i].chat; 0 < m.id <= |rows| && rows[m.id - 1] == m && m.id !in pending)
    && (forall i, j | 0 <= i < j < |accepted| && accepted[i].ChatMsg? && accepted[j].ChatMsg? ::
          accepted[i].chat.id != accepted[j].chat.id)
  }

  /** Every saved row is pending or has reached the hub. */
  predicate NoneLost(rows: seq<Chat>, pending: set<nat>, accepted: seq<Message>)
  {
    && (forall id <- pending :: 0 < id <= |rows|)
    && (forall id | 0 < id <= |rows| :: id in pending || ChatMsg(rows[id - 1]) in accepted)
  }

  /** What was popped before the client joined was saved before it asked for history. */
  predicate HistoryCovers(me: string, w: World)
  {
    w.history.Some? ==>
      && me in w.hub.conns && w.hub.conns[me].from <= |w.hub.log|
      && w.history.value.count <= |w.rows|
      && w.history.value.messages == Select(w.rows[..w.history.value.count], 0, RECENT)
      && forall k | 0 <= k < w.hub.conns[me].from && w.hub.log[k].message.ChatMsg? ::
           w.hub.log[k].message.chat.id <= w.history.value.count
  }

  predicate WorldInv(me: string, w: World)
  {
    && Inv(w.hub) && Numbered(w.rows)
    && Traced(w.rows, w.pending, Accepted(w.hub)) && NoneLost(w.rows, w.pending, Accepted(w.hub))
    && HistoryCovers(me, w)
  }

  lemma SaveInv(me: string, w: World, move: Move)
    requires WorldInv(me, w) && move.Save?
    ensures WorldInv(me, Act(me, w, move))
  {
    var t := Act(me, w, move);
    hide Inv, Accepted, Select;
    if w.history.Some? {
      assert t.rows[..w.history.value.count] == w.rows[..w.history.value.count];
    }
  }

  lemma TracedMore(rows: seq<Chat>, pending: set<nat>, accepted: seq<Message>, m: Chat)
    requires Traced(rows, pending, accepted) && NoneLost(rows, pending, accepted)
    requires m.id in pending && rows[m.id - 1] == m
    ensures Traced(rows, pending - {m.id}, accepted + [ChatMsg(m)])
    ensures NoneLost(rows, pending - {m.id}, accepted + [ChatMsg(m)])
  {
  }

  lemma TracedQuiet(rows: seq<Chat>, pending: set<nat>, accepted: seq<Message>, more: seq<Message>)
    requires Traced(rows, pending, accepted) && NoneLost(rows, pending, accepted)
    requires forall m <- more :: !m.ChatMsg?
    ensures Traced(rows, pending, accepted + more) && NoneLost(rows, pending, accepted + more)
  {
  }

  /** A step of the hub forgets no connection and rewrites no history. */
  lemma CoversStep(me: string, w: World, step: Step)
    requires Inv(w.hub) && HistoryCovers(me, w)
    ensures HistoryCovers(me, w.(hub := Next(w.hub, step)))
  {
    if w.history.Some? {
      ClientsStep(w.hub, step);
      OffersStep(w.hub, step, me);
      AcceptedStep(w.hub, step);
      hide Next, Inv, Select, Accepted;
    }
  }

  lemma SendInv(me: string, w: World, move: Move)
    requires WorldInv(me, w) && move.Send?
    ensures WorldInv(me, Act(me, w, move))
  {
    if Act(me, w, move) != w {
      var m := w.rows[move.id - 1];
      var step := Post(ChatMsg(m));
      AcceptedStep(w.hub, step);
      HubProtocol.NextInv(w.hub, step);
      TracedMore(w.rows, w.pending, Accepted(w.hub), m);
      CoversStep(me, w, step);
      hide Inv, Accepted, Select, Traced, NoneLost, Next;
    }
  }

  lemma HubInv(me: string, w: World, move: Move)
    requires WorldInv(me, w) && move.Hub?
    ensures WorldInv(me, Act(me, w, move))
  {
    if !move.step.Post? {
      AcceptedStep(w.hub, move.step);
      HubProtocol.NextInv(w.hub, move.step);
      TracedQuiet(w.rows, w.pending, Accepted(w.hub), Adds(w.hub, move.step));
      CoversStep(me, w, move.step);
      hide Inv, Accepted, Select, Traced, NoneLost, Next;
    }
  }

  /** Popped messages were saved before. */
  lemma LoggedWasSaved(w: World, k: nat)
    requires Traced(w.rows, w.pending, Accepted(w.hub))
    requires k < |w.hub.log| && w.hub.log[k].message.ChatMsg?
    ensures 0 < w.hub.log[k].message.chat.id <= |w.rows|
  {
    assert Accepted(w.hub)[k] == w.hub.log[k].message;
  }

  /** The history as of now covers whatever was popped so far. */
  lemma CoversNow(me: string, w: World)
    requires Inv(w.hub) && me in w.hub.conns && Traced(w.rows, w.pending, Accepted(w.hub))
    ensures HistoryCovers(me, w.(history := Some(History(Select(w.rows, 0, RECENT), |w.rows|))))
  {
    assert w.hub.conns[me].from <= |w.hub.log| by {
      OfferedInPlace(me, w.hub);
    }
    forall k | 0 <= k < |w.hub.log| && w.hub.log[k].message.ChatMsg?
      ensures w.hub.log[k].message.chat.id <= |w.rows|
    {
      LoggedWasSaved(w, k);
    }
    hide Inv, Accepted, Select, Traced;
    assert w.rows[..|w.rows|] == w.rows;
  }

  lemma SyncInv(me: string, w: World)
    requires WorldInv(me, w)
    ensures WorldInv(me, Act(me, w, Sync))
  {
    hide Inv, Accepted, Select, Traced, NoneLost, HistoryCovers;
    if Act(me, w, Sync) != w {
      CoversNow(me, w);
    }
  }

  lemma {:induction false} PlayInv(me: string, moves: seq<Move>)
    ensures WorldInv(me, Play(me, moves))
  {
    if moves != [] {
      var w, move := Play(me, moves[..|moves| - 1]), moves[|moves| - 1];
      PlayInv(me, moves[..|moves| - 1]);
      hide WorldInv;
      match move {
        case Save(_, _, _, _) => SaveInv(me, w, move);
        case Send(_) => SendInv(me, w, move);
        case Hub(_) => HubInv(me, w, move);
        case Sync => SyncInv(me, w);
      }
    } else {
      assert Accepted(START) == [];
    }
  }

  // ---------------------------------------------------------------------------
  // Nothing is missed
  // ---------------------------------------------------------------------------

  lemma {:induction false} AllRowsAfterZero(rows: seq<Chat>)
    requires Numbered(rows)
    ensures After(rows, 0) == rows
  {
    if rows != [] {
      var before, last := rows[..|rows| - 1], rows[|rows| - 1];
      hide *;
      NumberedFront(rows);
      AllRowsAfterZero(before);
      AfterMore(before, last, 0);
      FrontAndLast(rows);
    }
  }

  lemma NumberedFront(rows: seq<Chat>)
    requires Numbered(rows) && rows != []
    ensures Numbered(rows[..|rows| - 1]) && rows[|rows| - 1].id > 0
  {
  }

  lemma RecentRows(rows: seq<Chat>)
    requires Numbered(rows)
    ensures Select(rows, 0, RECENT) == rows[if |rows| > RECENT then |rows| - RECENT else 0..]
  {
    AllRowsAfterZero(rows);
    hide After, Reverse;
    NewestRows(rows, RECENT);
  }

  /** Where a message saved after the history request is by now. */
  predicate Underway(me: string, w: World, id: nat)
    requires 0 < id <= |w.rows| && me in w.hub.conns
  {
    var m, c := ChatMsg(w.rows[id - 1]), w.hub.conns[me];
    || id in w.pending
    || m in w.hub.broadcast
    || (exists k | c.from <= k < |w.hub.log| :: w.hub.log[k].message == m)
  }

  lemma LaterIsUnderway(me: string, w: World, id: nat)
    requires WorldInv(me, w) && w.history.Some? && w.history.value.count < id <= |w.rows|
    ensures Underway(me, w, id)
  {
    var m := ChatMsg(w.rows[id - 1]);
    InvParts(me, w, id);
    if id !in w.pending && m !in w.hub.broadcast {
      hide *;
      var k := PoppedAt(w.hub, m);
      NotBefore(me, w, k);
      UnderwayAt(me, w, id, k);
    }
  }

  lemma InvParts(me: string, w: World, id: nat)
    requires WorldInv(me, w) && w.history.Some? && 0 < id <= |w.rows|
    ensures w.rows[id - 1].id == id && (id in w.pending || ChatMsg(w.rows[id - 1]) in Accepted(w.hub))
    ensures HistoryCovers(me, w) && me in w.hub.conns
  {
    hide Inv, Traced, Select, Accepted;
  }

  /** A message newer than the history was not popped before the client joined. */
  lemma NotBefore(me: string, w: World, k: nat)
    requires HistoryCovers(me, w) && w.history.Some? && me in w.hub.conns
    requires k < |w.hub.log| && w.hub.log[k].message.ChatMsg?
    requires w.hub.log[k].message.chat.id > w.history.value.count
    ensures k >= w.hub.conns[me].from
  {
    hide Select;
  }

  lemma UnderwayAt(me: string, w: World, id: nat, k: nat)
    requires 0 < id <= |w.rows| && me in w.hub.conns
    requires w.hub.conns[me].from <= k < |w.hub.log| && w.hub.log[k].message == ChatMsg(w.rows[id - 1])
    ensures Underway(me, w, id)
  {
  }

  lemma PoppedAt(hub: State, m: Message) returns (k: nat)
    requires m in Accepted(hub) && m !in hub.broadcast
    ensures k < |hub.log| && hub.log[k].message == m
  {
    k :| 0 <= k < |hub.log| && Messages(hub.log)[k] == m;
  }

  lemma HistoryIsRecent(me: string, w: World)
    requires WorldInv(me, w) && w.history.Some?
    ensures var h := w.history.value;
            && me in w.hub.conns && h.count <= |w.rows|
            && h.messages == w.rows[if h.count > RECENT then h.count - RECENT else 0..h.count]
  {
    hide Inv, Traced, NoneLost, Select, Accepted;
    var h := w.history.value;
    RecentRows(w.rows[..h.count]);
  }

  /** No chat message is popped twice. */
  lemma PoppedOnce(w: World)
    requires Traced(w.rows, w.pending, Accepted(w.hub))
    ensures forall k, l | 0 <= k < l < |w.hub.log| && w.hub.log[k].message.ChatMsg? ::
              w.hub.log[k].message != w.hub.log[l].message
  {
    forall k, l | 0 <= k < l < |w.hub.log| && w.hub.log[k].message.ChatMsg?
      ensures w.hub.log[k].message != w.hub.log[l].message
    {
      assert Accepted(w.hub)[k] == w.hub.log[k].message && Accepted(w.hub)[l] == w.hub.log[l].message;
    }
  }

  lemma OfferedInPlace(me: string, hub: State)
    requires Inv(hub) && me in hub.conns
    ensures var c := hub.conns[me];
            && c.from <= Until(hub, c) <= |hub.log|
            && |c.offers| == Until(hub, c) - c.from
            && forall k | c.from <= k < Until(hub, c) ::
                 c.offers[k - c.from].frame == if c.sub.html then Html(hub.log[k].fragment) else Json(hub.log[k].message)
  {
    assert ConnInv(hub, me, hub.conns[me]);
    hide Inv, Accounted, Placed;
  }

  /**
   * A client that connects, listens and then asks for history misses nothing. The
   * history is the newest ten of all messages saved so far. Every message saved later
   * is still with its sender, in the hub's queue, or was popped at one place in the log
   * behind the client's registration; and if it was popped while the client was
   * connected it was offered to the client itself, in its place; an HTML client, which
   * this one is not, is offered its fragment.
   */
  lemma NothingMissed(me: string, moves: seq<Move>)
    requires Play(me, moves).history.Some?
    ensures var w := Play(me, moves); var h := w.history.value;
            && me in w.hub.conns && h.count <= |w.rows|
            && h.messages == w.rows[if h.count > 10 then h.count - 10 else 0..h.count]
            && (forall id | h.count < id <= |w.rows| :: Underway(me, w, id))
            && (forall k, l | 0 <= k < l < |w.hub.log| && w.hub.log[k].message.ChatMsg? ::
                  w.hub.log[k].message != w.hub.log[l].message)
            && var c := w.hub.conns[me];
               c.from <= Until(w.hub, c) <= |w.hub.log|
               && |c.offers| == Until(w.hub, c) - c.from
               && forall k | c.from <= k < Until(w.hub, c) ::
                    c.offers[k - c.from].frame ==
                      if c.sub.html then Html(w.hub.log[k].fragment) else Json(w.hub.log[k].message)
  {
    PlayInv(me, moves);
    var w := Play(me, moves);
    hide Play, Inv, Traced, NoneLost, HistoryCovers;
    HistoryIsRecent(me, w);
    forall id | w.history.value.count < id <= |w.rows|
      ensures Underway(me, w, id)
    {
      LaterIsUnderway(me, w, id);
    }
    PoppedOnce(w);
    OfferedInPlace(me, w.hub);
  }
}
