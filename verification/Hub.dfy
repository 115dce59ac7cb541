/**
 * The hub in place: the map of subscribers, the broadcast queue and the last-message
 * memory that the arms of Run update, and the send queue and pump of each subscriber.
 * Every method is one step of the hub protocol.
 */
module Hub {
  import opened Prelude
  import opened Rendering
  import opened HubProtocol

  class Subscriber {
    const sub: Sub
    var send: seq<Frame>
    var phase: Phase
    var hand: Option<Frame>
    var written: seq<Frame>
    ghost var taken: seq<Frame>
    ghost var offers: seq<Offer>
    ghost var from: nat
    ghost var left: Option<nat>

    ghost function View(): Conn
      reads this
    {
      Conn(sub, phase, send, hand, taken, written, offers, from, left)
    }

    constructor (sub: Sub, ghost from: nat)
      ensures this.sub == sub
      ensures View() == NewConn(sub, from)
    {
      this.sub := sub;
      send, phase, hand, written := [], Pumping, None, [];
      taken, offers, this.from, left := [], [], from, None;
    }

    /** The select with a default case at the end of a broadcast. */
    method TrySend(frame: Frame)
      modifies this
      ensures View() == Offered(old(View()), frame)
    {
      if |send| < CAPACITY {
        send := send + [frame];
        offers := offers + [Offer(frame, true)];
      } else {
        offers := offers + [Offer(frame, false)];
      }
    }

    /** The pump receives a frame; a JSON pump skips one it cannot decode. */
    method Receive()
      requires send != []
      modifies this
      ensures View() == Taken(old(View()))
    {
      var frame := send[0];
      send := send[1..];
      taken := taken + [frame];
      if frame.Json? && frame.message.Malformed? {
        hand := None;
      } else {
        hand := Some(frame);
      }
    }

    method Write()
      requires hand.Some?
      modifies this
      ensures View() == Written(old(View()))
    {
      written := written + [hand.value];
      hand := None;
    }

    method SetPhase(p: Phase)
      modifies this`phase
      ensures View() == old(View()).(phase := p)
    {
      phase := p;
    }
  }

  lemma NextPost(s: State, m: Message)
    requires !m.Event?
    ensures Next(s, Post(m)) == if |s.broadcast| < CAPACITY then s.(broadcast := s.broadcast + [m]) else s
  {
  }

  lemma NextRegister(s: State, sub: Sub)
    requires Enabled(s, Register(sub))
    ensures Next(s, Register(sub)) ==
      PostEvent(s.(members := s.members + {sub.id}, conns := s.conns[sub.id := NewConn(sub, |s.log|)]), Join, sub)
  {
  }

  lemma NextUnregister(s: State, id: string)
    requires Enabled(s, Unregister(id))
    ensures Next(s, Unregister(id)) == s.(arm := Removing(id), conns := s.conns[id := s.conns[id].(phase := HandedOver)])
  {
  }

  lemma NextRemove(s: State)
    requires Enabled(s, Remove)
    ensures Next(s, Remove) == Removed(s.(arm := Selecting), s.arm.id)
  {
  }

  lemma NextBroadcast(s: State, now: int)
    requires Enabled(s, Broadcast(now))
    ensures var e := Popped(s, now);
            Next(s, Broadcast(now)) ==
              s.(broadcast := s.broadcast[1..], log := s.log + [e], conns := FanOut(s, e),
                 last := Render(s.last, e.html, e.message, now).0)
  {
  }

  class Server {
    var subscribers: map<string, Subscriber>
    var broadcast: seq<Message>
    var lastMsg: Last
    var arm: Arm
    var stopping: bool
    ghost var all: map<string, Subscriber>
    ghost var Repr: set<Subscriber>
    ghost var log: seq<Entry>
    ghost var lost: nat

    ghost function Conns(): (conns: map<string, Conn>)
      requires forall id <- all :: all[id] in Repr
      reads this`all, this`Repr, Repr
      ensures conns.Keys == all.Keys
      ensures forall id <- all :: conns[id] == all[id].View()
    {
      map id | id in all :: all[id].View()
    }

    ghost predicate Valid()
      reads this, Repr
    {
      && (forall id <- all :: all[id] in Repr && all[id].sub.id == id)
      && (forall id <- subscribers :: id in all && subscribers[id] == all[id])
    }

    ghost function View(): State
      requires Valid()
      reads this, Repr
    {
      State(subscribers.Keys, Conns(), broadcast, lastMsg, arm, stopping, log, lost)
    }

    constructor ()
      ensures Valid() && View() == START && all == map[]
    {
      subscribers, broadcast, lastMsg := map[], [], NEVER;
      arm, stopping := Selecting, false;
      all, Repr, log, lost := map[], {}, [], 0;
    }

    /** A sender's blocking send: it is done when there is room, and waits when there is none. */
    method BroadcastMessage(m: Message) returns (sent: bool)
      requires Valid() && !m.Event?
      modifies this`broadcast
      ensures Valid() && View() == Next(old(View()), Post(m))
      ensures sent == (|old(broadcast)| < CAPACITY)
    {
      NextPost(View(), m);
      hide Next, Enabled, Conns;
      sent := |broadcast| < CAPACITY;
      if sent {
        broadcast := broadcast + [m];
      }
    }

    /** Never blocks: Run itself is the only consumer of the queue. */
    method BroadcastEvent(kind: EventKind, sub: Sub)
      requires Valid()
      modifies this`broadcast, this`lost
      ensures Valid() && View() == PostEvent(old(View()), kind, sub)
    {
      hide Conns;
      if |broadcast| < CAPACITY {
        broadcast := broadcast + [Event(kind, sub.id, sub.user)];
      } else {
        lost := lost + 1;
      }
    }

    /** From its registration on, a subscriber is part of the hub's view. */
    ghost method Track(s: Subscriber)
      requires Valid() && s.sub.id !in all
      modifies this`all, this`Repr
      ensures Valid() && s.sub.id in all && all[s.sub.id] == s && Repr == old(Repr) + {s}
      ensures Conns() == old(Conns())[s.sub.id := old(s.View())]
    {
      hide Conns;
      ghost var before := Conns();
      all := all[s.sub.id := s];
      Repr := Repr + {s};
      assert forall id <- before :: all[id].View() == before[id];
    }

    /** h.subscribers[sub.clientID] = sub */
    method Insert(s: Subscriber)
      requires Valid() && s.sub.id !in all
      modifies this`subscribers, this`all, this`Repr
      ensures Valid() && s.sub.id in all && all[s.sub.id] == s && Repr == old(Repr) + {s}
      ensures View() == old(View()).(members := old(View()).members + {s.sub.id},
                                     conns := old(View()).conns[s.sub.id := old(s.View())])
    {
      hide Conns, Subscriber.View;
      Track(s);
      ghost var tracked := Conns();
      subscribers := subscribers[s.sub.id := s];
      assert Conns() == tracked;
    }

    method RegisterArm(s: Subscriber)
      requires Valid() && Enabled(View(), Register(s.sub)) && s.View() == NewConn(s.sub, |log|)
      modifies this
      ensures Valid() && View() == Next(old(View()), Register(s.sub))
      ensures s.sub.id in all && all[s.sub.id] == s && Repr == old(Repr) + {s}
    {
      NextRegister(View(), s.sub);
      hide Next, PostEvent, NewConn, Conns;
      Insert(s);
      BroadcastEvent(Join, s.sub);
    }

    /** Run receives a leaving subscriber. */
    method UnregisterReceive(s: Subscriber)
      requires Valid() && s.sub.id in all && all[s.sub.id] == s && Enabled(View(), Unregister(s.sub.id))
      modifies this`arm, s`phase
      ensures Valid() && View() == Next(old(View()), Unregister(s.sub.id))
    {
      hide Next;
      NextUnregister(View(), s.sub.id);
      arm := Removing(s.sub.id);
      s.SetPhase(HandedOver);
      hide Conns;
      assert Conns() == old(Conns())[s.sub.id := s.View()];
    }

    /** delete(h.subscribers, sub.clientID) */
    method Delete(id: string)
      requires Valid() && id in subscribers
      modifies this`subscribers, this`arm
      ensures Valid()
      ensures View() == old(View()).(members := old(View()).members - {id}, arm := Selecting)
    {
      hide Conns;
      subscribers := subscribers - {id};
      arm := Selecting;
    }

    /** Log how far the hub had come when the subscriber left. */
    ghost method MarkLeft(id: string, s: Subscriber)
      requires Valid() && id in all && all[id] == s
      modifies s`left
      ensures Valid() && s.sub == old(View()).conns[id].sub
      ensures View() == old(View()).(conns := old(View()).conns[id := old(View()).conns[id].(left := Some(|log|))])
    {
      hide Conns;
      ghost var before := Conns();
      s.left := Some(|log|);
      assert Conns() == before[id := before[id].(left := Some(|log|))];
    }

    /** The rest of the unregister arm. */
    method UnregisterRemove()
      requires Valid() && Enabled(View(), Remove)
      modifies this, Repr
      ensures Valid() && View() == Next(old(View()), Remove)
    {
      var id := arm.id;
      NextRemove(View());
      hide Next, Enabled, PostEvent, Conns;
      if id in subscribers {
        var s := subscribers[id];
        Delete(id);
        MarkLeft(id, s);
        BroadcastEvent(Leave, s.sub);
      } else {
        arm := Selecting;
      }
    }

    /** Does any subscriber want HTML? */
    method CountHtml() returns (hasHtml: bool)
      requires Valid()
      ensures hasHtml == HasHtml(View())
    {
      hasHtml := false;
      var todo := subscribers.Keys;
      while todo != {}
        invariant todo <= subscribers.Keys
        invariant hasHtml <==> exists id <- subscribers :: id !in todo && subscribers[id].sub.html
        decreases |todo|
      {
        var id :| id in todo;
        if subscribers[id].sub.html {
          hasHtml := true;
        }
        todo := todo - {id};
      }
      hide Conns;
      assert forall id <- subscribers :: Conns()[id].sub == subscribers[id].sub;
    }

    /** Render the message once and remember it, as the broadcast arm does. */
    method RenderHtml(m: Message, now: int) returns (fragment: Fragment)
      modifies this`lastMsg
      ensures (lastMsg, fragment) == Render(old(lastMsg), true, m, now)
    {
      match m {
        case Malformed(_) =>
          fragment := Blank;
        case Event(kind, _, user) =>
          fragment := EventSpan(kind, user);
        case ChatMsg(chat) =>
          var showAvatar, showUsername, showTimestamp, dateHeader := true, true, true, false;
          if lastMsg.user == chat.user {
            showAvatar := false;
            showUsername := false;
            if now - lastMsg.time <= MINUTE {
              showTimestamp := false;
            }
          }
          if lastMsg.day != chat.day {
            dateHeader := true;
          }
          fragment := Row(chat, Flags(showAvatar, showUsername, showTimestamp, dateHeader));
          lastMsg := Last(chat.user, chat.time, chat.day);
      }
    }

    /** HTML subscribers get the fragment, the others the message itself. */
    method SendOne(s: Subscriber, m: Message, fragment: Fragment, ghost entry: Entry)
      requires entry.message == m && entry.fragment == fragment
      modifies s
      ensures s.View() == Offered(old(s.View()), FrameOf(s.sub, entry))
    {
      var dataToSend;
      if s.sub.html {
        dataToSend := Html(fragment);
      } else {
        dataToSend := Json(m);
      }
      s.TrySend(dataToSend);
    }

    /** Offer the message to every subscriber, in whatever order the map yields them. */
    method SendAll(m: Message, fragment: Fragment, ghost entry: Entry)
      requires Valid() && entry.message == m && entry.fragment == fragment
      modifies Repr
      ensures Valid()
      ensures View() == old(View()).(conns := FanOut(old(View()), entry))
    {
      hide Conns, Offered, FrameOf;
      ghost var before := Conns();
      assert forall id <- all :: before[id].sub == all[id].sub;
      hide Subscriber.View;
      var todo := subscribers.Keys;
      while todo != {}
        invariant todo <= subscribers.Keys
        invariant Valid()
        invariant forall id <- all :: all[id].View() ==
                    if id in subscribers && id !in todo
                    then Offered(before[id], FrameOf(before[id].sub, entry))
                    else before[id]
        decreases |todo|
      {
        var id :| id in todo;
        SendOne(subscribers[id], m, fragment, entry);
        todo := todo - {id};
      }
      assert Conns() == FanOut(old(View()), entry);
    }

    lemma SameFanOut(s: State, t: State, entry: Entry)
      requires s.conns == t.conns && s.members == t.members
      ensures FanOut(s, entry) == FanOut(t, entry)
    {
    }

    /** Pop the head of the queue and render it if any subscriber wants HTML. */
    method PopAndRender(now: int) returns (m: Message, fragment: Fragment)
      requires Valid() && broadcast != []
      modifies this`broadcast, this`lastMsg
      ensures Valid()
      ensures m == old(broadcast)[0] && fragment == Popped(old(View()), now).fragment
      ensures View() == old(View()).(broadcast := old(broadcast)[1..],
                                     last := Render(old(lastMsg), HasHtml(old(View())), m, now).0)
    {
      hide Conns;
      var hasHTMLSubs := CountHtml();
      m := broadcast[0];
      broadcast := broadcast[1..];
      assert Conns() == old(Conns());
      fragment := Blank;
      if hasHTMLSubs {
        fragment := RenderHtml(m, now);
        assert Conns() == old(Conns());
      }
    }

    method BroadcastArm(now: int)
      requires Valid() && Enabled(View(), Broadcast(now))
      modifies this, Repr
      ensures Valid() && View() == Next(old(View()), Broadcast(now))
    {
      ghost var before := View();
      NextBroadcast(before, now);
      hide Next, Enabled, Conns, FanOut, HasHtml, Render;
      var m, htmlFragment := PopAndRender(now);
      ghost var entry := Popped(before, now);
      log := log + [entry];
      ghost var popped := View();
      assert popped.conns == before.conns;
      SameFanOut(before, popped, entry);
      SendAll(m, htmlFragment, entry);
    }
  }
}
