/**
 * Which parts of a chat message are shown: avatar, user name, time stamp and day
 * divider. The page compares each message with the one before it in a list; the hub
 * folds over the live messages and remembers only the last one it rendered.
 *
 * Times are nanoseconds, and `day` is the local midnight of the message's own date;
 * both are 0 for Go's zero time.
 */
module Rendering {

  datatype Chat = Chat(id: nat, user: string, content: string, time: int, day: int)

  datatype Flags = Flags(avatar: bool, username: bool, timestamp: bool, divider: bool)

  const MINUTE: int := 60_000_000_000

  // ---------------------------------------------------------------------------
  // The page: a pairwise pass
  // ---------------------------------------------------------------------------

  function PageFlags(messages: seq<Chat>, i: nat): Flags
    requires i < |messages|
  {
    var m := messages[i];
    var sameUser := i > 0 && messages[i - 1].user == m.user;
    Flags(!sameUser, !sameUser,
          !(sameUser && m.time - messages[i - 1].time <= MINUTE),
          i == 0 || m.day != messages[i - 1].day)
  }

  /** The message loop of the index page. */
  method RenderPage(messages: seq<Chat>) returns (rows: seq<Flags>)
    ensures |rows| == |messages|
    ensures forall i | 0 <= i < |messages| :: rows[i] == PageFlags(messages, i)
  {
    rows := [];
    var lastMsgDate := 0;
    for i := 0 to |messages|
      invariant |rows| == i
      invariant forall k | 0 <= k < i :: rows[k] == PageFlags(messages, k)
      invariant i > 0 ==> lastMsgDate == messages[i - 1].day
    {
      var m := messages[i];
      var showAvatar, showUsername, showTimestamp := true, true, true;
      if i > 0 {
        var prev := messages[i - 1];
        if prev.user == m.user {
          showAvatar := false;
          showUsername := false;
          var timeDiff := m.time - prev.time;
          if timeDiff <= MINUTE {
            showTimestamp := false;
          }
        }
      }
      var dateHeader := i == 0 || m.day != lastMsgDate;
      lastMsgDate := m.day;
      rows := rows + [Flags(showAvatar, showUsername, showTimestamp, dateHeader)];
    }
  }

  /** No avatar between two messages means that all of them are by one user, and back. */
  lemma {:induction false} AvatarsStartRuns(messages: seq<Chat>, i: nat, j: nat)
    requires i <= j < |messages|
    ensures (forall k | i < k <= j :: !PageFlags(messages, k).avatar)
       <==> (forall k | i <= k <= j :: messages[k].user == messages[i].user)
    decreases j
  {
    if i < j {
      AvatarsStartRuns(messages, i, j - 1);
      if forall k | i <= k <= j :: messages[k].user == messages[i].user {
        assert forall k | i <= k <= j - 1 :: messages[k].user == messages[i].user;
        assert messages[j].user == messages[j - 1].user;
      } else if forall k | i < k <= j :: !PageFlags(messages, k).avatar {
        assert !PageFlags(messages, j).avatar;
      }
    }
  }

  /** No divider between two messages means that all of them are of one day, and back. */
  lemma {:induction false} DividersStartDays(messages: seq<Chat>, i: nat, j: nat)
    requires i <= j < |messages|
    ensures (forall k | i < k <= j :: !PageFlags(messages, k).divider)
       <==> (forall k | i <= k <= j :: messages[k].day == messages[i].day)
    decreases j
  {
    if i < j {
      DividersStartDays(messages, i, j - 1);
      if forall k | i <= k <= j :: messages[k].day == messages[i].day {
        assert forall k | i <= k <= j - 1 :: messages[k].day == messages[i].day;
        assert messages[j].day == messages[j - 1].day;
      } else if forall k | i < k <= j :: !PageFlags(messages, k).divider {
        assert !PageFlags(messages, j).divider;
      }
    }
  }

  // ---------------------------------------------------------------------------
  // The hub: a fold over live messages
  // ---------------------------------------------------------------------------

  /** lastMsgUser, lastMsgTime and lastMsgDate. */
  datatype Last = Last(user: string, time: int, day: int)

  const NEVER: Last := Last("", 0, 0)

  function LastOf(messages: seq<Chat>): Last
  {
    if messages == [] then NEVER
    else
      var m := messages[|messages| - 1];
      Last(m.user, m.time, m.day)
  }

  function HubFlags(last: Last, m: Chat, now: int): Flags
  {
    var sameUser := last.user == m.user;
    Flags(!sameUser, !sameUser, !(sameUser && now - last.time <= MINUTE), last.day != m.day)
  }

  datatype Live = Live(chat: Chat, now: int)

  function Chats(live: seq<Live>): seq<Chat>
  {
    seq(|live|, i requires 0 <= i < |live| => live[i].chat)
  }

  /** The flags of live messages rendered one after another. */
  function HubFold(last: Last, live: seq<Live>): (rows: seq<Flags>)
    ensures |rows| == |live|
    decreases |live|
  {
    if live == [] then []
    else [HubFlags(last, live[0].chat, live[0].now)] + HubFold(LastOf([live[0].chat]), live[1..])
  }

  /** A page before and live messages after it, as one list. */
  function All(page: seq<Chat>, live: seq<Live>): seq<Chat>
  {
    page + Chats(live)
  }

  lemma {:induction false} FoldAt(page: seq<Chat>, live: seq<Live>, i: nat)
    requires i < |live|
    ensures HubFold(LastOf(page), live)[i] == HubFlags(LastOf(All(page, live)[..|page| + i]), live[i].chat, live[i].now)
    decreases i
  {
    if i == 0 {
      assert All(page, live)[..|page|] == page;
    } else {
      var first := live[0].chat;
      FoldAt(page + [first], live[1..], i - 1);
      assert LastOf(page + [first]) == LastOf([first]);
      assert All(page + [first], live[1..]) == All(page, live);
    }
  }

  /** One more live message adds one row, and the memory is of the message before. */
  lemma {:induction false} FoldMore(page: seq<Chat>, live: seq<Live>, x: Live)
    ensures HubFold(LastOf(page), live + [x])
         == HubFold(LastOf(page), live) + [HubFlags(LastOf(All(page, live)), x.chat, x.now)]
    decreases |live|
  {
    if live == [] {
      assert All(page, live) == page;
    } else {
      var first := live[0].chat;
      assert (live + [x])[1..] == live[1..] + [x];
      FoldMore(page + [first], live[1..], x);
      assert LastOf(page + [first]) == LastOf([first]);
      assert All(page + [first], live[1..]) == All(page, live);
    }
  }

  /**
   * Live rows continue the page: with the hub's memory at the end of the page, each live
   * row gets the avatar, name and divider flags that a later page would give it, except
   * for a very first message by the empty user, or dated at Go's zero time. A hidden
   * time stamp is hidden on the page too unless the message comes from the future, and
   * the page hides one that is shown live exactly when it was rendered late.
   */
  lemma LiveMatchesPage(page: seq<Chat>, live: seq<Live>, i: nat)
    requires i < |live|
    ensures var hub := HubFold(LastOf(page), live)[i];
            var later := PageFlags(All(page, live), |page| + i);
            var m, now := live[i].chat, live[i].now;
            var prev := LastOf(All(page, live)[..|page| + i]);
            var first := page == [] && i == 0;
            && (hub.avatar == hub.username && later.avatar == later.username)
            && (hub.avatar == later.avatar <==> !(first && m.user == ""))
            && (hub.divider == later.divider <==> !(first && m.day == 0))
            && (!first && m.time <= now && !hub.timestamp ==> !later.timestamp)
            && (!first ==> (hub.timestamp && !later.timestamp
                       <==> prev.user == m.user && m.time - prev.time <= 60_000_000_000 < now - prev.time))
  {
    FoldAt(page, live, i);
    var all := All(page, live);
    assert all[|page| + i] == live[i].chat;
    if page != [] || i > 0 {
      var before := all[..|page| + i];
      assert before[|before| - 1] == all[|page| + i - 1];
    }
  }

  /** Avatar, name and divider of a live row are those of the page row. */
  predicate AgreeAt(live: seq<Live>, i: nat)
    requires i < |live|
  {
    var hub, page := HubFold(NEVER, live)[i], PageFlags(Chats(live), i);
    hub.avatar == page.avatar && hub.username == page.username && hub.divider == page.divider
  }

  /** Whole lists: the three flags agree everywhere exactly when the first message is ordinary. */
  lemma LiveListMatchesPage(live: seq<Live>)
    ensures (forall i | 0 <= i < |live| :: AgreeAt(live, i))
       <==> (live != [] ==> live[0].chat.user != "" && live[0].chat.day != 0)
  {
    assert All([], live) == Chats(live);
    forall i | 0 <= i < |live|
      ensures AgreeAt(live, i) <==> !(i == 0 && (live[i].chat.user == "" || live[i].chat.day == 0))
    {
      LiveMatchesPage([], live, i);
    }
  }

  /** Rendered a minute late, a live row shows a time stamp that the page leaves out. */
  lemma LateRowShowsTime()
    ensures var a, b := Chat(1, "ann", "", MINUTE, MINUTE), Chat(2, "ann", "", MINUTE + 1, MINUTE);
            HubFold(NEVER, [Live(a, MINUTE), Live(b, 2 * MINUTE + 1)])[1].timestamp
            && !PageFlags([a, b], 1).timestamp
  {
    var a, b := Chat(1, "ann", "", MINUTE, MINUTE), Chat(2, "ann", "", MINUTE + 1, MINUTE);
    var live := [Live(a, MINUTE), Live(b, 2 * MINUTE + 1)];
    assert Chats(live) == [a, b] && All([], live) == [a, b];
    FoldAt([], live, 1);
    assert All([], live)[..1] == [a];
  }
}
