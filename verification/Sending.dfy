/**
 * The send endpoint: check the request, save the message, then hand it to the hub.
 */
module Sending {
  import opened Prelude
  import opened Rendering
  import opened HubProtocol
  import Catchup
  import Hub
  import MessageStore

  const MAX_MESSAGE_LENGTH: nat := 10240

  /** The status a request gets before anything is stored; 200 lets it through. */
  function Checked(contentLength: int, content: string, user: string): int
  {
    if contentLength > MAX_MESSAGE_LENGTH then 413
    else if content == "" then 400
    else if |content| > MAX_MESSAGE_LENGTH then 413
    else if user == "" then 401
    else 200
  }

  /** What a request must look like to get each status. */
  lemma CheckedExactly(contentLength: int, content: string, user: string)
    ensures var status := Checked(contentLength, content, user);
            var small := contentLength <= 10240 && |content| <= 10240;
            && (status == 413 <==> !small)
            && (status == 400 <==> small && content == "")
            && (status == 401 <==> small && content != "" && user == "")
            && (status == 200 <==> small && content != "" && user != "")
  {
  }

  /** The two moves of a sender whose message passes the checks. */
  function Moves(id: nat, user: string, content: string, time: int, day: int): seq<Catchup.Move>
  {
    [Catchup.Save(user, content, time, day), Catchup.Send(id)]
  }

  /**
   * A request that passes the checks is the moves Save and Send of the world of senders
   * and receivers: it is answered once the hub has the message, and waits with the message
   * saved while the hub's queue is full. Any other request changes nothing.
   */
  method SendMessage(store: MessageStore.Store, hub: Hub.Server, contentLength: int, content: string,
                     user: string, time: int, day: int, ghost w: Catchup.World, ghost me: string)
    returns (status: Option<int>)
    requires store.Valid() && store.lastId == |store.rows| && hub.Valid()
    requires w.hub == hub.View() && w.rows == store.rows
    modifies store, hub`broadcast
    ensures store.Valid() && store.lastId == |store.rows| && hub.Valid()
    ensures Checked(contentLength, content, user) != 200 ==> status == Some(Checked(contentLength, content, user))
    ensures Checked(contentLength, content, user) == 200 ==>
      status == if |old(hub.broadcast)| < CAPACITY then Some(200) else None
    ensures Checked(contentLength, content, user) == 200 ==>
      var moves := Moves(old(store.lastId) + 1, user, content, time, day);
      var t := Catchup.Act(me, Catchup.Act(me, w, moves[0]), moves[1]);
      t.rows == store.rows && t.hub == hub.View()
      && t.pending == if status.Some? then w.pending - {old(store.lastId) + 1} else w.pending + {old(store.lastId) + 1}
    ensures Checked(contentLength, content, user) != 200 ==> store.rows == old(store.rows) && hub.View() == old(hub.View())
  {
    hide Next, Hub.Server.Conns;
    if contentLength > MAX_MESSAGE_LENGTH {
      return Some(413);
    }
    if content == "" {
      return Some(400);
    }
    if |content| > MAX_MESSAGE_LENGTH {
      return Some(413);
    }
    if user == "" {
      return Some(401);
    }
    var id := store.Save(user, content, time, day);
    Hub.NextPost(w.hub, ChatMsg(Chat(id, user, content, time, day)));
    var sent := hub.BroadcastMessage(ChatMsg(Chat(id, user, content, time, day)));
    return if sent then Some(200) else None;
  }
}
