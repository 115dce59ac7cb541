/**
 * The messages table and its two statements: Save appends a row under the next id of an
 * AUTOINCREMENT key, Sync selects the rows after an id, all of them or only the newest.
 */
module MessageStore {
  import opened Prelude
  import opened Rendering

  /** Rows in insertion order; ids are positive, ascending, and never reused. */
  predicate Table(rows: seq<Chat>, lastId: nat)
  {
    && (forall i | 0 <= i < |rows| :: 0 < rows[i].id <= lastId)
    && Ascending(rows)
  }

  predicate Ascending(rows: seq<Chat>)
  {
    forall i, j | 0 <= i < j < |rows| :: rows[i].id < rows[j].id
  }

  /** WHERE id > since ORDER BY id ASC */
  function After(rows: seq<Chat>, since: int): (result: seq<Chat>)
    ensures |result| <= |rows|
    ensures forall m <- result :: m in rows && m.id > since
  {
    if rows == [] then []
    else
      var last := rows[|rows| - 1];
      After(rows[..|rows| - 1], since) + if last.id > since then [last] else []
  }

  function Reverse(rows: seq<Chat>): (reversed: seq<Chat>)
    ensures |reversed| == |rows|
    ensures forall i | 0 <= i < |rows| :: reversed[i] == rows[|rows| - 1 - i]
  {
    if rows == [] then [] else [rows[|rows| - 1]] + Reverse(rows[..|rows| - 1])
  }

  function Limit(rows: seq<Chat>, limit: nat): seq<Chat>
  {
    if limit < |rows| then rows[..limit] else rows
  }

  /** The query: the newest `limit` rows, turned around again, or all rows. */
  function Select(rows: seq<Chat>, since: int, limit: int): seq<Chat>
  {
    if limit > 0 then Reverse(Limit(Reverse(After(rows, since)), limit)) else After(rows, since)
  }

  class Store {
    var rows: seq<Chat>
    var lastId: nat

    predicate Valid()
      reads this
    {
      Table(rows, lastId)
    }

    constructor ()
      ensures Valid() && rows == []
    {
      rows, lastId := [], 0;
    }

    method Save(user: string, content: string, time: int, day: int) returns (id: nat)
      requires Valid()
      modifies this
      ensures Valid() && id == old(lastId) + 1 == lastId
      ensures rows == old(rows) + [Chat(id, user, content, time, day)]
    {
      id := lastId + 1;
      lastId := id;
      rows := rows + [Chat(id, user, content, time, day)];
    }

    /** The query: walk back from the newest row and stop at the limit. */
    method Find(since: int, limit: int) returns (found: seq<Chat>)
      ensures Select(rows, since, limit) == Reverse(found)
    {
      found := [];
      var i := |rows|;
      NothingFound(rows, since);
      hide *;
      while i > 0 && (limit <= 0 || |found| < limit)
        invariant 0 <= i <= |rows| && (limit > 0 ==> |found| <= limit)
        invariant Reverse(After(rows, since)) == found + Reverse(After(rows[..i], since))
        decreases i
      {
        i := i - 1;
        ShorterFront(rows, i);
        WalkBack(rows[..i + 1], since, found);
        if rows[i].id > since {
          found := found + [rows[i]];
        }
      }
      StoppedAt(rows, since, limit, found, i);
    }

    /** The rows found are appended one by one, oldest first. */
    method Sync(since: int, limit: int) returns (messages: seq<Chat>)
      requires Valid()
      ensures messages == Select(rows, since, limit)
    {
      hide Select;
      var found := Find(since, limit);
      messages := [];
      for k := 0 to |found|
        invariant messages == Reverse(found)[..k]
      {
        messages := messages + [found[|found| - 1 - k]];
      }
    }
  }

  lemma NothingFound(rows: seq<Chat>, since: int)
    ensures Reverse(After(rows, since)) == [] + Reverse(After(rows[..|rows|], since))
  {
    hide After, Reverse;
    assert rows[..|rows|] == rows;
  }

  lemma ShorterFront(rows: seq<Chat>, i: nat)
    requires i < |rows|
    ensures rows[..i + 1][..i] == rows[..i] && rows[..i + 1][i] == rows[i]
  {
  }

  /** One row further back. */
  lemma WalkBack(rows: seq<Chat>, since: int, found: seq<Chat>)
    requires rows != []
    ensures var last := rows[|rows| - 1];
            found + Reverse(After(rows, since))
              == (if last.id > since then found + [last] else found) + Reverse(After(rows[..|rows| - 1], since))
  {
    var before, last := After(rows[..|rows| - 1], since), rows[|rows| - 1];
    hide After;
    assert After(rows, since) == before + if last.id > since then [last] else [] by { AfterFront(rows, since); }
    if last.id > since {
      assert (before + [last])[..|before|] == before;
      Regroup(found, [last], Reverse(before));
    } else {
      assert before + [] == before;
    }
  }

  lemma AfterFront(rows: seq<Chat>, since: int)
    requires rows != []
    ensures After(rows, since) ==
      After(rows[..|rows| - 1], since) + if rows[|rows| - 1].id > since then [rows[|rows| - 1]] else []
  {
  }

  /** At the limit, or at the first row, the rows found are those the query asks for. */
  lemma StoppedAt(rows: seq<Chat>, since: int, limit: int, found: seq<Chat>, i: nat)
    requires i <= |rows| && (limit > 0 ==> |found| <= limit) && (i == 0 || (limit > 0 && |found| >= limit))
    requires Reverse(After(rows, since)) == found + Reverse(After(rows[..i], since))
    ensures Select(rows, since, limit) == Reverse(found)
  {
    if i == 0 {
      assert After(rows[..0], since) == [] && Reverse([]) == [];
      assert found + [] == found;
      hide After, Reverse;
      TwiceReversed(After(rows, since));
    } else {
      hide After, Reverse;
      assert Limit(found + Reverse(After(rows[..i], since)), limit) == found;
    }
  }

  lemma TwiceReversed(rows: seq<Chat>)
    ensures Reverse(Reverse(rows)) == rows
  {
    hide Reverse;
  }

  lemma {:induction false} AfterAscending(rows: seq<Chat>, since: int)
    requires Ascending(rows)
    ensures Ascending(After(rows, since))
    ensures forall m <- rows :: m.id > since ==> m in After(rows, since)
  {
    if rows != [] {
      var before, last := rows[..|rows| - 1], rows[|rows| - 1];
      assert before + [last] == rows;
      AscendingParts(before, [last]);
      AfterAscending(before, since);
      AfterMore(before, last, since);
      assert before + [] == before;
      if last.id > since {
        AscendingMore(After(before, since), last);
      }
      hide After, Ascending;
      assert forall m <- rows :: m in before || m == last;
    }
  }

  lemma AscendingParts(a: seq<Chat>, b: seq<Chat>)
    requires Ascending(a + b)
    ensures Ascending(a)
    ensures b != [] ==> Ascending(a + b[..|b| - 1]) && forall m <- a + b[..|b| - 1] :: m.id < b[|b| - 1].id
  {
    var all := a + b;
    assert forall i | 0 <= i < |a| :: all[i] == a[i];
    if b != [] {
      var front := a + b[..|b| - 1];
      assert front == all[..|all| - 1] && b[|b| - 1] == all[|all| - 1];
    }
  }

  lemma AscendingMore(rows: seq<Chat>, m: Chat)
    requires Ascending(rows) && forall r <- rows :: r.id < m.id
    ensures Ascending(rows + [m])
  {
    assert forall i | 0 <= i < |rows| :: rows[i] in rows;
  }

  lemma AscendingTail(rows: seq<Chat>, k: nat)
    requires Ascending(rows) && k <= |rows|
    ensures Ascending(rows[k..])
  {
  }

  /** An unlimited sync is every row after the id, in strictly ascending order. */
  lemma UnlimitedIsAll(rows: seq<Chat>, since: int)
    requires Ascending(rows)
    ensures Ascending(Select(rows, since, 0))
    ensures forall m :: m in Select(rows, since, 0) <==> m in rows && m.id > since
  {
    AfterAscending(rows, since);
  }

  /**
   * A limited sync is the newest part of the unlimited one: its last min(k, n) rows, in
   * strictly ascending order.
   */
  lemma LimitedIsNewest(rows: seq<Chat>, since: int, limit: int)
    requires Ascending(rows) && limit > 0
    ensures var all, newest := Select(rows, since, 0), Select(rows, since, limit);
            && |newest| == (if limit < |all| then limit else |all|)
            && newest == all[|all| - |newest|..]
            && Ascending(newest)
  {
    var all := After(rows, since);
    assert Ascending(all) by { AfterAscending(rows, since); }
    hide After, Reverse, Limit, Ascending;
    NewestRows(all, limit);
    AscendingTail(all, if limit < |all| then |all| - limit else 0);
  }

  lemma NewestRows(all: seq<Chat>, limit: nat)
    ensures Reverse(Limit(Reverse(all), limit)) == all[if limit < |all| then |all| - limit else 0..]
  {
    hide Reverse;
  }

  /** The id to continue from: the highest one received, or the one asked with. */
  function Highest(result: seq<Chat>, since: int): int
  {
    if result == [] then since else result[|result| - 1].id
  }

  lemma AfterMore(rows: seq<Chat>, m: Chat, since: int)
    ensures After(rows + [m], since) == After(rows, since) + if m.id > since then [m] else []
  {
    assert (rows + [m])[..|rows|] == rows;
  }

  /** A newer row is after the given id exactly when it is after the highest one received. */
  lemma NewerThanHighest(rows: seq<Chat>, newer: Chat, since: int)
    requires forall m <- rows :: m.id < newer.id
    ensures newer.id > since <==> newer.id > Highest(After(rows, since), since)
  {
    var result := After(rows, since);
    if result != [] {
      assert result[|result| - 1] in result;
    }
  }

  lemma {:induction false} AfterLater(rows: seq<Chat>, later: seq<Chat>, since: int)
    requires Ascending(rows + later)
    ensures After(rows + later, since)
         == After(rows, since) + After(rows + later, Highest(After(rows, since), since))
  {
    var high := Highest(After(rows, since), since);
    if later == [] {
      assert rows + later == rows;
      NothingAfterHighest(rows, since);
    } else {
      var before, last := later[..|later| - 1], later[|later| - 1];
      var all := rows + before;
      assert rows + later == all + [last];
      assert Ascending(all) by { AscendingParts(rows, later); }
      assert last.id > since <==> last.id > high by {
        AscendingParts(rows, later);
        NewerThanHighest(rows, last, since);
      }
      hide Ascending, Highest;
      AfterLater(rows, before, since);
      AfterMore(all, last, since);
      AfterMore(all, last, high);
      Regroup(After(rows, since), After(all, high), if last.id > since then [last] else []);
    }
  }

  lemma SomeMember(rows: seq<Chat>)
    ensures rows != [] ==> exists m :: m in rows
  {
    if rows != [] {
      assert rows[0] in rows;
    }
  }

  lemma {:induction false} NothingAfterHighest(rows: seq<Chat>, since: int)
    requires Ascending(rows)
    ensures After(rows, Highest(After(rows, since), since)) == []
  {
    AfterAscending(rows, since);
    var all := After(rows, since);
    var high := Highest(all, since);
    assert forall m <- all :: m.id <= high;
    assert forall m <- After(rows, high) :: m in rows && m.id > high;
    SomeMember(After(rows, high));
  }

  /**
   * Catching up composes: a sync, then after any saves a sync from its highest id, give
   * together the later full sync, with no gap and no repeat.
   */
  lemma CatchUpComposes(rows: seq<Chat>, later: seq<Chat>, since: int)
    requires Ascending(rows + later)
    ensures Select(rows + later, since, 0)
         == Select(rows, since, 0) + Select(rows + later, Highest(Select(rows, since, 0), since), 0)
  {
    AfterLater(rows, later, since);
  }
}
