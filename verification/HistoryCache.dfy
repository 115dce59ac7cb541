/**
 * The history cache in session storage: at most `historyCacheSize` pages, newest last,
 * rewritten as a whole on every save and shrunk from the front while writing fails. It
 * is compared with the list of latest saves per URL in order of recency.
 */
module HistoryCache {
  import opened Prelude

  datatype Item = Item(url: string, content: string, title: string, scroll: int)

  /**
   * One save: its item under the normalized URL, whether storage can be reached, the
   * configured size, and how many attempts to write fail before one succeeds.
   */
  datatype Save = Save(item: Item, accessible: bool, size: int, failures: nat)

  /** The stored list; a missing entry reads as the empty list. */
  function Items(stored: Option<seq<Item>>): seq<Item>
  {
    if stored.Some? then stored.value else []
  }

  /** The list without its first entry for the URL. */
  function Without(cache: seq<Item>, url: string): (rest: seq<Item>)
    ensures |cache| - 1 <= |rest| <= |cache|
  {
    if cache == [] then []
    else if cache[0].url == url then cache[1..]
    else [cache[0]] + Without(cache[1..], url)
  }

  function Newest(cache: seq<Item>, size: nat): (kept: seq<Item>)
    ensures |kept| == if |cache| > size then size else |cache|
  {
    if |cache| > size then cache[|cache| - size..] else cache
  }

  function Lookup(cache: seq<Item>, url: string): (found: Option<Item>)
    ensures found.Some? <==> exists i | 0 <= i < |cache| :: cache[i].url == url
    ensures found.Some? ==> found.value in cache && found.value.url == url
  {
    if cache == [] then None
    else if cache[0].url == url then Some(cache[0])
    else
      assert forall i | 0 <= i < |cache| - 1 :: cache[1..][i] == cache[i + 1];
      Lookup(cache[1..], url)
  }

  /** The list a save tries to write first. */
  function Attempt(stored: Option<seq<Item>>, save: Save): (cache: seq<Item>)
    requires save.size > 0
    ensures 0 < |cache| <= save.size && cache[|cache| - 1] == save.item
  {
    Newest(Without(Items(stored), save.item.url) + [save.item], save.size)
  }

  /** The first attempt drops nothing, each later one the oldest entry; if all fail the old list stays. */
  function Saved(stored: Option<seq<Item>>, save: Save): Option<seq<Item>>
  {
    if !save.accessible then stored
    else if save.size <= 0 then None
    else
      var cache := Attempt(stored, save);
      if save.failures < |cache| then Some(cache[save.failures..]) else stored
  }

  // ---------------------------------------------------------------------------
  // The same in place
  // ---------------------------------------------------------------------------

  class SessionStorage {
    const normalizePath: string -> string
    var stored: Option<seq<Item>>

    constructor (normalizePath: string -> string)
      ensures stored == None && this.normalizePath == normalizePath
    {
      this.normalizePath := normalizePath;
      stored := None;
    }

    method SaveToHistoryCache(url: string, content: string, title: string, scroll: int,
                              accessible: bool, historyCacheSize: int, failures: nat)
      modifies this
      ensures stored == Saved(old(stored),
                Save(Item(normalizePath(url), content, title, scroll), accessible, historyCacheSize, failures))
    {
      if !accessible {
        return;
      }
      if historyCacheSize <= 0 {
        stored := None;
        return;
      }
      var path := normalizePath(url);
      var historyCache := Remove(Items(stored), path);
      historyCache := historyCache + [Item(path, content, title, scroll)];
      ghost var pushed := historyCache;
      while |historyCache| > historyCacheSize
        invariant 0 < |historyCache| <= |pushed| && historyCache == pushed[|pushed| - |historyCache|..]
        invariant Newest(historyCache, historyCacheSize) == Newest(pushed, historyCacheSize)
      {
        historyCache := historyCache[1..];
      }
      Write(historyCache, failures);
    }

    /** Keep trying to write until an attempt succeeds or nothing is left. */
    method Write(cache: seq<Item>, failures: nat)
      modifies this
      ensures stored == if failures < |cache| then Some(cache[failures..]) else old(stored)
    {
      var historyCache, failed := cache, 0;
      while |historyCache| > 0
        invariant failed <= failures && failed <= |cache| && historyCache == cache[failed..]
        invariant stored == old(stored)
      {
        if failed == failures {
          stored := Some(historyCache);
          return;
        }
        historyCache := historyCache[1..];
        failed := failed + 1;
      }
    }

    method Remove(cache: seq<Item>, url: string) returns (historyCache: seq<Item>)
      ensures historyCache == Without(cache, url)
    {
      historyCache := cache;
      for i := 0 to |cache|
        invariant historyCache == cache
        invariant Without(cache, url) == cache[..i] + Without(cache[i..], url)
      {
        if cache[i].url == url {
          return cache[..i] + cache[i + 1..];
        }
        assert cache[..i] + ([cache[i]] + Without(cache[i + 1..], url)) == cache[..i + 1] + Without(cache[i + 1..], url);
      }
    }

    method GetCachedHistory(url: string, accessible: bool) returns (item: Option<Item>)
      ensures item == if accessible then Lookup(Items(stored), normalizePath(url)) else None
    {
      if !accessible {
        return None;
      }
      var path := normalizePath(url);
      var historyCache := Items(stored);
      for i := 0 to |historyCache|
        invariant Lookup(historyCache, path) == Lookup(historyCache[i..], path)
      {
        if historyCache[i].url == path {
          return Some(historyCache[i]);
        }
        assert historyCache[i..][1..] == historyCache[i + 1..];
      }
      return None;
    }
  }

  // ---------------------------------------------------------------------------
  // The latest save per URL
  // ---------------------------------------------------------------------------

  /** A size of zero or less turns the cache off: the save asks for an empty one. */
  predicate Purge(save: Save)
  {
    save.size <= 0
  }

  /** Storage can be reached and some attempt to write succeeds. */
  predicate Writes(stored: Option<seq<Item>>, save: Save)
    requires !Purge(save)
  {
    save.accessible && save.failures < |Attempt(stored, save)|
  }

  function After(saves: seq<Save>): Option<seq<Item>>
  {
    if saves == [] then None else Saved(After(saves[..|saves| - 1]), saves[|saves| - 1])
  }

  /** One more save in the ideal list: its URL moves to the end, with its new item. */
  function Recent(list: seq<Item>, save: Save): seq<Item>
  {
    if Purge(save) then [] else Without(list, save.item.url) + [save.item]
  }

  function Recency(saves: seq<Save>): seq<Item>
  {
    if saves == [] then [] else Recent(Recency(saves[..|saves| - 1]), saves[|saves| - 1])
  }

  /** The latest save of the URL since the last purge. */
  function LatestSave(saves: seq<Save>, url: string): (k: Option<nat>)
    ensures k.Some? ==> k.value < |saves| && saves[k.value].item.url == url
  {
    if saves == [] || Purge(saves[|saves| - 1]) then None
    else if saves[|saves| - 1].item.url == url then Some(|saves| - 1)
    else LatestSave(saves[..|saves| - 1], url)
  }

  predicate Distinct(list: seq<Item>)
  {
    forall i, j | 0 <= i < j < |list| :: list[i].url != list[j].url
  }

  lemma {:induction false} WithoutDistinct(list: seq<Item>, url: string)
    requires Distinct(list)
    ensures Distinct(Without(list, url))
    ensures forall x :: x in Without(list, url) <==> x in list && x.url != url
  {
    if list != [] {
      assert forall i | 0 <= i < |list| - 1 :: list[1..][i] == list[i + 1];
      assert forall x <- list[1..] :: x.url != list[0].url;
      WithoutDistinct(list[1..], url);
      assert forall x :: x in list <==> x == list[0] || x in list[1..];
    }
  }

  lemma PushDistinct(list: seq<Item>, item: Item)
    requires Distinct(list)
    ensures Distinct(Without(list, item.url) + [item])
  {
    WithoutDistinct(list, item.url);
    var rest := Without(list, item.url);
    assert forall i | 0 <= i < |rest| :: rest[i] in rest;
  }

  lemma {:induction false} RecencyDistinct(saves: seq<Save>)
    ensures Distinct(Recency(saves))
  {
    if saves != [] {
      RecencyDistinct(saves[..|saves| - 1]);
      PushDistinct(Recency(saves[..|saves| - 1]), saves[|saves| - 1].item);
    }
  }

  /** The ideal list holds exactly the latest item of every URL saved since the last purge. */
  lemma {:induction false} RecencyIsLatest(saves: seq<Save>, x: Item)
    ensures x in Recency(saves) <==>
      LatestSave(saves, x.url).Some? && saves[LatestSave(saves, x.url).value].item == x
  {
    if saves != [] {
      var before, save := saves[..|saves| - 1], saves[|saves| - 1];
      RecencyIsLatest(before, x);
      RecencyDistinct(before);
      WithoutDistinct(Recency(before), save.item.url);
      hide Distinct, Without, Recency;
      assert Recency(saves) == Recent(Recency(before), save) by { RecencyMore(saves); }
    }
  }

  lemma RecencyMore(saves: seq<Save>)
    requires saves != []
    ensures Recency(saves) == Recent(Recency(saves[..|saves| - 1]), saves[|saves| - 1])
  {
  }

  /** The list is that of the URLs in the order of their latest saves. */
  predicate InOrder(saves: seq<Save>, list: seq<Item>)
  {
    && (forall x <- list :: LatestSave(saves, x.url).Some?)
    && forall i, j | 0 <= i < j < |list| :: LatestSave(saves, list[i].url).value < LatestSave(saves, list[j].url).value
  }

  lemma {:induction false} WithoutSplit(list: seq<Item>, url: string) returns (p: nat)
    ensures p <= |list| && (p < |list| ==> list[p].url == url)
    ensures Without(list, url) == if p < |list| then list[..p] + list[p + 1..] else list
  {
    if list == [] || list[0].url == url {
      p := 0;
    } else {
      var q := WithoutSplit(list[1..], url);
      p := q + 1;
      if p < |list| {
        DropShifted(list, q);
      }
    }
  }

  lemma DropShifted(list: seq<Item>, q: nat)
    requires q < |list| - 1
    ensures list[..q + 1] + list[q + 2..] == [list[0]] + (list[1..][..q] + list[1..][q + 1..])
  {
  }

  lemma OrderWithout(saves: seq<Save>, list: seq<Item>, url: string)
    requires InOrder(saves, list)
    ensures InOrder(saves, Without(list, url))
  {
    var p := WithoutSplit(list, url);
    hide Without;
    if p < |list| {
      OrderDrop(saves, list, p);
    }
  }

  lemma OrderDrop(saves: seq<Save>, list: seq<Item>, p: nat)
    requires InOrder(saves, list) && p < |list|
    ensures InOrder(saves, list[..p] + list[p + 1..])
  {
    hide LatestSave;
    var rest := list[..p] + list[p + 1..];
    forall x <- rest
      ensures x in list
    {
    }
    forall i, j | 0 <= i < j < |rest|
      ensures LatestSave(saves, rest[i].url).Some? && LatestSave(saves, rest[j].url).Some?
      ensures LatestSave(saves, rest[i].url).value < LatestSave(saves, rest[j].url).value
    {
      assert rest[i] == list[if i < p then i else i + 1] && rest[j] == list[if j < p then j else j + 1];
    }
  }

  lemma OrderPush(before: seq<Save>, saves: seq<Save>, list: seq<Item>)
    requires saves != [] && before == saves[..|saves| - 1] && !Purge(saves[|saves| - 1])
    requires InOrder(before, list) && forall x <- list :: x.url != saves[|saves| - 1].item.url
    ensures InOrder(saves, list + [saves[|saves| - 1].item])
  {
    var save := saves[|saves| - 1];
    forall x <- list
      ensures LatestSave(saves, x.url) == LatestSave(before, x.url)
    {
    }
    assert LatestSave(saves, save.item.url) == Some(|saves| - 1);
    hide LatestSave;
    assert forall i | 0 <= i < |list| :: list[i] in list;
  }

  lemma {:induction false} RecencyInOrder(saves: seq<Save>)
    ensures InOrder(saves, Recency(saves))
  {
    if saves != [] {
      var before, save := saves[..|saves| - 1], saves[|saves| - 1];
      RecencyInOrder(before);
      RecencyMore(saves);
      if !Purge(save) {
        OrderWithout(before, Recency(before), save.item.url);
        RecencyDistinct(before);
        WithoutDistinct(Recency(before), save.item.url);
        hide InOrder, Without;
        OrderPush(before, saves, Without(Recency(before), save.item.url));
      }
    }
  }

  // ---------------------------------------------------------------------------
  // The cache against the ideal list
  // ---------------------------------------------------------------------------

  /** Only the oldest entries of the list are missing. */
  predicate NewestPart(part: seq<Item>, list: seq<Item>)
  {
    |part| <= |list| && part == list[|list| - |part|..]
  }

  /**
   * A save that leaves the cache right: it is written, or nothing was stored, or the last
   * entry already is what was to be saved; and a purge reaches the storage or finds it
   * empty.
   */
  predicate Settles(stored: Option<seq<Item>>, save: Save)
  {
    || Items(stored) == []
    || (if Purge(save) then save.accessible
        else Writes(stored, save) || Items(stored)[|Items(stored)| - 1] == save.item)
  }

  lemma {:induction false} WithoutAppend(a: seq<Item>, b: seq<Item>, url: string)
    requires Distinct(a + b)
    ensures Without(a + b, url) == Without(a, url) + Without(b, url)
  {
    if a == [] {
      assert a + b == b && [] + Without(b, url) == Without(b, url);
    } else {
      FirstDiffers(a, b);
      assert (a + b)[1..] == a[1..] + b;
      hide Distinct;
      if a[0].url == url {
        WithoutAbsent(b, url);
      } else {
        WithoutAppend(a[1..], b, url);
        Regroup([a[0]], Without(a[1..], url), Without(b, url));
      }
    }
  }

  lemma FirstDiffers(a: seq<Item>, b: seq<Item>)
    requires a != [] && Distinct(a + b)
    ensures Distinct(a[1..] + b) && forall j | 0 <= j < |b| :: b[j].url != a[0].url
  {
    assert forall i | 0 <= i < |a| - 1 + |b| :: (a[1..] + b)[i] == (a + b)[i + 1];
    var all := a + b;
    forall j | 0 <= j < |b|
      ensures b[j].url != a[0].url
    {
      assert all[0] == a[0] && all[|a| + j] == b[j];
    }
  }

  lemma {:induction false} WithoutAbsent(list: seq<Item>, url: string)
    requires forall j | 0 <= j < |list| :: list[j].url != url
    ensures Without(list, url) == list
  {
    if list != [] {
      WithoutAbsent(list[1..], url);
    }
  }

  lemma PartPush(part: seq<Item>, list: seq<Item>, item: Item)
    requires Distinct(list) && NewestPart(part, list)
    ensures NewestPart(Without(part, item.url) + [item], Without(list, item.url) + [item])
  {
    var oldest := list[..|list| - |part|];
    assert oldest + part == list;
    WithoutAppend(oldest, part, item.url);
    hide Without;
    assert Without(list, item.url) + [item] == Without(oldest, item.url) + (Without(part, item.url) + [item]);
  }

  lemma PartDrop(part: seq<Item>, list: seq<Item>, n: nat)
    requires NewestPart(part, list) && n <= |part|
    ensures NewestPart(part[n..], list)
  {
  }

  lemma AttemptIsPart(stored: Option<seq<Item>>, save: Save, list: seq<Item>)
    requires save.size > 0 && Distinct(list) && NewestPart(Items(stored), list)
    ensures NewestPart(Attempt(stored, save), Without(list, save.item.url) + [save.item])
  {
    PartPush(Items(stored), list, save.item);
    hide Without, Distinct;
    var pushed := Without(Items(stored), save.item.url) + [save.item];
    if |pushed| > save.size {
      PartDrop(pushed, Without(list, save.item.url) + [save.item], |pushed| - save.size);
    }
  }

  lemma SavedIsPart(stored: Option<seq<Item>>, save: Save, list: seq<Item>)
    requires Distinct(list) && NewestPart(Items(stored), list)
    ensures NewestPart(Items(Saved(stored, save)), Recent(list, save)) <==> Settles(stored, save)
  {
    if !Purge(save) {
      var cache, now := Attempt(stored, save), Without(list, save.item.url) + [save.item];
      AttemptIsPart(stored, save, list);
      hide Without, Attempt;
      if Writes(stored, save) {
        PartDrop(cache, now, save.failures);
      } else {
        OldPart(Items(stored), list, save.item);
      }
    }
  }

  /** A list kept over a failed save is right exactly when it is empty or ends in that item. */
  lemma OldPart(part: seq<Item>, list: seq<Item>, item: Item)
    requires Distinct(list) && NewestPart(part, list)
    ensures NewestPart(part, Without(list, item.url) + [item]) <==> part == [] || part[|part| - 1] == item
  {
    var now := Without(list, item.url) + [item];
    if part != [] {
      assert part[|part| - 1] == list[|list| - 1];
      if part[|part| - 1] == item {
        var front := list[..|list| - 1];
        assert list == front + [item];
        WithoutAppend(front, [item], item.url);
        assert forall i | 0 <= i < |front| :: front[i] == list[i];
        WithoutAbsent(front, item.url);
        assert now == list;
      }
    }
  }

  /** The cache was right after every save of the run. */
  predicate AlwaysRight(saves: seq<Save>)
  {
    NewestPart(Items(After(saves)), Recency(saves)) && (saves == [] || AlwaysRight(saves[..|saves| - 1]))
  }

  predicate AllSettle(saves: seq<Save>)
  {
    saves == [] || (AllSettle(saves[..|saves| - 1]) && Settles(After(saves[..|saves| - 1]), saves[|saves| - 1]))
  }

  /**
   * Exactly when the cache is, all along a run, the list of latest saves per URL in order
   * of recency with only oldest entries missing: when every save settles.
   */
  lemma {:induction false} RightExactly(saves: seq<Save>)
    ensures AlwaysRight(saves) <==> AllSettle(saves)
  {
    if saves != [] {
      var before, save := saves[..|saves| - 1], saves[|saves| - 1];
      RightExactly(before);
      if AllSettle(before) {
        RecencyDistinct(before);
        SavedIsPart(After(before), save, Recency(before));
      }
    }
  }

  /** What a hit returns: the first entry with the URL, the only one when they are distinct. */
  lemma {:induction false} LookupIs(cache: seq<Item>, x: Item)
    requires Distinct(cache)
    ensures Lookup(cache, x.url) == Some(x) <==> x in cache
  {
    if cache != [] && cache[0].url != x.url {
      assert forall i | 0 <= i < |cache| - 1 :: cache[1..][i] == cache[i + 1];
      LookupIs(cache[1..], x);
    } else if cache != [] && x in cache {
      var i :| 0 <= i < |cache| && cache[i] == x;
      assert i == 0;
    }
  }

  lemma PartDistinct(part: seq<Item>, list: seq<Item>)
    requires NewestPart(part, list) && Distinct(list)
    ensures Distinct(part)
  {
    assert forall i | 0 <= i < |part| :: part[i] == list[|list| - |part| + i];
  }

  /** Every hit returns the latest saved item of its URL. */
  lemma HitsAreLatest(saves: seq<Save>, x: Item)
    requires AllSettle(saves)
    ensures Distinct(Items(After(saves)))
    ensures Lookup(Items(After(saves)), x.url) == Some(x) ==>
      LatestSave(saves, x.url).Some? && saves[LatestSave(saves, x.url).value].item == x
  {
    var part, list := Items(After(saves)), Recency(saves);
    RightExactly(saves);
    assert NewestPart(part, list);
    RecencyDistinct(saves);
    PartDistinct(part, list);
    LookupIs(part, x);
    RecencyIsLatest(saves, x);
    hide *;
    if x in part {
      PartOf(part, list, x);
    }
  }

  lemma PartOf(part: seq<Item>, list: seq<Item>, x: Item)
    requires NewestPart(part, list) && x in part
    ensures x in list
  {
    var i :| 0 <= i < |part| && part[i] == x;
    assert list[|list| - |part| + i] == x;
  }

  /** Only the oldest entries are evicted: what was saved after a cached page is cached too. */
  lemma EvictsOldest(saves: seq<Save>, cached: string, other: string)
    requires AllSettle(saves) && Lookup(Items(After(saves)), cached).Some?
    requires LatestSave(saves, cached).Some? && LatestSave(saves, other).Some?
    requires LatestSave(saves, other).value > LatestSave(saves, cached).value
    ensures Lookup(Items(After(saves)), other) == Some(saves[LatestSave(saves, other).value].item)
  {
    var part, list := Items(After(saves)), Recency(saves);
    var x, y := Lookup(part, cached).value, saves[LatestSave(saves, other).value].item;
    RightExactly(saves);
    assert NewestPart(part, list);
    RecencyDistinct(saves);
    PartDistinct(part, list);
    RecencyIsLatest(saves, y);
    RecencyInOrder(saves);
    LookupIs(part, y);
    hide Recency, After, Lookup, Distinct;
    LaterInPart(saves, part, list, x, y);
  }

  lemma LaterInPart(saves: seq<Save>, part: seq<Item>, list: seq<Item>, x: Item, y: Item)
    requires NewestPart(part, list) && InOrder(saves, list) && x in part && y in list
    requires LatestSave(saves, x.url).Some? && LatestSave(saves, y.url).Some?
    requires LatestSave(saves, x.url).value < LatestSave(saves, y.url).value
    ensures y in part
  {
    hide LatestSave;
    var i :| 0 <= i < |part| && part[i] == x;
    var j :| 0 <= j < |list| && list[j] == y;
    var shift := |list| - |part|;
    assert list[shift + i] == x;
    assert j > shift + i;
    assert part[j - shift] == y;
  }

  /** After a save that was written, at most `historyCacheSize` entries are stored. */
  lemma SizeKept(stored: Option<seq<Item>>, save: Save)
    requires !Purge(save) && Writes(stored, save)
    ensures 0 < |Items(Saved(stored, save))| <= save.size
    ensures Lookup(Items(Saved(stored, save)), save.item.url).Some?
  {
    var cache := Items(Saved(stored, save));
    assert cache[|cache| - 1] == save.item;
  }

  /** One size throughout, storage always reachable and no failing write. */
  predicate Smooth(saves: seq<Save>, size: int)
  {
    forall k | 0 <= k < |saves| :: saves[k].accessible && saves[k].failures == 0 && saves[k].size == size
  }

  lemma {:induction false} SmoothSettles(saves: seq<Save>, size: int)
    requires Smooth(saves, size)
    ensures AllSettle(saves)
  {
    if saves != [] {
      SmoothSettles(saves[..|saves| - 1], size);
    }
  }

  /** Then nothing is evicted before the cache is full: it holds the `size` latest URLs, or all. */
  lemma {:induction false} HoldsNewest(saves: seq<Save>, size: nat)
    requires size > 0 && Smooth(saves, size)
    ensures Items(After(saves)) == Newest(Recency(saves), size)
  {
    if saves != [] {
      var before, save := saves[..|saves| - 1], saves[|saves| - 1];
      HoldsNewest(before, size);
      RecencyDistinct(before);
      RecencyMore(saves);
      NewestPush(Recency(before), save.item, size);
      var cache := Attempt(After(before), save);
      assert cache[0..] == cache;
    }
  }

  lemma NewestPush(list: seq<Item>, item: Item, size: nat)
    requires size > 0 && Distinct(list)
    ensures Newest(Without(Newest(list, size), item.url) + [item], size) == Newest(Without(list, item.url) + [item], size)
  {
    var part := Newest(list, size);
    PartPush(part, list, item);
    hide Without, Distinct;
    NewestOfPart(Without(part, item.url) + [item], Without(list, item.url) + [item], size);
  }

  lemma NewestOfPart(part: seq<Item>, list: seq<Item>, size: nat)
    requires NewestPart(part, list) && (|part| >= size || part == list)
    ensures Newest(part, size) == Newest(list, size)
  {
  }

  /**
   * A save can be read back exactly when it is written or the same item is there already:
   * when storage is out of reach or all attempts fail, the old page stays and is served.
   */
  lemma SaveReadBackExactly(stored: Option<seq<Item>>, save: Save)
    requires !Purge(save) && Distinct(Items(stored))
    ensures Lookup(Items(Saved(stored, save)), save.item.url) == Some(save.item) <==>
      Writes(stored, save) || Lookup(Items(stored), save.item.url) == Some(save.item)
  {
    hide *;
    SavedAs(stored, save);
    if Writes(stored, save) {
      var pushed := Without(Items(stored), save.item.url) + [save.item];
      NewestIsPart(pushed, save.size);
      PushDistinct(Items(stored), save.item);
      WrittenIsFound(Attempt(stored, save), pushed, save.item, save.failures);
    }
  }

  lemma SavedAs(stored: Option<seq<Item>>, save: Save)
    requires !Purge(save)
    ensures save.size > 0 && Attempt(stored, save) == Newest(Without(Items(stored), save.item.url) + [save.item], save.size)
    ensures Writes(stored, save) ==>
      save.failures < |Attempt(stored, save)| && Items(Saved(stored, save)) == Attempt(stored, save)[save.failures..]
    ensures !Writes(stored, save) ==> Saved(stored, save) == stored
  {
    hide Without, Newest;
  }

  lemma NewestIsPart(list: seq<Item>, size: nat)
    ensures NewestPart(Newest(list, size), list)
  {
  }

  lemma WrittenIsFound(cache: seq<Item>, pushed: seq<Item>, item: Item, n: nat)
    requires Distinct(pushed) && NewestPart(cache, pushed)
    requires n < |cache| && cache[|cache| - 1] == item
    ensures Lookup(cache[n..], item.url) == Some(item)
  {
    PartDrop(cache, pushed, n);
    hide *;
    PartDistinct(cache[n..], pushed);
    assert cache[n..][|cache| - n - 1] == item;
    LookupIs(cache[n..], item);
  }
}
