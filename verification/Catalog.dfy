/**
 Discovering the workshop catalog from an untrusted pager (crates/jobs/src/catalog.rs): a run that
 succeeds has seen exactly the reported total, and only then names stored items as missing.
 */
module Catalog {
  import opened Wrappers
  import opened FiniteSets

  const I64_MAX: nat := 0x7FFF_FFFF_FFFF_FFFF
  const U32_MAX: nat := 0xFFFF_FFFF

  /** A listed item; `updatedEpoch` is absent when its timestamp does not parse. */
  datatype Item = Item(workshopId: nat, updatedEpoch: Option<int>)
  datatype SyncState = SyncState(activeItemCount: int, updatedEpoch: int)
  datatype CatalogPage = CatalogPage(items: seq<Item>, nextCursor: Option<string>, total: nat)
  datatype UserPage = UserPage(workshopIds: seq<nat>, nextPage: Option<nat>)

  datatype Discovery = Discovery(discovered: nat, queued: seq<int>, missing: seq<int>)

  datatype Failure =
    | Unavailable | CursorRepeated | TotalChanged | InvalidId | InvalidTimestamp | ExceedsTotal
    | Incomplete | NoProgress | EmptyCursor

  /** Positive and within a `bigint`. */
  ghost predicate ValidId(id: nat) { 1 <= id < 0x8000_0000_0000_0000 }

  ghost predicate Spoils(error: Failure, item: Item)
  {
    if error == InvalidId then !ValidId(item.workshopId) else error == InvalidTimestamp && item.updatedEpoch.None?
  }

  ghost predicate Valid(item: Item) { ValidId(item.workshopId) && item.updatedEpoch.Some? }

  /** Stored with an active item, and not changed since. */
  ghost predicate UpToDate(item: Item, stored: map<int, SyncState>)
    requires item.updatedEpoch.Some?
  {
    exists count, epoch ::
      item.workshopId in stored && stored[item.workshopId] == SyncState(count, epoch) && count != 0
      && item.updatedEpoch.value <= epoch
  }

  ghost function Ids(items: seq<Item>): set<nat> { set x | x in items :: x.workshopId }

  /** The items to scan: all that are not up to date, or simply all. */
  ghost function StaleIds(items: seq<Item>, stored: map<int, SyncState>, forceAll: bool): set<nat>
  {
    set x | x in items && x.updatedEpoch.Some? && (forceAll || !UpToDate(x, stored)) :: x.workshopId
  }

  ghost function Listed(pages: seq<CatalogPage>): seq<Item>
  {
    if pages == [] then [] else Listed(pages[..|pages| - 1]) + pages[|pages| - 1].items
  }

  predicate Ascending(s: seq<int>) { forall i, j | 0 <= i < j < |s| :: s[i] < s[j] }

  /** The members of a `BTreeSet`, in iteration order; also a collected vector once sorted. */
  method InOrder(s: set<int>) returns (out: seq<int>)
    ensures Ascending(out) && |out| == |s| && forall x :: x in out <==> x in s
    decreases |s|
  {
    if s == {} {
      return [];
    }
    var x := Any(s);
    var rest := InOrder(s - {x});
    return Place(rest, x);
  }

  function Place(s: seq<int>, x: int): (r: seq<int>)
    requires Ascending(s) && x !in s
    ensures Ascending(r) && |r| == |s| + 1 && forall y :: y in r <==> y == x || y in s
  {
    if s == [] then [x]
    else if x < s[0] then
      assert forall y | y in s :: x < y;
      [x] + s
    else
      var rest := Place(s[1..], x);
      assert forall y | y in s[1..] :: s[0] < y;
      assert forall i | 0 <= i < |rest| :: rest[i] in rest;
      [s[0]] + rest
  }

  lemma UpToDateMeans(item: Item, stored: map<int, SyncState>)
    requires item.updatedEpoch.Some?
    ensures var id := item.workshopId;
      UpToDate(item, stored) <==>
      id in stored && stored[id].activeItemCount != 0 && item.updatedEpoch.value <= stored[id].updatedEpoch
  {
    if item.workshopId in stored {
      var state := stored[item.workshopId];
      assert state == SyncState(state.activeItemCount, state.updatedEpoch);
    }
  }

  /** Notes one page's items; a bad identifier or timestamp stops the discovery. */
  method Note(items: seq<Item>, stored: map<int, SyncState>, forceAll: bool, seen: set<nat>, queued: set<nat>)
    returns (r: Result<(set<nat>, set<nat>), Failure>)
    ensures r.Ok? <==> forall x | x in items :: Valid(x)
    ensures r.Ok? ==> r.value == (seen + Ids(items), queued + StaleIds(items, stored, forceAll))
    ensures r.Err? ==> r.error != Unavailable && exists x :: x in items && Spoils(r.error, x)
  {
    var seen', queued' := seen, queued;
    for i := 0 to |items|
      invariant forall x | x in items[..i] :: Valid(x)
      invariant seen' == seen + Ids(items[..i]) && queued' == queued + StaleIds(items[..i], stored, forceAll)
    {
      var item := items[i];
      assert items[..i + 1] == items[..i] + [item] && item in items;
      if item.workshopId == 0 || item.workshopId > I64_MAX {
        return Err(InvalidId);
      }
      seen' := seen' + {item.workshopId};
      if item.updatedEpoch.None? {
        return Err(InvalidTimestamp);
      }
      UpToDateMeans(item, stored);
      if forceAll || item.workshopId !in stored || stored[item.workshopId].activeItemCount == 0
         || item.updatedEpoch.value > stored[item.workshopId].updatedEpoch {
        queued' := queued' + {item.workshopId};
      }
    }
    assert items[..|items|] == items;
    return Ok((seen', queued'));
  }

  /** Pages fetched so far, all but the last followed by the next, each adding something new. */
  ghost predicate Chain(pages: seq<CatalogPage>)
  {
    && (forall i | 0 <= i < |pages| :: pages[i].total == pages[0].total)
    && (forall i | 0 <= i < |pages| - 1 :: Leads(pages, i))
    && (forall x | x in Listed(pages) :: Valid(x))
  }

  ghost predicate Leads(pages: seq<CatalogPage>, i: nat)
    requires i < |pages|
  {
    && pages[i].nextCursor.Some? && pages[i].nextCursor.value != ""
    && Ids(Listed(pages[..i])) < Ids(Listed(pages[..i + 1]))
  }

  /** A whole catalog: the chain ends, and lists exactly as many items as reported. */
  ghost predicate Complete(pages: seq<CatalogPage>)
  {
    && pages != [] && Chain(pages) && pages[|pages| - 1].nextCursor.None?
    && |Ids(Listed(pages))| == pages[0].total
  }

  /** The cursor call `i` asks with. */
  ghost function CursorAt(pages: seq<CatalogPage>, i: nat): string
    requires i <= |pages|
  {
    if i == 0 then "*" else pages[i - 1].nextCursor.GetOr("")
  }

  /** The pager gave these pages, each when asked with the cursor of the one before. */
  ghost predicate Served(list: (nat, string) -> Result<CatalogPage, ()>, pages: seq<CatalogPage>)
  {
    forall i | 0 <= i < |pages| :: list(i, CursorAt(pages, i)) == Ok(pages[i])
  }

  /** No cursor was asked twice. */
  ghost predicate OncePerCursor(pages: seq<CatalogPage>)
  {
    forall i, j | 0 <= i < j < |pages| :: CursorAt(pages, i) != CursorAt(pages, j)
  }

  ghost predicate AllAsked(pages: seq<CatalogPage>, cursors: set<string>)
  {
    forall i | 0 <= i < |pages| :: CursorAt(pages, i) in cursors
  }

  lemma OnceMore(pages: seq<CatalogPage>, page: CatalogPage, cursor: string, cursors: set<string>)
    requires OncePerCursor(pages) && AllAsked(pages, cursors)
    requires cursor == CursorAt(pages, |pages|) && cursor !in cursors
    ensures OncePerCursor(pages + [page]) && AllAsked(pages + [page], cursors + {cursor})
  {
    hide CursorAt;
    forall i | 0 <= i <= |pages| ensures CursorAt(pages + [page], i) == CursorAt(pages, i) {
      CursorKept(pages, page, i);
    }
  }

  lemma ServedMore(list: (nat, string) -> Result<CatalogPage, ()>, pages: seq<CatalogPage>, page: CatalogPage)
    requires Served(list, pages) && list(|pages|, CursorAt(pages, |pages|)) == Ok(page)
    ensures Served(list, pages + [page])
  {
    hide CursorAt;
    var all := pages + [page];
    forall i | 0 <= i < |all| ensures list(i, CursorAt(all, i)) == Ok(all[i]) {
      CursorKept(pages, page, i);
      if i < |pages| {
        assert all[i] == pages[i];
      }
    }
  }

  lemma CursorKept(pages: seq<CatalogPage>, page: CatalogPage, i: nat)
    requires i <= |pages|
    ensures CursorAt(pages + [page], i) == CursorAt(pages, i)
  {
  }

  /** What a complete catalog is reported as. */
  ghost predicate Reports(d: Discovery, items: seq<Item>, stored: map<int, SyncState>, forceAll: bool)
  {
    && d.discovered == |Ids(items)|
    && Ascending(d.queued) && (forall id :: id in d.queued <==> id in StaleIds(items, stored, forceAll))
    && Ascending(d.missing) && (forall id :: id in d.missing <==> id in stored && id > 0 && id !in Ids(items))
  }

  /** What each rejection found: about the next call for the first two, on the last page otherwise. */
  ghost predicate Explains(error: Failure, pages: seq<CatalogPage>)
  {
    if pages == [] then error == Unavailable
    else
      var last, ids := pages[|pages| - 1], Ids(Listed(pages));
      match error
      case Unavailable => last.nextCursor.Some?
      case CursorRepeated => last.nextCursor.Some? && Asked(pages[..|pages| - 1], last.nextCursor.value)
      case TotalChanged => last.total != pages[0].total
      case InvalidId => exists x :: x in Listed(pages) && !ValidId(x.workshopId)
      case InvalidTimestamp => exists x :: x in Listed(pages) && x.updatedEpoch.None?
      case ExceedsTotal => |ids| > pages[0].total
      case Incomplete => last.nextCursor.None? && |ids| < pages[0].total
      case NoProgress => last.nextCursor.Some? && Ids(last.items) <= Ids(Listed(pages[..|pages| - 1]))
      case EmptyCursor => last.nextCursor == Some("")
  }

  /** The cursors of the calls that fetched these pages and of the one after them. */
  ghost predicate Asked(pages: seq<CatalogPage>, cursor: string)
  {
    cursor == "*" || exists i :: 0 <= i < |pages| && pages[i].nextCursor == Some(cursor)
  }

  lemma ExplainedIsIncomplete(error: Failure, pages: seq<CatalogPage>)
    requires Explains(error, pages)
    ensures !Complete(pages)
  {
    hide Listed, Ids, Leads;
  }

  lemma AskedNext(pages: seq<CatalogPage>, page: CatalogPage, cursors: set<string>)
    requires forall c | c in cursors :: Asked(pages, c)
    requires page.nextCursor.Some?
    ensures forall c | c in cursors + {page.nextCursor.value} :: Asked(pages + [page], c)
  {
    forall c | c in cursors ensures Asked(pages + [page], c) {
      if c != "*" {
        var i :| 0 <= i < |pages| && pages[i].nextCursor == Some(c);
        assert (pages + [page])[i].nextCursor == Some(c);
      }
    }
    assert (pages + [page])[|pages|].nextCursor == page.nextCursor;
  }

  lemma ListedAppend(pages: seq<CatalogPage>, page: CatalogPage)
    ensures Listed(pages + [page]) == Listed(pages) + page.items
    ensures Ids(Listed(pages + [page])) == Ids(Listed(pages)) + Ids(page.items)
  {
    assert (pages + [page])[..|pages|] == pages;
  }

  lemma StaleAppend(a: seq<Item>, b: seq<Item>, stored: map<int, SyncState>, forceAll: bool)
    ensures StaleIds(a + b, stored, forceAll) == StaleIds(a, stored, forceAll) + StaleIds(b, stored, forceAll)
  {
    hide UpToDate;
  }

  lemma ChainAppend(pages: seq<CatalogPage>, page: CatalogPage)
    requires Chain(pages) && forall x | x in page.items :: Valid(x)
    requires pages != [] ==> page.total == pages[0].total && Leads(pages, |pages| - 1)
    ensures Chain(pages + [page])
  {
    ListedAppend(pages, page);
    hide Listed, Valid, Ids, Leads;
    var all := pages + [page];
    forall i | 0 <= i < |all| - 1 ensures Leads(all, i) {
      LeadsLater(pages, page, i);
    }
  }

  lemma LeadsLater(pages: seq<CatalogPage>, page: CatalogPage, i: nat)
    requires i < |pages| && Leads(pages, i)
    ensures Leads(pages + [page], i)
  {
    hide Listed, Ids;
    var all := pages + [page];
    assert all[..i] == pages[..i] && all[..i + 1] == pages[..i + 1];
  }

  /** The stored items that the workshop no longer lists; synthetic identifiers are not positive. */
  method MissingItems(stored: map<int, SyncState>, seen: set<nat>) returns (missing: seq<int>)
    ensures Ascending(missing)
    ensures forall id :: id in missing <==> id in stored && id > 0 && id !in seen
  {
    missing := InOrder(set id | id in stored.Keys && id > 0 && id !in seen);
  }

  lemma NoPages(stored: map<int, SyncState>, forceAll: bool)
    ensures Ids(Listed([])) == {} && StaleIds(Listed([]), stored, forceAll) == {} && Chain([])
  {
  }

  lemma BadItem(error: Failure, before: seq<CatalogPage>, page: CatalogPage)
    requires exists x :: x in page.items && Spoils(error, x)
    ensures Explains(error, before + [page])
  {
    ListedAppend(before, page);
    hide Listed, Ids, ValidId;
    var x :| x in page.items && Spoils(error, x);
    assert x in Listed(before + [page]);
  }

  /** A set that did not grow in size did not grow. */
  lemma Stalled(was: set<nat>, added: set<nat>)
    requires |was + added| <= |was|
    ensures added <= was
  {
    if !(added <= was) {
      assert was < was + added;
      ProperSubsetSize(was, was + added);
    }
  }

  lemma Advances(before: seq<CatalogPage>, page: CatalogPage)
    requires page.nextCursor.Some? && page.nextCursor.value != ""
    requires |Ids(Listed(before)) + Ids(page.items)| > |Ids(Listed(before))|
    ensures Leads(before + [page], |before|)
  {
    ListedAppend(before, page);
    hide Listed, Ids;
    var all := before + [page];
    assert all[..|before|] == before && all[..|before| + 1] == all;
    assert Ids(Listed(all)) != Ids(Listed(before));
  }

  /** What a rejection of the next call rests on. */
  lemma CallRejected(before: seq<CatalogPage>, cursor: string)
    requires before != [] ==> before[|before| - 1].nextCursor == Some(cursor)
    ensures Explains(Unavailable, before)
    ensures before != [] && Asked(before[..|before| - 1], cursor) ==> Explains(CursorRepeated, before)
  {
    hide Asked, Listed, Ids;
  }

  lemma OtherTotal(before: seq<CatalogPage>, page: CatalogPage)
    requires before != [] && page.total != before[0].total
    ensures Explains(TotalChanged, before + [page])
  {
    hide Asked, Listed, Ids;
  }

  /** Asks for one page after the check on its cursor, and compares its total. */
  method Ask(list: (nat, string) -> Result<CatalogPage, ()>, cursor: string, cursors: set<string>, expected: Option<nat>,
             before: seq<CatalogPage>)
    returns (r: Result<CatalogPage, Failure>, pages: seq<CatalogPage>)
    requires Served(list, before) && OncePerCursor(before) && AllAsked(before, cursors)
    requires expected == if before == [] then None else Some(before[0].total)
    requires if before == [] then cursor == "*" && cursor !in cursors else before[|before| - 1].nextCursor == Some(cursor)
    requires before != [] ==> forall c | c in cursors :: Asked(before[..|before| - 1], c)
    ensures Served(list, pages) && OncePerCursor(pages)
    ensures r.Err? ==> Explains(r.error, pages)
    ensures r == Err(Unavailable) ==> list(|pages|, CursorAt(pages, |pages|)).Err?
    ensures r.Ok? ==> pages == before + [r.value] && AllAsked(pages, cursors + {cursor}) && cursor !in cursors
    ensures r.Ok? && before != [] ==> r.value.total == before[0].total
  {
    AsksNext(before, cursor);
    hide Asked, Served, CursorAt, Explains, OncePerCursor, AllAsked;
    pages := before;
    CallRejected(before, cursor);
    if cursor in cursors {
      return Err(CursorRepeated), pages;
    }
    var result := list(|pages|, cursor);
    if result.Err? {
      return Err(Unavailable), pages;
    }
    var page := result.value;
    ServedMore(list, before, page);
    OnceMore(before, page, cursor, cursors);
    pages := before + [page];
    if expected.GetOr(page.total) != page.total {
      OtherTotal(before, page);
      return Err(TotalChanged), pages;
    }
    r := Ok(page);
  }

  /** One page, asked for and noted. */
  method Fetch(list: (nat, string) -> Result<CatalogPage, ()>, stored: map<int, SyncState>, forceAll: bool,
               cursor: string, cursors: set<string>, expected: Option<nat>, seen: set<nat>, queued: set<nat>,
               before: seq<CatalogPage>)
    returns (r: Result<(set<nat>, set<nat>), Failure>, pages: seq<CatalogPage>)
    requires Chain(before) && (before != [] ==> Leads(before, |before| - 1))
    requires seen == Ids(Listed(before)) && queued == StaleIds(Listed(before), stored, forceAll)
    requires expected == if before == [] then None else Some(before[0].total)
    requires if before == [] then cursor == "*" && cursor !in cursors else before[|before| - 1].nextCursor == Some(cursor)
    requires before != [] ==> forall c | c in cursors :: Asked(before[..|before| - 1], c)
    requires Served(list, before) && OncePerCursor(before) && AllAsked(before, cursors)
    ensures Served(list, pages) && OncePerCursor(pages)
    ensures r.Ok? ==> AllAsked(pages, cursors + {cursor})
    ensures r.Err? ==> Explains(r.error, pages)
    ensures r == Err(Unavailable) ==> list(|pages|, CursorAt(pages, |pages|)).Err?
    ensures r.Ok? ==> |pages| == |before| + 1 && pages == before + [pages[|before|]] && Chain(pages)
    ensures r.Ok? ==> r.value == (Ids(Listed(pages)), StaleIds(Listed(pages), stored, forceAll))
    ensures r.Ok? ==> cursor !in cursors && seen <= r.value.0
  {
    hide Ids, StaleIds, Chain, Leads, Valid, Listed, Asked, Served, CursorAt, Explains, OncePerCursor, AllAsked, Spoils;
    var asked;
    asked, pages := Ask(list, cursor, cursors, expected, before);
    if asked.Err? {
      return Err(asked.error), pages;
    }
    var page := asked.value;
    ListedAppend(before, page);
    StaleAppend(Listed(before), page.items, stored, forceAll);
    var noted := Note(page.items, stored, forceAll, seen, queued);
    if noted.Err? {
      BadItem(noted.error, before, page);
      return Err(noted.error), pages;
    }
    ChainAppend(before, page);
    return Ok(noted.value), pages;
  }

  /** `pages` is every page that was fetched, the last one possibly rejected. */
  method DiscoverAll(list: (nat, string) -> Result<CatalogPage, ()>, stored: map<int, SyncState>, forceAll: bool)
    returns (r: Result<Discovery, Failure>, pages: seq<CatalogPage>)
    ensures Served(list, pages) && OncePerCursor(pages)
    ensures r.Ok? <==> Complete(pages)
    ensures r.Err? ==> Explains(r.error, pages)
    ensures r == Err(Unavailable) ==> list(|pages|, CursorAt(pages, |pages|)).Err?
    ensures r.Ok? ==> |pages| <= pages[0].total + 1 && r.value.discovered == pages[0].total
    ensures r.Ok? ==> Reports(r.value, Listed(pages), stored, forceAll)
  {
    NoneServed(list);
    hide Ids, StaleIds, Leads, Valid, Listed, Explains, Asked, UpToDate, Served, CursorAt, Reports, OncePerCursor, AllAsked;
    var seen: set<nat>, queued: set<nat> := {}, {};
    var cursor := "*";
    var cursors: set<string> := {};
    var expected: Option<nat> := None;
    pages := [];
    NoPages(stored, forceAll);
    while true
      invariant Served(list, pages) && OncePerCursor(pages) && AllAsked(pages, cursors)
      invariant seen == Ids(Listed(pages)) && queued == StaleIds(Listed(pages), stored, forceAll)
      invariant expected == if pages == [] then None else Some(pages[0].total)
      invariant Chain(pages) && (pages != [] ==> Leads(pages, |pages| - 1) && |pages| <= |seen| <= pages[0].total)
      invariant if pages == [] then cursors == {} && cursor == "*" else pages[|pages| - 1].nextCursor == Some(cursor)
      invariant pages != [] ==> forall c | c in cursors :: Asked(pages[..|pages| - 1], c)
      decreases expected.None?, expected.GetOr(0) - |seen|
    {
      ghost var before := pages;
      var previousCount := |seen|;
      ghost var was := seen;
      var fetched: Result<(set<nat>, set<nat>), Failure>;
      fetched, pages := Fetch(list, stored, forceAll, cursor, cursors, expected, seen, queued, pages);
      if fetched.Err? {
        ExplainedIsIncomplete(fetched.error, pages);
        return Err(fetched.error), pages;
      }
      var page := pages[|pages| - 1];
      expected := Some(page.total);
      seen, queued := fetched.value.0, fetched.value.1;
      SubsetSize(was, seen);
      ListedAppend(before, page);
      if |seen| > page.total {
        Overfull(pages, page);
        return Err(ExceedsTotal), pages;
      }
      if page.nextCursor.None? {
        if |seen| != page.total {
          Overfull(pages, page);
          return Err(Incomplete), pages;
        }
        break;
      }
      assert pages[..|pages| - 1] == before;
      if |seen| <= previousCount {
        Stalled(was, Ids(page.items));
        Halted(NoProgress, pages);
        return Err(NoProgress), pages;
      }
      if page.nextCursor.value == "" {
        Halted(EmptyCursor, pages);
        return Err(EmptyCursor), pages;
      }
      Advances(before, page);
      AskedHere(before, cursor, cursors);
      cursors := cursors + {cursor};
      cursor := page.nextCursor.value;
    }
    var order := InOrder(queued);
    var missing := MissingItems(stored, seen);
    r := Ok(Discovery(|seen|, order, missing));
    Reported(r.value, pages, stored, forceAll);
  }

  lemma Reported(d: Discovery, pages: seq<CatalogPage>, stored: map<int, SyncState>, forceAll: bool)
    requires d.discovered == |Ids(Listed(pages))| && Ascending(d.queued) && Ascending(d.missing)
    requires forall id :: id in d.queued <==> id in StaleIds(Listed(pages), stored, forceAll)
    requires forall id :: id in d.missing <==> id in stored && id > 0 && id !in Ids(Listed(pages))
    ensures Reports(d, Listed(pages), stored, forceAll)
  {
    hide Ids, StaleIds, Listed;
  }

  lemma AsksNext(pages: seq<CatalogPage>, cursor: string)
    requires if pages == [] then cursor == "*" else pages[|pages| - 1].nextCursor == Some(cursor)
    ensures cursor == CursorAt(pages, |pages|)
  {
  }

  lemma NoneServed(list: (nat, string) -> Result<CatalogPage, ()>)
    ensures Served(list, []) && OncePerCursor([]) && AllAsked([], {})
  {
  }

  lemma Overfull(pages: seq<CatalogPage>, page: CatalogPage)
    requires pages != [] && Chain(pages) && page == pages[|pages| - 1]
    requires |Ids(Listed(pages))| != page.total
    ensures !Complete(pages)
    ensures |Ids(Listed(pages))| > page.total ==> Explains(ExceedsTotal, pages)
    ensures |Ids(Listed(pages))| < page.total && page.nextCursor.None? ==> Explains(Incomplete, pages)
  {
    hide Ids, Listed, Leads, Valid;
  }

  lemma Halted(error: Failure, pages: seq<CatalogPage>)
    requires pages != [] && pages[|pages| - 1].nextCursor.Some?
    requires if error == NoProgress then Ids(pages[|pages| - 1].items) <= Ids(Listed(pages[..|pages| - 1]))
             else error == EmptyCursor && pages[|pages| - 1].nextCursor.value == ""
    ensures Explains(error, pages) && !Complete(pages)
  {
    hide Ids, Listed, Chain;
  }

  lemma AskedHere(pages: seq<CatalogPage>, cursor: string, cursors: set<string>)
    requires if pages == [] then cursor == "*" && cursors == {} else pages[|pages| - 1].nextCursor == Some(cursor)
    requires pages != [] ==> forall c | c in cursors :: Asked(pages[..|pages| - 1], c)
    ensures forall c | c in cursors + {cursor} :: Asked(pages, c)
  {
    if pages != [] {
      var k := |pages| - 1;
      assert pages == pages[..k] + [pages[k]];
      AskedNext(pages[..k], pages[k], cursors);
    }
  }

  /** Nothing is both listed for a scan and named for deletion. */
  lemma QueuedIsNotMissing(items: seq<Item>, stored: map<int, SyncState>, forceAll: bool, id: nat)
    requires id in StaleIds(items, stored, forceAll)
    ensures id in Ids(items)
  {
  }

  /** Page numbers are `u32`. */
  ghost predicate PagesAreU32(list: (nat, nat) -> Result<UserPage, ()>)
  {
    forall k: nat, p: nat :: list(k, p).Ok? ==> list(k, p).value.nextPage.GetOr(0) <= U32_MAX
  }

  /** The page number call `i` asks for. */
  ghost function NumberAt(pages: seq<UserPage>, i: nat): nat
    requires i <= |pages|
  {
    if i == 0 then 1 else pages[i - 1].nextPage.GetOr(0)
  }

  ghost predicate ServedUser(list: (nat, nat) -> Result<UserPage, ()>, pages: seq<UserPage>)
  {
    forall i | 0 <= i < |pages| :: list(i, NumberAt(pages, i)) == Ok(pages[i])
  }

  ghost predicate LeadsOn(pages: seq<UserPage>, i: nat)
    requires i < |pages|
  {
    && (forall id | id in pages[i].workshopIds :: ValidId(id))
    && pages[i].nextPage.Some? && pages[i].nextPage.value > NumberAt(pages, i)
  }

  ghost predicate Leading(pages: seq<UserPage>, n: nat)
    requires n <= |pages|
  {
    forall i | 0 <= i < n :: LeadsOn(pages, i)
  }

  /** A whole walk: each page leads to a later one, the last to none, and every identifier is valid. */
  ghost predicate WholeWalk(pages: seq<UserPage>)
  {
    && pages != [] && Leading(pages, |pages| - 1)
    && pages[|pages| - 1].nextPage.None? && forall id | id in pages[|pages| - 1].workshopIds :: ValidId(id)
  }

  /** What stopped a walk: the next call, or the last page. */
  ghost predicate Stops(list: (nat, nat) -> Result<UserPage, ()>, error: Failure, pages: seq<UserPage>)
  {
    match error
    case Unavailable =>
      && list(|pages|, NumberAt(pages, |pages|)).Err?
      && (pages != [] ==> LeadsOn(pages, |pages| - 1))
    case InvalidId => pages != [] && exists id :: id in pages[|pages| - 1].workshopIds && !ValidId(id)
    case NoProgress =>
      && pages != [] && pages[|pages| - 1].nextPage.Some?
      && pages[|pages| - 1].nextPage.value <= NumberAt(pages, |pages| - 1)
    case _ => false
  }

  lemma StoppedIsNotWhole(list: (nat, nat) -> Result<UserPage, ()>, error: Failure, pages: seq<UserPage>)
    requires Stops(list, error, pages)
    ensures !WholeWalk(pages)
  {
    hide ValidId;
  }

  /** Notes one page of an author; a bad identifier stops the walk. */
  method NoteIds(ids: seq<nat>, seen: set<nat>, queued: set<nat>) returns (r: Result<(set<nat>, set<nat>), Failure>)
    ensures r.Ok? <==> forall id | id in ids :: ValidId(id)
    ensures r.Ok? ==> r.value == (seen + (set id | id in ids), queued + (set id | id in ids))
    ensures r.Err? ==> r.error == InvalidId
  {
    var seen', queued' := seen, queued;
    for i := 0 to |ids|
      invariant forall id | id in ids[..i] :: ValidId(id)
      invariant seen' == seen + (set id | id in ids[..i]) && queued' == queued + (set id | id in ids[..i])
    {
      assert ids[..i + 1] == ids[..i] + [ids[i]] && ids[i] in ids;
      if ids[i] == 0 || ids[i] > I64_MAX {
        return Err(InvalidId);
      }
      seen', queued' := seen' + {ids[i]}, queued' + {ids[i]};
    }
    assert ids[..|ids|] == ids;
    return Ok((seen', queued'));
  }

  /**
   The author repair follows increasing page numbers to their end and never reports a missing item.
   It succeeds exactly on a whole walk, and a failure says what stopped it.
   */
  method RepairAuthors(list: (nat, nat) -> Result<UserPage, ()>)
    returns (r: Result<Discovery, Failure>, pages: seq<UserPage>)
    requires PagesAreU32(list)
    ensures ServedUser(list, pages) && |pages| <= U32_MAX
    ensures r.Ok? <==> WholeWalk(pages)
    ensures r.Err? ==> Stops(list, r.error, pages)
    ensures r.Ok? ==> r.value.missing == [] && Ascending(r.value.queued) && r.value.discovered == |r.value.queued|
    ensures r.Ok? ==> forall id :: id in r.value.queued <==> exists i :: 0 <= i < |pages| && id in pages[i].workshopIds
  {
    NoWalk(list);
    hide ValidId, PagesAreU32, WholeWalk, LeadsOn, Leading, ServedUser, NumberAt, Stops;
    var seen: set<nat>, queued: set<nat> := {}, {};
    var page: nat := 1;
    pages := [];
    while true
      invariant 1 <= page <= U32_MAX && |pages| < page && page == NumberAt(pages, |pages|)
      invariant ServedUser(list, pages) && Leading(pages, |pages|)
      invariant queued == seen
      invariant forall id :: id in seen <==> exists i :: 0 <= i < |pages| && id in pages[i].workshopIds
      decreases U32_MAX - page
    {
      var result := list(|pages|, page);
      if result.Err? {
        Unanswered(list, pages);
        StoppedIsNotWhole(list, Unavailable, pages);
        return Err(Unavailable), pages;
      }
      PageIsU32(list, |pages|, page);
      ghost var before := pages;
      pages := pages + [result.value];
      WalkedOn(list, before, result.value);
      ghost var was := seen;
      var noted := NoteIds(result.value.workshopIds, seen, queued);
      if noted.Err? {
        Misled(list, pages);
        StoppedIsNotWhole(list, InvalidId, pages);
        return Err(noted.error), pages;
      }
      seen, queued := noted.value.0, noted.value.1;
      ListedOn(before, result.value, was, seen);
      if result.value.nextPage.None? {
        WalkEnds(pages);
        break;
      }
      if result.value.nextPage.value <= page {
        Misled(list, pages);
        StoppedIsNotWhole(list, NoProgress, pages);
        return Err(NoProgress), pages;
      }
      page := result.value.nextPage.value;
      WalkGoesOn(pages);
    }
    var order := InOrder(queued);
    return Ok(Discovery(|seen|, order, [])), pages;
  }

  lemma PageIsU32(list: (nat, nat) -> Result<UserPage, ()>, k: nat, p: nat)
    requires PagesAreU32(list) && list(k, p).Ok?
    ensures list(k, p).value.nextPage.GetOr(0) <= U32_MAX
  {
  }

  lemma NoWalk(list: (nat, nat) -> Result<UserPage, ()>)
    ensures ServedUser(list, []) && Leading([], 0) && NumberAt([], 0) == 1
  {
  }

  lemma Unanswered(list: (nat, nat) -> Result<UserPage, ()>, pages: seq<UserPage>)
    requires list(|pages|, NumberAt(pages, |pages|)).Err? && Leading(pages, |pages|)
    ensures Stops(list, Unavailable, pages)
  {
    hide LeadsOn, NumberAt;
  }

  lemma Misled(list: (nat, nat) -> Result<UserPage, ()>, pages: seq<UserPage>)
    requires pages != []
    ensures (exists id :: id in pages[|pages| - 1].workshopIds && !ValidId(id)) ==> Stops(list, InvalidId, pages)
    ensures pages[|pages| - 1].nextPage.Some? && pages[|pages| - 1].nextPage.value <= NumberAt(pages, |pages| - 1) ==>
              Stops(list, NoProgress, pages)
  {
    hide NumberAt, ValidId;
  }

  lemma WalkedOn(list: (nat, nat) -> Result<UserPage, ()>, before: seq<UserPage>, page: UserPage)
    requires ServedUser(list, before) && list(|before|, NumberAt(before, |before|)) == Ok(page)
    requires Leading(before, |before|)
    ensures var all := before + [page];
      && ServedUser(list, all) && NumberAt(all, |before|) == NumberAt(before, |before|) && Leading(all, |before|)
  {
    hide NumberAt, LeadsOn;
    var all := before + [page];
    forall i | 0 <= i < |all| ensures list(i, NumberAt(all, i)) == Ok(all[i]) {
      NumberKept(before, page, i);
      if i < |before| {
        assert all[i] == before[i];
      }
    }
    NumberKept(before, page, |before|);
    forall i | 0 <= i < |before| ensures LeadsOn(all, i) {
      StillLeads(before, page, i);
    }
  }

  lemma WalkGoesOn(pages: seq<UserPage>)
    requires pages != [] && Leading(pages, |pages| - 1)
    requires forall id | id in pages[|pages| - 1].workshopIds :: ValidId(id)
    requires pages[|pages| - 1].nextPage.Some? && pages[|pages| - 1].nextPage.value > NumberAt(pages, |pages| - 1)
    ensures Leading(pages, |pages|) && NumberAt(pages, |pages|) == pages[|pages| - 1].nextPage.value
  {
    hide ValidId;
    assert LeadsOn(pages, |pages| - 1);
  }

  lemma NumberKept(pages: seq<UserPage>, page: UserPage, i: nat)
    requires i <= |pages|
    ensures NumberAt(pages + [page], i) == NumberAt(pages, i)
  {
  }

  lemma StillLeads(pages: seq<UserPage>, page: UserPage, i: nat)
    requires i < |pages| && LeadsOn(pages, i)
    ensures LeadsOn(pages + [page], i)
  {
    hide ValidId;
    assert (pages + [page])[i] == pages[i];
    NumberKept(pages, page, i);
  }

  lemma WalkEnds(pages: seq<UserPage>)
    requires pages != [] && Leading(pages, |pages| - 1)
    requires pages[|pages| - 1].nextPage.None? && forall id | id in pages[|pages| - 1].workshopIds :: ValidId(id)
    ensures WholeWalk(pages)
  {
    hide Leading, ValidId;
  }

  lemma ListedOn(before: seq<UserPage>, page: UserPage, was: set<nat>, now: set<nat>)
    requires forall id :: id in was <==> exists i :: 0 <= i < |before| && id in before[i].workshopIds
    requires now == was + set id | id in page.workshopIds
    ensures forall id :: id in now <==> exists i :: 0 <= i < |before + [page]| && id in (before + [page])[i].workshopIds
  {
    var all := before + [page];
    forall id ensures id in now <==> exists i :: 0 <= i < |all| && id in all[i].workshopIds {
      if id in was {
        var i :| 0 <= i < |before| && id in before[i].workshopIds;
        assert all[i] == before[i];
      } else if id in page.workshopIds {
        assert all[|before|] == page;
      }
    }
  }

  /** `discover_catalog`: the repair walk or the whole catalog, with the outcome of either. */
  method Discover(list: (nat, string) -> Result<CatalogPage, ()>, listUser: (nat, nat) -> Result<UserPage, ()>,
                  stored: map<int, SyncState>, forceAll: bool, repair: bool)
    returns (r: Result<Discovery, Failure>, pages: seq<CatalogPage>, walked: seq<UserPage>)
    requires PagesAreU32(listUser)
    ensures repair ==>
      && ServedUser(listUser, walked) && (r.Ok? <==> WholeWalk(walked)) && (r.Err? ==> Stops(listUser, r.error, walked))
      && (r.Ok? ==> r.value.missing == [] && Ascending(r.value.queued) && r.value.discovered == |r.value.queued|
                    && forall id :: id in r.value.queued <==> exists i :: 0 <= i < |walked| && id in walked[i].workshopIds)
    ensures !repair ==>
      && Served(list, pages) && OncePerCursor(pages) && (r.Ok? <==> Complete(pages)) && (r.Err? ==> Explains(r.error, pages))
      && (r.Ok? ==> Reports(r.value, Listed(pages), stored, forceAll) && r.value.discovered == pages[0].total)
    ensures r.Ok? ==> forall id | id in r.value.queued :: id !in r.value.missing
  {
    hide WholeWalk, Complete, Explains, Stops, Served, OncePerCursor, ServedUser, PagesAreU32, Listed, StaleIds, Ids;
    pages, walked := [], [];
    if repair {
      r, walked := RepairAuthors(listUser);
      return;
    }
    r, pages := DiscoverAll(list, stored, forceAll);
    if r.Ok? {
      forall id | id in r.value.queued ensures id !in r.value.missing {
        QueuedIsNotMissing(Listed(pages), stored, forceAll, id);
      }
    }
  }
}
