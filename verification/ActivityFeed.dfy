/**
 The guild activity feed and its durable cursor (crates/discord/src/feeds.rs, with the cursor and
 delivery updates of crates/database/src/services/discord_runtime.rs).

 `Feed` is the durable state of one guild feed.  Any call may fail before or after taking effect and
 ends the poll.  Ghost fields count what Discord accepted and where a poll was cut before the "sent"
 write.
 */
module ActivityFeed {
  import opened Wrappers
  import opened Calls

  const PAGE_LIMIT: nat := 500

  /** `message` is false for a rank batch that renders to nothing. */
  datatype Event = Event(id: int, kind: string, message: bool)

  datatype Status = Pending | Sent | Failed

  datatype Failure = BadPage | CallFailed(at: int) | BadChannel(at: int) | CursorWrite

  datatype Settings = Settings(kind: string, enabled: bool, channelParses: bool)

  function FeedKind(kind: string): Option<string>
  {
    if kind == "workshop" || kind == "world_record" then Some(kind)
    else if kind == "rank_batch" then Some("rank")
    else None
  }

  /** The event goes to feeds of this kind: rank batches to the rank feed, the others to their namesake. */
  ghost predicate Concerns(s: Settings, e: Event)
  {
    (s.kind, e.kind) in {("workshop", "workshop"), ("world_record", "world_record"), ("rank", "rank_batch")}
  }

  lemma ConcernsMeans(s: Settings, e: Event)
    ensures Concerns(s, e) <==> FeedKind(e.kind) == Some(s.kind)
  {
  }

  // ---------------------------------------------------------------- the event log and its pages

  ghost predicate Ascending(log: seq<Event>)
  {
    forall i, j | 0 <= i < j < |log| :: log[i].id < log[j].id
  }

  /** How many events of the log a cursor has left behind. */
  function Behind(log: seq<Event>, cursor: int): (k: nat)
    ensures k <= |log|
  {
    if log == [] || log[0].id > cursor then 0 else 1 + Behind(log[1..], cursor)
  }

  /** The events after a cursor, oldest first, as many as the server returns at once. */
  function PageAfter(log: seq<Event>, cursor: int): seq<Event>
  {
    var k := Behind(log, cursor);
    if |log| - k <= PAGE_LIMIT then log[k..] else log[k..k + PAGE_LIMIT]
  }

  lemma {:induction false} BehindSplits(log: seq<Event>, cursor: int)
    requires Ascending(log)
    ensures forall i | 0 <= i < |log| :: log[i].id <= cursor <==> i < Behind(log, cursor)
  {
    if log != [] && log[0].id <= cursor {
      BehindSplits(log[1..], cursor);
      forall i | 0 <= i < |log| ensures log[i].id <= cursor <==> i < Behind(log, cursor) {
        assert i > 0 ==> log[i] == log[1..][i - 1];
      }
    }
  }

  /** `activity_page`: ids must follow the cursor in ascending order. */
  method CheckPage(page: seq<Event>, cursor: int) returns (ok: bool)
    ensures ok <==> Ascending(page) && forall e | e in page :: e.id > cursor
  {
    var previous := cursor;
    for i := 0 to |page|
      invariant previous == if i == 0 then cursor else page[i - 1].id
      invariant Ascending(page[..i]) && forall j | 0 <= j < i :: page[j].id > cursor
      invariant previous >= cursor
    {
      if page[i].id <= previous {
        if i == 0 {
          assert page[0].id <= cursor && page[0] in page;
        } else {
          assert page[i - 1].id >= page[i].id;
        }
        return false;
      }
      previous := page[i].id;
    }
    assert page[..|page|] == page;
    ok := true;
  }

  // ---------------------------------------------------------------- durable state

  class Feed {
    var cursor: int
    var deliveries: map<int, Status>
    /** How often Discord accepted each event. */
    ghost var accepted: multiset<int>
    /** How often a poll was cut between that acceptance and the "sent" write. */
    ghost var cut: multiset<int>

    ghost predicate IsSent(id: int)
      reads this`deliveries
    {
      id in deliveries && deliveries[id] == Sent
    }

    /** An event was posted once for its "sent" mark and once more for every cut, never otherwise. */
    ghost predicate Accounted()
      reads this`deliveries, this`accepted, this`cut
    {
      forall id: int :: accepted[id] == cut[id] + if IsSent(id) then 1 else 0
    }

    /** Nothing that concerns the feed has been passed without being sent. */
    ghost predicate Covered(s: Settings, log: seq<Event>, start: int)
      reads this
    {
      forall e | e in log && Concerns(s, e) && start < e.id <= cursor :: IsSent(e.id) || !e.message
    }

    constructor (cursor: int)
      ensures this.cursor == cursor && deliveries == map[] && accepted == multiset{} && cut == multiset{}
      ensures Accounted()
    {
      this.cursor, deliveries, accepted, cut := cursor, map[], multiset{}, multiset{};
    }

    /** The update's WHERE clause moves the cursor forward only. */
    method Advance(id: int, f: Fault) returns (ok: bool)
      modifies this`cursor
      ensures ok == (f == Fine)
      ensures cursor == if f != Lost && old(cursor) < id then id else old(cursor)
    {
      if f != Lost && cursor < id {
        cursor := id;
      }
      ok := f == Fine;
    }

    method SetDelivery(id: int, status: Status, f: Fault) returns (ok: bool)
      modifies this`deliveries
      ensures ok == (f == Fine)
      ensures deliveries == if f == Lost then old(deliveries) else old(deliveries)[id := status]
    {
      if f != Lost {
        deliveries := deliveries[id := status];
      }
      ok := f == Fine;
    }

    /** Post the message and record the outcome: "sent" on a reply, "failed" on an error. */
    method Post(id: int, post: Fault, record: Fault) returns (ok: bool)
      requires Accounted() && !IsSent(id)
      modifies this`deliveries, this`accepted, this`cut
      ensures Accounted()
      ensures forall x | x != id :: accepted[x] == old(accepted)[x] && cut[x] == old(cut)[x] && (IsSent(x) <==> old(IsSent(x)))
      ensures accepted[id] == old(accepted)[id] + if post == Lost then 0 else 1
      ensures cut[id] == old(cut)[id] + if post == Unanswered || (post == Fine && record == Lost) then 1 else 0
      ensures IsSent(id) <==> post == Fine && record != Lost
      ensures ok <==> post == Fine && record == Fine
    {
      if post != Lost {
        accepted := accepted[id := accepted[id] + 1];
      }
      if post == Fine {
        if record == Lost {
          cut := cut[id := cut[id] + 1];
        }
        ok := SetDelivery(id, Sent, record);
      } else {
        // The reply is an error: the post is recorded as failed, whether or not it was accepted.
        if post == Unanswered {
          cut := cut[id := cut[id] + 1];
        }
        ok := SetDelivery(id, Failed, record);
        ok := false;
      }
    }

    /** The calls of one delivery, in order: look up, render, mark pending, post, record the outcome. */
    method Deliver(s: Settings, e: Event, faults: nat -> Fault) returns (ok: bool, failure: Failure)
      requires Accounted()
      modifies this`deliveries, this`accepted, this`cut
      ensures Accounted()
      ensures forall x | x != e.id :: accepted[x] == old(accepted)[x] && cut[x] == old(cut)[x] && (IsSent(x) <==> old(IsSent(x)))
      ensures old(IsSent(e.id)) ==> IsSent(e.id) && accepted[e.id] == old(accepted)[e.id]
      ensures accepted[e.id] <= old(accepted)[e.id] + 1
      ensures ok && s.enabled ==> IsSent(e.id) || !e.message
      ensures !ok ==> failure == CallFailed(e.id) || (failure == BadChannel(e.id) && !s.channelParses)
      ensures s.channelParses && (forall k :: faults(k) == Fine) ==> ok
    {
      hide Accounted;
      ok, failure := false, CallFailed(e.id);
      if !s.enabled {
        return true, failure;
      }
      if faults(0) != Fine {
        return;
      }
      if e.id in deliveries && deliveries[e.id] == Sent {
        return true, failure;
      }
      if faults(1) != Fine {
        return;
      }
      if !e.message {
        return true, failure;
      }
      var done := MarkPending(e.id, faults(2));
      if !done {
        return;
      }
      if !s.channelParses {
        failure := BadChannel(e.id);
        return;
      }
      ok := Post(e.id, faults(3), faults(4));
    }

    method MarkPending(id: int, f: Fault) returns (ok: bool)
      requires Accounted() && !IsSent(id)
      modifies this`deliveries
      ensures Accounted() && !IsSent(id)
      ensures forall x :: IsSent(x) <==> old(IsSent(x))
      ensures ok == (f == Fine)
    {
      ok := SetDelivery(id, Pending, f);
    }
  }

  // ---------------------------------------------------------------- one poll

  function Scanned(page: seq<Event>, n: nat, start: int): int
    requires n <= |page|
  {
    if n == 0 then start else page[n - 1].id
  }

  /** Event `i` of a page: the cursor is written up to it, the event delivered, and the cursor written past it. */
  method DeliverAt(feed: Feed, s: Settings, page: seq<Event>, i: nat, scanned: int, faults: nat -> Fault)
      returns (r: Result<(), Failure>)
    requires feed.Accounted() && s.enabled && i < |page| && HandledBy(feed, s, page, i)
    requires feed.cursor <= scanned < page[i].id
    modifies feed
    ensures feed.Accounted() && HandledBy(feed, s, page, i)
    ensures forall id | old(feed.IsSent(id)) :: feed.IsSent(id) && feed.accepted[id] == old(feed.accepted)[id]
    ensures r.Ok? ==> feed.cursor == page[i].id
    ensures feed.cursor == page[i].id ==> HandledBy(feed, s, page, i + 1)
    ensures feed.cursor == scanned || r.Ok? || (r.error == CursorWrite && feed.cursor in {old(feed.cursor), page[i].id})
    ensures r.Err? ==> r.error == CursorWrite || r.error == CallFailed(page[i].id) || r.error == BadChannel(page[i].id)
    ensures s.channelParses && (forall k :: faults(k) == Fine) ==> r.Ok?
  {
    hide Feed.Accounted, Feed.IsSent, FeedKind, Concerns;
    if scanned != feed.cursor {
      // Checkpoint the irrelevant prefix before the first call that may fail.
      var ok := feed.Advance(scanned, faults(0));
      if !ok {
        return Err(CursorWrite);
      }
    }
    var ok, failure := feed.Deliver(s, page[i], (k: nat) => faults(k + 1));
    if !ok {
      return Err(failure);
    }
    ok := feed.Advance(page[i].id, faults(6));
    r := if ok then Ok(()) else Err(CursorWrite);
  }

  /**
   One poll.  The cursor moves forward only, and only over events that were handled; when delivery of
   event `k` fails while cursor writes succeed, it rests on the event before it.
   */
  method Poll(feed: Feed, s: Settings, page: seq<Event>, faults: (nat, nat) -> Fault) returns (r: Result<(), Failure>)
    requires feed.Accounted() && s.enabled
    modifies feed
    ensures feed.Accounted() && feed.cursor >= old(feed.cursor)
    ensures forall id | old(feed.IsSent(id)) :: feed.IsSent(id) && feed.accepted[id] == old(feed.accepted)[id]
    ensures r == Err(BadPage) <==> !(Ascending(page) && forall e | e in page :: e.id > old(feed.cursor))
    ensures r == Err(BadPage) ==> feed.cursor == old(feed.cursor)
    ensures r != Err(BadPage) ==>
      exists n :: 0 <= n <= |page| && feed.cursor == Scanned(page, n, old(feed.cursor)) && HandledBy(feed, s, page, n)
    ensures r.Err? && (r.error.CallFailed? || r.error.BadChannel?) ==>
      exists k :: && 0 <= k < |page| && page[k].id == r.error.at && Concerns(s, page[k])
                  && feed.cursor == Scanned(page, k, old(feed.cursor))
    ensures r.Ok? ==> feed.cursor == Scanned(page, |page|, old(feed.cursor)) && HandledBy(feed, s, page, |page|)
    ensures s.channelParses && (forall i, k :: faults(i, k) == Fine) ==> r.Ok? || r == Err(BadPage)
  {
    hide Feed.Accounted, Feed.IsSent, FeedKind, Concerns;
    var ok := CheckPage(page, feed.cursor);
    if !ok {
      return Err(BadPage);
    }
    var durable, scanned := feed.cursor, feed.cursor;
    for i := 0 to |page|
      invariant feed.Accounted()
      invariant feed.cursor == durable >= old(feed.cursor) && scanned == Scanned(page, i, old(feed.cursor))
      invariant exists n :: 0 <= n <= i && durable == Scanned(page, n, old(feed.cursor))
      invariant HandledBy(feed, s, page, i)
      invariant forall id | old(feed.IsSent(id)) :: feed.IsSent(id) && feed.accepted[id] == old(feed.accepted)[id]
    {
      var e := page[i];
      assert i > 0 ==> page[i - 1].id < e.id;
      ConcernsMeans(s, e);
      if FeedKind(e.kind) == Some(s.kind) {
        var done := DeliverAt(feed, s, page, i, scanned, (k: nat) => faults(i, k));
        if done.Err? {
          return done;
        }
        durable := e.id;
        assert durable == Scanned(page, i + 1, old(feed.cursor));
      }
      scanned := e.id;
    }
    if scanned != durable {
      ok := feed.Advance(scanned, faults(|page|, 0));
      if !ok {
        return Err(CursorWrite);
      }
    }
    r := Ok(());
  }

  ghost predicate HandledBy(feed: Feed, s: Settings, page: seq<Event>, n: int)
    requires 0 <= n <= |page|
    reads feed
  {
    forall i | 0 <= i < n && Concerns(s, page[i]) :: feed.IsSent(page[i].id) || !page[i].message
  }

  // ---------------------------------------------------------------- every run of polls

  /** Handling a prefix of the page after the cursor covers the log up to the new cursor. */
  lemma PrefixCovers(feed: Feed, s: Settings, log: seq<Event>, start: int, before: int, n: int)
    requires Ascending(log) && 0 <= n <= |PageAfter(log, before)|
    requires forall e | e in log && Concerns(s, e) && start < e.id <= before :: feed.IsSent(e.id) || !e.message
    requires HandledBy(feed, s, PageAfter(log, before), n)
    requires feed.cursor == Scanned(PageAfter(log, before), n, before)
    ensures feed.Covered(s, log, start)
  {
    hide Concerns, Behind;
    BehindSplits(log, before);
    var k, page := Behind(log, before), PageAfter(log, before);
    assert forall i | 0 <= i < |page| :: page[i] == log[k + i];
    forall e | e in log && Concerns(s, e) && start < e.id <= feed.cursor ensures feed.IsSent(e.id) || !e.message {
      var i :| 0 <= i < |log| && log[i] == e;
      if i >= k {
        assert n > 0 && page[n - 1] == log[k + n - 1];
        assert i <= k + n - 1;
        assert page[i - k] == e;
      }
    }
  }

  /** The server lists the log after the cursor, and lists it in order. */
  lemma PageIsGood(log: seq<Event>, cursor: int)
    requires Ascending(log)
    ensures Ascending(PageAfter(log, cursor)) && forall e | e in PageAfter(log, cursor) :: e.id > cursor
  {
    hide Behind;
    BehindSplits(log, cursor);
    var k, page := Behind(log, cursor), PageAfter(log, cursor);
    assert forall i | 0 <= i < |page| :: page[i] == log[k + i];
  }

  datatype Action = Record(event: Event) | PollOnce(faults: (nat, nat) -> Fault)

  /** Over every interleaving of new events and interrupted polls: the cursor never passes an unhandled event,
      never moves back, and each event is posted once per "sent" mark and once per cut. */
  method EveryRun(feed: Feed, s: Settings, actions: seq<Action>) returns (log: seq<Event>)
    requires feed.Accounted() && s.enabled
    modifies feed
    ensures feed.Accounted() && Ascending(log) && feed.cursor >= old(feed.cursor)
    ensures feed.Covered(s, log, old(feed.cursor))
  {
    hide Concerns, PageAfter, Feed.Accounted, Ascending;
    log := [];
    EmptyLog();
    for i := 0 to |actions|
      invariant feed.Accounted() && Ascending(log) && feed.cursor >= old(feed.cursor)
      invariant feed.Covered(s, log, old(feed.cursor))
    {
      match actions[i]
      case Record(e) =>
        // Ids are assigned in order, and a feed's cursor never runs ahead of the log.
        if (log == [] || log[|log| - 1].id < e.id) && feed.cursor < e.id {
          OneMoreEvent(log, e);
          log := log + [e];
        }
      case PollOnce(faults) =>
        ghost var before := feed.cursor;
        PageIsGood(log, before);
        var page := PageAfter(log, feed.cursor);
        var r := Poll(feed, s, page, faults);
        ghost var n :| 0 <= n <= |page| && feed.cursor == Scanned(page, n, before) && HandledBy(feed, s, page, n);
        PrefixCovers(feed, s, log, old(feed.cursor), before, n);
    }
  }

  lemma EmptyLog()
    ensures Ascending([])
  {
  }

  lemma OneMoreEvent(log: seq<Event>, e: Event)
    requires Ascending(log) && (log == [] || log[|log| - 1].id < e.id)
    ensures Ascending(log + [e])
  {
  }

  /** A second post of an event needs a cut: what `Accounted` says about repeats. */
  lemma RepostNeedsCut(feed: Feed, id: int)
    requires feed.Accounted()
    ensures feed.accepted[id] >= 2 ==> feed.cut[id] >= 1
    ensures feed.cut[id] == 0 ==> feed.accepted[id] <= 1
  {
    assert feed.accepted[id] == feed.cut[id] + if feed.IsSent(id) then 1 else 0;
  }
}
