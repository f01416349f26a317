/**
 Delete-and-repost playlist delivery that survives crashes
 (crates/inspector-zeep/src/playlist_publication.rs and discord.rs, with the row updates of
 crates/database/src/services/playlist_notifications.rs).

 `World` is what outlives a run: the channels and the notification rows.  Every call to Discord or
 the database may fail before it takes effect or after it, and a failed call ends the run, so a
 crash is possible between any two calls.
 */
module PlaylistDelivery {
  import opened Wrappers
  import opened Decimals
  import opened Calls
  import FiniteSets

  const PAGE: nat := 100
  const PAGES: nat := 10

  datatype Message = Message(id: nat, author: string, texts: seq<string>)

  /** One line of `level_submission_playlist_notification`. */
  datatype Row = Row(desired: nat, delivered: Option<nat>, message: Option<nat>, channel: Option<string>,
                     attempt: Option<(nat, string)>)

  datatype Failure = CallFailed | MissingArtifact | CountMismatch | HistoryBound

  type Channels = map<string, seq<Message>>

  type Rows = map<nat, Row>

  // ---------------------------------------------------------------- markers

  function Marker(contest: nat, playlist: nat): string
  {
    "zc-playlist:" + Decimal(contest) + ":" + Decimal(playlist)
  }

  function Footer(marker: string): string { "-# " + marker }

  /** The text displays of the container `playlist_payload` builds; `name` is all that follows in the title. */
  function Texts(contest: nat, playlist: nat, name: string): seq<string>
  {
    ["## " + name, Footer(Marker(contest, playlist))]
  }

  /** The footer of the program's own test. */
  lemma FooterExample(name: string)
    ensures Texts(42, 99, name) == ["## " + name, "-# " + ("zc-playlist:" + "42" + ":" + "99")]
  {
    assert Decimal(42) == "42" && Decimal(99) == "99";
    hide Decimal;
  }

  lemma ColonFree(n: nat)
    ensures ':' !in Decimal(n)
  {
    assert forall c | c in Decimal(n) :: c in DIGITS;
  }

  lemma SplitAtColon(a: string, b: string, c: string, d: string)
    requires a + ":" + b == c + ":" + d && ':' !in a && ':' !in c
    ensures a == c && b == d
  {
    var s := a + ":" + b;
    var t := c + ":" + d;
    assert s[|a|] == ':' && t[|c|] == ':';
    assert forall i | 0 <= i < |a| :: s[i] == a[i];
    assert forall i | 0 <= i < |c| :: t[i] == c[i];
    assert |a| == |c|;
    assert a == s[..|a|] && c == t[..|c|];
    assert b == s[|a| + 1..] && d == t[|c| + 1..];
  }

  /** Markers of different playlists differ, so recovery cannot take one for another. */
  lemma MarkerInjective(c: nat, p: nat, c': nat, p': nat)
    requires Marker(c, p) == Marker(c', p')
    ensures c == c' && p == p'
  {
    var prefix := "zc-playlist:";
    var a, b := Decimal(c) + ":" + Decimal(p), Decimal(c') + ":" + Decimal(p');
    assert Marker(c, p) == prefix + a && Marker(c', p') == prefix + b;
    assert a == (prefix + a)[|prefix|..] && b == (prefix + b)[|prefix|..];
    ColonFree(c);
    ColonFree(c');
    SplitAtColon(Decimal(c), Decimal(p), Decimal(c'), Decimal(p'));
    NumeralInjective(c, c', 10);
    NumeralInjective(p, p', 10);
  }

  /** A posted playlist message carries the marker of that playlist and no other. */
  lemma TextsCarryOneMarker(c: nat, p: nat, name: string)
    ensures forall c': nat, p': nat :: Footer(Marker(c', p')) in Texts(c, p, name) <==> c' == c && p' == p
  {
    hide Marker;
    forall c': nat, p': nat ensures Footer(Marker(c', p')) in Texts(c, p, name) <==> c' == c && p' == p {
      assert Footer(Marker(c', p'))[0] == '-' && ("## " + name)[0] == '#';
      if Footer(Marker(c', p')) == Footer(Marker(c, p)) {
        assert Marker(c', p') == Footer(Marker(c', p'))[3..];
        assert Marker(c, p) == Footer(Marker(c, p))[3..];
        MarkerInjective(c', p', c, p);
      }
    }
  }

  // ---------------------------------------------------------------- bounded recovery

  ghost predicate Matches(m: Message, bot: string, marker: string)
  {
    m.author == bot && Footer(marker) in m.texts
  }

  /** Channel history is newest first: ids strictly decrease. */
  ghost predicate Descending(history: seq<Message>)
  {
    forall i, j | 0 <= i < j < |history| :: history[i].id > history[j].id
  }

  /** `GET messages?limit=100&before=id`: the newest messages older than `before`. */
  function Older(history: seq<Message>, before: Option<nat>): seq<Message>
  {
    if history == [] then []
    else if before.Some? && history[0].id >= before.value then Older(history[1..], before)
    else history
  }

  function FetchPage(history: seq<Message>, before: Option<nat>): seq<Message>
  {
    var older := Older(history, before);
    if |older| <= PAGE then older else older[..PAGE]
  }

  lemma {:induction false} OlderDrops(history: seq<Message>, k: nat)
    requires Descending(history) && 0 < k <= |history|
    ensures Older(history, Some(history[k - 1].id)) == history[k..]
  {
    if k == 1 {
      NothingOlder(history[1..], history[0].id);
    } else {
      OlderDrops(history[1..], k - 1);
    }
  }

  lemma NothingOlder(history: seq<Message>, id: nat)
    requires forall m | m in history :: m.id < id
    ensures Older(history, Some(id)) == history
  {
  }

  /** The newest match among the newest thousand; nothing only when the whole history was read. */
  ghost predicate Recovered(history: seq<Message>, bot: string, marker: string, r: Result<Option<nat>, Failure>)
  {
    match r
    case Ok(Some(id)) =>
      exists k ::
        && 0 <= k < |history| && k < PAGE * PAGES && history[k].id == id && Matches(history[k], bot, marker)
        && forall j | 0 <= j < k :: !Matches(history[j], bot, marker)
    case Ok(None) =>
      |history| < PAGE * PAGES && forall m | m in history :: !Matches(m, bot, marker)
    case Err(f) =>
      && f == HistoryBound && |history| >= PAGE * PAGES
      && forall j | 0 <= j < PAGE * PAGES :: !Matches(history[j], bot, marker)
  }

  method RecoverMessage(history: seq<Message>, bot: string, marker: string) returns (r: Result<Option<nat>, Failure>)
    requires Descending(history)
    ensures Recovered(history, bot, marker, r)
  {
    var before: Option<nat> := None;
    for page := 0 to PAGES
      invariant PAGE * page <= |history|
      invariant forall j | 0 <= j < PAGE * page :: !Matches(history[j], bot, marker)
      invariant Older(history, before) == history[PAGE * page..]
    {
      var messages := FetchPage(history, before);
      assert forall i | 0 <= i < |messages| :: messages[i] == history[PAGE * page + i];
      for i := 0 to |messages|
        invariant forall j | 0 <= j < PAGE * page + i :: !Matches(history[j], bot, marker)
      {
        var footer := "-# " + marker;
        assert Matches(messages[i], bot, marker) <==> messages[i].author == bot && footer in messages[i].texts;
        if messages[i].author == bot && footer in messages[i].texts {
          return Ok(Some(messages[i].id));
        }
      }
      if |messages| < PAGE {
        return Ok(None);
      }
      OlderDrops(history, PAGE * (page + 1));
      before := Some(messages[|messages| - 1].id);
    }
    r := Err(HistoryBound);
  }

  // ---------------------------------------------------------------- what has to hold between calls

  function History(channels: Channels, ch: string): seq<Message>
  {
    if ch in channels then channels[ch] else []
  }

  /** `m` is a playlist message of contest `c` standing in channel `ch`. */
  ghost predicate Live(channels: Channels, bot: string, c: nat, p: nat, ch: string, m: Message)
  {
    m in History(channels, ch) && Matches(m, bot, Marker(c, p))
  }

  ghost predicate NoneLive(channels: Channels, bot: string, c: nat)
  {
    forall p: nat, ch, m :: !Live(channels, bot, c, p, ch, m)
  }

  ghost predicate Ordered(channels: Channels, nextId: nat)
  {
    forall ch :: Descending(History(channels, ch)) && forall m | m in History(channels, ch) :: m.id < nextId
  }

  /** No message carries the markers of two playlists. */
  ghost predicate SingleMarkers(channels: Channels, bot: string)
  {
    forall ch, m, c: nat, p: nat, c': nat, p': nat |
      m in History(channels, ch) && Matches(m, bot, Marker(c, p)) && Matches(m, bot, Marker(c', p')) :: c == c' && p == p'
  }

  /** The row records this very message. */
  ghost predicate Records(row: Row, p: nat, ch: string, m: Message)
  {
    row.attempt == None && row.message == Some(m.id) && row.channel == Some(ch) && row.delivered == Some(p)
  }

  /** At most one live message; it is recorded, or the recorded attempt leads back to it. */
  ghost predicate Tracked(channels: Channels, bot: string, c: nat, row: Row)
  {
    && (forall p: nat, ch, m, p': nat, ch', m' |
          Live(channels, bot, c, p, ch, m) && Live(channels, bot, c, p', ch', m') :: p == p' && ch == ch' && m == m')
    && (forall p: nat, ch, m | Live(channels, bot, c, p, ch, m) :: Records(row, p, ch, m) || row.attempt == Some((p, ch)))
  }

  /**
   The row itself: an attempt forgets the old message; a recorded message is the contest's own, and
   without an attempt a delivered playlist with levels has one.
   */
  ghost predicate RowSound(channels: Channels, bot: string, counts: nat -> nat, nextId: nat, c: nat, row: Row)
  {
    && (row.attempt.Some? ==> row.message == None && counts(row.attempt.value.0) > 0)
    && (row.message.Some? ==>
          && row.channel.Some? && row.delivered.Some? && counts(row.delivered.value) > 0 && row.message.value < nextId
          && forall m | m in History(channels, row.channel.value) && m.id == row.message.value ::
            Matches(m, bot, Marker(c, row.delivered.value)))
    && (row.attempt.None? && row.delivered.Some? && counts(row.delivered.value) > 0 ==> row.message.Some?)
  }

  ghost predicate ContestInv(channels: Channels, bot: string, counts: nat -> nat, nextId: nat, rows: Rows, c: nat)
  {
    if c in rows then Tracked(channels, bot, c, rows[c]) && RowSound(channels, bot, counts, nextId, c, rows[c])
    else NoneLive(channels, bot, c)
  }

  /** The desired playlist stands alone in `channel` and is recorded, or nothing stands at all. */
  ghost predicate Shown(channels: Channels, bot: string, counts: nat -> nat, c: nat, row: Row, channel: string)
  {
    && row.attempt == None && row.delivered == Some(row.desired) && row.channel == Some(channel)
    && if counts(row.desired) == 0 then NoneLive(channels, bot, c)
       else exists m :: Live(channels, bot, c, row.desired, channel, m) && row.message == Some(m.id)
  }

  /** The recorded message is gone, yet the row already reads as if the desired playlist were shown. */
  ghost predicate Stale(channels: Channels, counts: nat -> nat, row: Row, channel: string)
  {
    && row.attempt == None && row.delivered == Some(row.desired) && row.channel == Some(channel)
    && counts(row.desired) > 0 && row.message.Some?
    && forall m | m in History(channels, channel) :: m.id != row.message.value
  }

  /** The WHERE clause of `pending_playlist_notifications`, but for its clock. */
  ghost predicate Pending(row: Row, channel: string)
  {
    !(row.delivered == Some(row.desired) && row.channel == Some(channel) && row.attempt == None)
  }

  /** The preflight refuses the artifact: it is missing or declares another number of levels. */
  ghost predicate BadArtifact(counts: nat -> nat, row: Row, levels: Option<nat>)
  {
    counts(row.desired) > 0 && levels != Some(counts(row.desired))
  }

  /** The open attempt cannot be resolved: ten full pages of newer messages hide whatever it left. */
  ghost predicate Buried(channels: Channels, bot: string, c: nat, row: Row)
  {
    row.attempt.Some? &&
      var (p, ch) := row.attempt.value;
      && |History(channels, ch)| >= PAGE * PAGES
      && forall j | 0 <= j < PAGE * PAGES :: !Matches(History(channels, ch)[j], bot, Marker(c, p))
  }

  /** No channel gained more than `n` messages. */
  ghost predicate Grew(channels: Channels, channels': Channels, n: nat)
  {
    forall ch :: |History(channels', ch)| <= |History(channels, ch)| + n
  }

  // ---------------------------------------------------------------- effects on the channels

  function Without(history: seq<Message>, id: nat): seq<Message>
  {
    if history == [] then [] else (if history[0].id == id then [] else [history[0]]) + Without(history[1..], id)
  }

  lemma {:induction false} WithoutMembers(history: seq<Message>, id: nat)
    ensures forall m :: m in Without(history, id) <==> m in history && m.id != id
  {
    if history != [] {
      WithoutMembers(history[1..], id);
      assert history == [history[0]] + history[1..];
    }
  }

  lemma {:induction false} WithoutKeeps(history: seq<Message>, id: nat)
    requires Descending(history)
    ensures Descending(Without(history, id))
    ensures forall m :: m in Without(history, id) <==> m in history && m.id != id
  {
    WithoutMembers(history, id);
    if history != [] {
      WithoutKeeps(history[1..], id);
      var rest := Without(history[1..], id);
      forall m | m in rest ensures m.id < history[0].id {
        assert m in history[1..];
      }
    }
  }

  function Removed(channels: Channels, ch: string, id: nat): Channels
  {
    channels[ch := Without(History(channels, ch), id)]
  }

  function Posted(channels: Channels, ch: string, m: Message): Channels
  {
    channels[ch := [m] + History(channels, ch)]
  }

  lemma RemovedLive(channels: Channels, nextId: nat, ch: string, id: nat)
    requires Ordered(channels, nextId)
    ensures Ordered(Removed(channels, ch, id), nextId)
    ensures forall bot, c: nat, p: nat, ch', m ::
              Live(Removed(channels, ch, id), bot, c, p, ch', m) <==>
              Live(channels, bot, c, p, ch', m) && !(ch' == ch && m.id == id)
  {
    hide Matches, Marker, Descending, Without;
    assert Descending(History(channels, ch));
    WithoutKeeps(History(channels, ch), id);
    var after := Removed(channels, ch, id);
    forall ch' ensures Descending(History(after, ch')) && forall m | m in History(after, ch') :: m.id < nextId {
      assert Descending(History(channels, ch'));
    }
  }

  lemma PostedLive(channels: Channels, nextId: nat, ch: string, m: Message)
    requires Ordered(channels, nextId) && m.id == nextId
    ensures Ordered(Posted(channels, ch, m), nextId + 1)
    ensures forall bot, c: nat, p: nat, ch', m' ::
              Live(Posted(channels, ch, m), bot, c, p, ch', m') <==>
              Live(channels, bot, c, p, ch', m') || (ch' == ch && m' == m && Matches(m, bot, Marker(c, p)))
  {
    hide Matches, Marker;
    var after := Posted(channels, ch, m);
    forall ch' ensures Descending(History(after, ch')) && forall m' | m' in History(after, ch') :: m'.id < nextId + 1 {
      assert Descending(History(channels, ch'));
    }
  }

  // ---------------------------------------------------------------- the world between runs

  class World {
    const bot: string
    const counts: nat -> nat
    var channels: Channels
    var rows: Rows
    var nextId: nat
    /** The contests whose `next_attempt_at` is still ahead. */
    var waiting: set<nat>

    ghost predicate Inv()
      reads this
    {
      && Ordered(channels, nextId) && SingleMarkers(channels, bot)
      && forall c: nat :: ContestInv(channels, bot, counts, nextId, rows, c)
    }

    constructor (bot: string, counts: nat -> nat)
      ensures Inv() && rows == map[] && waiting == {} && this.bot == bot && this.counts == counts
    {
      this.bot, this.counts := bot, counts;
      channels, rows, nextId, waiting := map[], map[], 0, {};
    }

    // The calls.  Each reports whether it was answered; an unanswered one has taken effect.

    method Delete(ch: string, id: nat, f: Fault) returns (ok: bool)
      modifies this`channels
      ensures ok == (f == Fine)
      ensures channels == if f == Lost then old(channels) else Removed(old(channels), ch, id)
    {
      if f != Lost {
        channels := Removed(channels, ch, id);
      }
      ok := f == Fine;
    }

    method Send(ch: string, texts: seq<string>, f: Fault) returns (id: Option<nat>)
      modifies this`channels, this`nextId
      ensures id == if f == Fine then Some(old(nextId)) else None
      ensures channels == if f == Lost then old(channels) else Posted(old(channels), ch, Message(old(nextId), bot, texts))
      ensures nextId == if f == Lost then old(nextId) else old(nextId) + 1
    {
      id := if f == Fine then Some(nextId) else None;
      if f != Lost {
        channels := Posted(channels, ch, Message(nextId, bot, texts));
        nextId := nextId + 1;
      }
    }

    method Update(contest: nat, row: Row, f: Fault) returns (ok: bool)
      requires contest in rows
      modifies this`rows
      ensures ok == (f == Fine)
      ensures rows == if f == Lost then old(rows) else old(rows)[contest := row]
    {
      if f != Lost {
        rows := rows[contest := row];
      }
      ok := f == Fine;
    }

    method Recover(contest: nat, message: Option<nat>, ch: string, f: Fault) returns (ok: bool)
      requires contest in rows
      modifies this`rows
      ensures ok == (f == Fine)
      ensures rows == if f == Lost then old(rows) else old(rows)[contest := RecoveredRow(old(rows)[contest], message, ch)]
    {
      var row := rows[contest];
      var delivered: Option<nat> := None;
      if message.Some? && row.attempt.Some? {
        delivered := Some(row.attempt.value.0);
      }
      ok := Update(contest, Row(row.desired, delivered, message, Some(ch), None), f);
    }

    method Clear(contest: nat, f: Fault) returns (ok: bool)
      requires contest in rows
      modifies this`rows
      ensures ok == (f == Fine)
      ensures rows == if f == Lost then old(rows) else old(rows)[contest := ClearedRow(old(rows)[contest])]
    {
      var row := rows[contest];
      ok := Update(contest, Row(row.desired, None, None, row.channel, row.attempt), f);
    }

    method Begin(contest: nat, playlist: nat, ch: string, f: Fault) returns (ok: bool)
      requires contest in rows
      modifies this`rows
      ensures ok == (f == Fine)
      ensures rows == if f == Lost then old(rows) else old(rows)[contest := BegunRow(old(rows)[contest], playlist, ch)]
    {
      var row := rows[contest];
      if row.attempt.None? {
        row := Row(row.desired, row.delivered, row.message, row.channel, Some((playlist, ch)));
      }
      ok := Update(contest, row, f);
    }

    method Finish(contest: nat, playlist: nat, ch: string, message: Option<nat>, f: Fault) returns (ok: bool)
      requires contest in rows
      modifies this`rows
      ensures ok == (f == Fine)
      ensures rows == if f == Lost then old(rows)
                      else old(rows)[contest := FinishedRow(old(rows)[contest], playlist, ch, message)]
    {
      ok := Update(contest, Row(rows[contest].desired, Some(playlist), message, Some(ch), None), f);
    }
  }

  // ---------------------------------------------------------------- the row updates, as the SQL writes them

  ghost function RecoveredRow(row: Row, message: Option<nat>, ch: string): Row
  {
    row.(message := message, channel := Some(ch),
         delivered := if message.Some? && row.attempt.Some? then Some(row.attempt.value.0) else None, attempt := None)
  }

  ghost function ClearedRow(row: Row): Row { row.(message := None, delivered := None) }

  ghost function BegunRow(row: Row, playlist: nat, ch: string): Row
  {
    if row.attempt.None? then row.(attempt := Some((playlist, ch))) else row
  }

  ghost function FinishedRow(row: Row, playlist: nat, ch: string, message: Option<nat>): Row
  {
    row.(delivered := Some(playlist), channel := Some(ch), message := message, attempt := None)
  }

  // ---------------------------------------------------------------- what one run may touch

  /** Other contests keep their live messages; what is new is newer than everything recorded. */
  ghost predicate OnlyAffects(channels: Channels, channels': Channels, bot: string, nextId: nat, contest: nat)
  {
    && (forall c: nat, p: nat, ch, m | c != contest :: Live(channels', bot, c, p, ch, m) <==> Live(channels, bot, c, p, ch, m))
    && (forall ch, m | m in History(channels', ch) :: m in History(channels, ch) || m.id >= nextId)
  }

  ghost predicate SameRows(rows: Rows, rows': Rows, contest: nat)
  {
    && rows'.Keys == rows.Keys && contest in rows
    && (forall c | c in rows && c != contest :: rows'[c] == rows[c])
    && rows'[contest].desired == rows[contest].desired
  }

  lemma OthersKept(channels: Channels, channels': Channels, bot: string, counts: nat -> nat, nextId: nat, nextId': nat,
                   rows: Rows, rows': Rows, contest: nat)
    requires forall c: nat :: ContestInv(channels, bot, counts, nextId, rows, c)
    requires OnlyAffects(channels, channels', bot, nextId, contest) && SameRows(rows, rows', contest) && nextId <= nextId'
    requires ContestInv(channels', bot, counts, nextId', rows', contest)
    ensures forall c: nat :: ContestInv(channels', bot, counts, nextId', rows', c)
  {
    hide Matches, Marker, Live;
    forall c: nat | c != contest ensures ContestInv(channels', bot, counts, nextId', rows', c) {
      assert ContestInv(channels, bot, counts, nextId, rows, c);
    }
  }

  lemma RemovedOwn(channels: Channels, bot: string, nextId: nat, contest: nat, p: nat, ch: string, id: nat)
    requires Ordered(channels, nextId) && SingleMarkers(channels, bot)
    requires forall m | m in History(channels, ch) && m.id == id :: Matches(m, bot, Marker(contest, p))
    ensures var after := Removed(channels, ch, id);
      OnlyAffects(channels, after, bot, nextId, contest) && SingleMarkers(after, bot)
  {
    RemovedLive(channels, nextId, ch, id);
    hide Matches, Marker, Without, Descending, History, Removed;
    var after := Removed(channels, ch, id);
    RemovedHistories(channels, nextId, ch, id);
    forall c: nat, q: nat, ch', m | c != contest && Live(channels, bot, c, q, ch', m) ensures !(ch' == ch && m.id == id) {
      OnlyOneMarker(channels, bot, contest, p, c, q, ch', m);
    }
  }

  lemma OnlyOneMarker(channels: Channels, bot: string, contest: nat, p: nat, c: nat, q: nat, ch: string, m: Message)
    requires SingleMarkers(channels, bot) && c != contest && Live(channels, bot, c, q, ch, m)
    ensures !Matches(m, bot, Marker(contest, p))
  {
    hide Matches, Marker, History;
  }

  lemma RemovedHistories(channels: Channels, nextId: nat, ch: string, id: nat)
    requires Ordered(channels, nextId)
    ensures forall ch', m | m in History(Removed(channels, ch, id), ch') :: m in History(channels, ch')
  {
    assert Descending(History(channels, ch));
    WithoutKeeps(History(channels, ch), id);
    hide Without, Descending;
  }

  lemma PostedOwn(channels: Channels, bot: string, nextId: nat, contest: nat, p: nat, name: string, ch: string)
    requires Ordered(channels, nextId) && SingleMarkers(channels, bot)
    ensures var m := Message(nextId, bot, Texts(contest, p, name));
      var after := Posted(channels, ch, m);
      && OnlyAffects(channels, after, bot, nextId, contest) && SingleMarkers(after, bot)
      && (forall c: nat, q: nat :: Matches(m, bot, Marker(c, q)) <==> c == contest && q == p)
  {
    var m := Message(nextId, bot, Texts(contest, p, name));
    var after := Posted(channels, ch, m);
    TextsCarryOneMarker(contest, p, name);
    forall c: nat, q: nat ensures Matches(m, bot, Marker(c, q)) <==> c == contest && q == p {
      hide Marker, Footer, Texts;
    }
    hide Matches, Marker, Texts, SingleMarkers;
    assert forall ch', x | x in History(after, ch') :: x == m || x in History(channels, ch');
    StillSingle(channels, after, bot, m, contest, p);
    PostedAffects(channels, bot, nextId, contest, ch, m, p);
  }

  lemma PostedAffects(channels: Channels, bot: string, nextId: nat, contest: nat, ch: string, m: Message, p: nat)
    requires Ordered(channels, nextId) && m.id == nextId
    requires forall c: nat, q: nat :: Matches(m, bot, Marker(c, q)) <==> c == contest && q == p
    ensures OnlyAffects(channels, Posted(channels, ch, m), bot, nextId, contest)
  {
    PostedLive(channels, nextId, ch, m);
    hide Matches, Marker;
  }

  lemma StillSingle(channels: Channels, after: Channels, bot: string, m: Message, contest: nat, p: nat)
    requires SingleMarkers(channels, bot)
    requires forall ch, x | x in History(after, ch) :: x == m || x in History(channels, ch)
    requires forall c: nat, q: nat :: Matches(m, bot, Marker(c, q)) <==> c == contest && q == p
    ensures SingleMarkers(after, bot)
  {
    hide Matches, Marker;
  }

  // ---------------------------------------------------------------- the steps of a run

  lemma RecoverStep(channels: Channels, bot: string, counts: nat -> nat, nextId: nat, c: nat, row: Row,
                    found: Option<nat>)
    requires Ordered(channels, nextId)
    requires Tracked(channels, bot, c, row) && RowSound(channels, bot, counts, nextId, c, row) && row.attempt.Some?
    requires Recovered(History(channels, row.attempt.value.1), bot, Marker(c, row.attempt.value.0), Ok(found))
    ensures var row' := RecoveredRow(row, found, row.attempt.value.1);
      && Tracked(channels, bot, c, row') && RowSound(channels, bot, counts, nextId, c, row')
      && (found.Some? ==> exists m :: Live(channels, bot, c, row.attempt.value.0, row.attempt.value.1, m) && m.id == found.value)
  {
    hide Matches, Marker;
    var (p, ch) := row.attempt.value;
    var history := History(channels, ch);
    assert Descending(history);
    if found.Some? {
      var k :| 0 <= k < |history| && history[k].id == found.value && Matches(history[k], bot, Marker(c, p));
      assert Live(channels, bot, c, p, ch, history[k]);
      forall m | m in history && m.id == found.value ensures m == history[k] {}
    }
  }

  lemma DeleteStep(channels: Channels, bot: string, counts: nat -> nat, nextId: nat, c: nat, row: Row)
    requires Ordered(channels, nextId)
    requires Tracked(channels, bot, c, row) && RowSound(channels, bot, counts, nextId, c, row)
    requires row.attempt.None? && row.message.Some?
    ensures var after := Removed(channels, row.channel.value, row.message.value);
      && NoneLive(after, bot, c) && Tracked(after, bot, c, row) && RowSound(after, bot, counts, nextId, c, row)
      && Ordered(after, nextId)
  {
    RemovedLive(channels, nextId, row.channel.value, row.message.value);
    assert Descending(History(channels, row.channel.value));
    WithoutKeeps(History(channels, row.channel.value), row.message.value);
    hide Matches, Marker, Without, Descending;
  }

  lemma SendStep(channels: Channels, bot: string, counts: nat -> nat, nextId: nat, c: nat, row: Row, name: string)
    requires Ordered(channels, nextId) && SingleMarkers(channels, bot)
    requires NoneLive(channels, bot, c) && RowSound(channels, bot, counts, nextId, c, row) && row.attempt.Some?
    ensures var (p, ch) := row.attempt.value;
      var m := Message(nextId, bot, Texts(c, p, name));
      var after := Posted(channels, ch, m);
      var row' := FinishedRow(row, p, ch, Some(nextId));
      && Ordered(after, nextId + 1)
      && Tracked(after, bot, c, row) && RowSound(after, bot, counts, nextId + 1, c, row)
      && Tracked(after, bot, c, row') && RowSound(after, bot, counts, nextId + 1, c, row')
      && Live(after, bot, c, p, ch, m)
  {
    var (p, ch) := row.attempt.value;
    var m := Message(nextId, bot, Texts(c, p, name));
    PostedLive(channels, nextId, ch, m);
    PostedOwn(channels, bot, nextId, c, p, name, ch);
    hide Matches, Marker, Texts, Descending, Tracked, RowSound, Ordered, SingleMarkers;
    var after := Posted(channels, ch, m);
    assert m in History(after, ch);
    PostedIsNew(channels, nextId, ch, m);
    assert Live(after, bot, c, p, ch, m);
    SentTracked(channels, bot, c, row, m);
    SentSound(channels, bot, counts, nextId, c, row, m);
  }

  lemma PostedIsNew(channels: Channels, nextId: nat, ch: string, m: Message)
    requires Ordered(channels, nextId) && m.id == nextId
    ensures forall x | x in History(Posted(channels, ch, m), ch) && x.id == nextId :: x == m
  {
    hide Descending;
    assert forall x | x in History(Posted(channels, ch, m), ch) :: x == m || x in History(channels, ch);
  }

  /** The posted message is the only live one, and both rows lead to it. */
  lemma SentTracked(channels: Channels, bot: string, c: nat, row: Row, m: Message)
    requires NoneLive(channels, bot, c) && row.attempt.Some?
    requires forall ch', q: nat, m' :: Live(Posted(channels, row.attempt.value.1, m), bot, c, q, ch', m') <==>
      Live(channels, bot, c, q, ch', m')
      || (ch' == row.attempt.value.1 && m' == m && Matches(m, bot, Marker(c, q)))
    requires forall q: nat :: Matches(m, bot, Marker(c, q)) <==> q == row.attempt.value.0
    ensures var (p, ch) := row.attempt.value;
      Tracked(Posted(channels, ch, m), bot, c, row)
      && Tracked(Posted(channels, ch, m), bot, c, FinishedRow(row, p, ch, Some(m.id)))
  {
    hide Matches, Marker, Live, Posted;
  }

  lemma SentSound(channels: Channels, bot: string, counts: nat -> nat, nextId: nat, c: nat, row: Row, m: Message)
    requires RowSound(channels, bot, counts, nextId, c, row) && row.attempt.Some? && m.id == nextId
    requires forall x | x in History(Posted(channels, row.attempt.value.1, m), row.attempt.value.1) && x.id == nextId :: x == m
    requires Matches(m, bot, Marker(c, row.attempt.value.0))
    ensures var (p, ch) := row.attempt.value;
      var after := Posted(channels, ch, m);
      RowSound(after, bot, counts, nextId + 1, c, row)
      && RowSound(after, bot, counts, nextId + 1, c, FinishedRow(row, p, ch, Some(nextId)))
  {
    hide Matches, Marker, Posted, History;
  }

  lemma GrewByOne(channels: Channels, ch: string, id: nat, m: Message)
    ensures Grew(channels, Removed(channels, ch, id), 0) && Grew(channels, Posted(channels, ch, m), 1)
    ensures Grew(channels, channels, 0)
  {
    WithoutShrinks(History(channels, ch), id);
    hide Without;
  }

  lemma {:induction false} WithoutShrinks(history: seq<Message>, id: nat)
    ensures |Without(history, id)| <= |history|
  {
    if history != [] {
      WithoutShrinks(history[1..], id);
    }
  }

  lemma OrderedAt(channels: Channels, nextId: nat, ch: string)
    requires Ordered(channels, nextId)
    ensures Descending(History(channels, ch))
  {
  }

  lemma NothingMoved(channels: Channels, bot: string, nextId: nat, contest: nat)
    ensures OnlyAffects(channels, channels, bot, nextId, contest)
  {
    hide Live;
  }

  /** Whatever the row records is standing where it says. */
  ghost predicate RecordLive(channels: Channels, bot: string, c: nat, row: Row)
  {
    row.message.Some? ==>
      && row.channel.Some? && row.delivered.Some?
      && exists m :: Live(channels, bot, c, row.delivered.value, row.channel.value, m) && m.id == row.message.value
  }

  // ---------------------------------------------------------------- one delivery

  /** An open attempt is resolved from the channel history before anything else happens. */
  method ResolveAttempt(w: World, contest: nat, ask: Fault, record: Fault) returns (r: Result<(), Failure>)
    requires w.Inv() && contest in w.rows
    modifies w`rows
    ensures w.Inv() && SameRows(old(w.rows), w.rows, contest)
    ensures r.Ok? ==> w.rows[contest].attempt.None?
    ensures old(w.rows[contest].attempt).None? ==> r.Ok? && w.rows == old(w.rows)
    ensures r.Ok? && old(w.rows[contest].attempt).Some? ==> RecordLive(w.channels, w.bot, contest, w.rows[contest])
    ensures ask == Fine && record == Fine ==> (r.Err? <==> Buried(w.channels, w.bot, contest, old(w.rows)[contest]))
  {
    hide Tracked, RowSound, SingleMarkers, OnlyAffects, Ordered, Marker, Live, NoneLive, Descending, Matches;
    var row := w.rows[contest];
    if row.attempt.None? {
      return Ok(());
    }
    assert ContestInv(w.channels, w.bot, w.counts, w.nextId, w.rows, contest);
    var (p, ch) := row.attempt.value;
    if ask != Fine {
      return Err(CallFailed);
    }
    OrderedAt(w.channels, w.nextId, ch);
    var found := RecoverMessage(History(w.channels, ch), w.bot, Marker(contest, p));
    assert found.Err? <==> Buried(w.channels, w.bot, contest, row);
    if found.Err? {
      return Err(found.error);
    }
    RecoverStep(w.channels, w.bot, w.counts, w.nextId, contest, row, found.value);
    var ok := w.Recover(contest, found.value, ch, record);
    NothingMoved(w.channels, w.bot, w.nextId, contest);
    OthersKept(w.channels, w.channels, w.bot, w.counts, w.nextId, w.nextId, old(w.rows), w.rows, contest);
    r := if ok then Ok(()) else Err(CallFailed);
  }

  /** The recorded message goes first, then the record of it. */
  method RemoveOld(w: World, contest: nat, delete: Fault, clear: Fault) returns (r: Result<(), Failure>)
    requires w.Inv() && contest in w.rows && w.rows[contest].attempt.None?
    modifies w`rows, w`channels
    ensures w.Inv() && SameRows(old(w.rows), w.rows, contest)
    ensures OnlyAffects(old(w.channels), w.channels, w.bot, w.nextId, contest)
    ensures Grew(old(w.channels), w.channels, 0)
    ensures r.Ok? ==> w.rows[contest].attempt.None? && w.rows[contest].message.None? && NoneLive(w.channels, w.bot, contest)
    ensures delete == Fine && clear == Fine ==> r.Ok?
    ensures old(w.rows[contest].message).Some? && delete == Unanswered ==>
      r.Err? && w.rows == old(w.rows)
      && w.channels == Removed(old(w.channels), old(w.rows[contest].channel).GetOr(""), old(w.rows[contest].message).value)
    ensures r.Err? ==> r.error == CallFailed
  {
    hide Tracked, RowSound, SingleMarkers, OnlyAffects, Ordered, Marker, Live, NoneLive, Matches, Removed, Grew, Posted;
    assert ContestInv(w.channels, w.bot, w.counts, w.nextId, w.rows, contest);
    var row := w.rows[contest];
    NothingMoved(w.channels, w.bot, w.nextId, contest);
    GrewByOne(w.channels, row.channel.GetOr(""), row.message.GetOr(0), Message(0, "", []));
    if row.message.None? {
      UnrecordedNoneLive(w.channels, w.bot, contest, row);
      return Ok(());
    }
    RecordedOwn(w.channels, w.bot, w.counts, w.nextId, contest, row);
    RemovedOwn(w.channels, w.bot, w.nextId, contest, row.delivered.value, row.channel.value, row.message.value);
    DeleteStep(w.channels, w.bot, w.counts, w.nextId, contest, row);
    // A missing message answers 404, which counts as deleted.
    var ok := w.Delete(row.channel.value, row.message.value, delete);
    OthersKept(old(w.channels), w.channels, w.bot, w.counts, w.nextId, w.nextId, old(w.rows), w.rows, contest);
    if !ok {
      return Err(CallFailed);
    }
    ok := w.Clear(contest, clear);
    QuietRow(w.channels, w.bot, w.counts, w.nextId, contest, w.rows[contest]);
    OthersKept(old(w.channels), w.channels, w.bot, w.counts, w.nextId, w.nextId, old(w.rows), w.rows, contest);
    r := if ok then Ok(()) else Err(CallFailed);
  }

  lemma UnrecordedNoneLive(channels: Channels, bot: string, c: nat, row: Row)
    requires Tracked(channels, bot, c, row) && row.attempt.None? && row.message.None?
    ensures NoneLive(channels, bot, c)
  {
    hide Live;
  }

  lemma RecordedOwn(channels: Channels, bot: string, counts: nat -> nat, nextId: nat, c: nat, row: Row)
    requires RowSound(channels, bot, counts, nextId, c, row) && row.message.Some?
    ensures row.channel.Some? && row.delivered.Some?
    ensures forall m | m in History(channels, row.channel.value) && m.id == row.message.value ::
              Matches(m, bot, Marker(c, row.delivered.value))
  {
    hide Matches, Marker;
  }

  /** With nothing standing, any row that records nothing is in order. */
  lemma QuietRow(channels: Channels, bot: string, counts: nat -> nat, nextId: nat, c: nat, row: Row)
    ensures NoneLive(channels, bot, c) && row.message.None? && ClaimsNothing(counts, row) ==>
              Tracked(channels, bot, c, row) && RowSound(channels, bot, counts, nextId, c, row)
  {
    hide Live;
  }

  /** What a row without a message may say. */
  ghost predicate ClaimsNothing(counts: nat -> nat, row: Row)
  {
    match row.attempt
    case Some((p, ch)) => counts(p) > 0
    case None => row.delivered.Some? ==> counts(row.delivered.value) == 0
  }

  lemma SoundClaims(channels: Channels, bot: string, counts: nat -> nat, nextId: nat, c: nat, row: Row)
    requires RowSound(channels, bot, counts, nextId, c, row)
    ensures row.message.None? ==> ClaimsNothing(counts, row)
  {
  }

  /** The attempt is on record before the message exists, and stays until the message is recorded. */
  method PostNew(w: World, contest: nat, channel: string, name: string, begin: Fault, send: Fault, finish: Fault)
      returns (r: Result<(), Failure>)
    requires w.Inv() && contest in w.rows && w.rows[contest].attempt.None? && w.rows[contest].message.None?
    requires NoneLive(w.channels, w.bot, contest) && w.counts(w.rows[contest].desired) > 0
    modifies w`channels, w`rows, w`nextId
    ensures w.Inv() && SameRows(old(w.rows), w.rows, contest) && w.nextId >= old(w.nextId)
    ensures OnlyAffects(old(w.channels), w.channels, w.bot, old(w.nextId), contest)
    ensures Grew(old(w.channels), w.channels, 1)
    ensures r.Ok? ==> Shown(w.channels, w.bot, w.counts, contest, w.rows[contest], channel)
    ensures begin == Fine && send == Fine && finish == Fine ==> r.Ok?
    ensures r.Err? ==> r.error == CallFailed
  {
    hide Tracked, RowSound, SingleMarkers, OnlyAffects, Ordered, Marker, Live, NoneLive, Matches, Posted, Removed, Texts;
    var playlist := w.rows[contest].desired;
    GrewByOne(w.channels, channel, 0, Message(w.nextId, w.bot, Texts(contest, playlist, name)));
    NothingMoved(w.channels, w.bot, w.nextId, contest);
    assert ContestInv(w.channels, w.bot, w.counts, w.nextId, w.rows, contest);
    SoundClaims(w.channels, w.bot, w.counts, w.nextId, contest, w.rows[contest]);
    var ok := w.Begin(contest, playlist, channel, begin);
    QuietRow(w.channels, w.bot, w.counts, w.nextId, contest, w.rows[contest]);
    OthersKept(old(w.channels), w.channels, w.bot, w.counts, w.nextId, w.nextId, old(w.rows), w.rows, contest);
    if !ok {
      return Err(CallFailed);
    }
    SendStep(w.channels, w.bot, w.counts, w.nextId, contest, w.rows[contest], name);
    PostedOwn(w.channels, w.bot, w.nextId, contest, playlist, name, channel);
    var sent := w.Send(channel, Texts(contest, playlist, name), send);
    OthersKept(old(w.channels), w.channels, w.bot, w.counts, old(w.nextId), w.nextId, old(w.rows), w.rows, contest);
    if sent.None? {
      return Err(CallFailed);
    }
    ok := w.Finish(contest, playlist, channel, Some(sent.value), finish);
    OthersKept(old(w.channels), w.channels, w.bot, w.counts, old(w.nextId), w.nextId, old(w.rows), w.rows, contest);
    r := if ok then Ok(()) else Err(CallFailed);
  }

  /**
   One delivery.  Wherever it is cut, at most one message stands and the row leads to it.  When it
   returns `Ok`, the desired playlist of a pending row is shown; for any row, exactly unless the
   record was stale at the start.  `faults` decides the fate of each call, `levels` is the
   preflighted artifact's level count.
   */
  method Deliver(w: World, contest: nat, channel: string, name: string, levels: Option<nat>, faults: nat -> Fault)
      returns (r: Result<(), Failure>)
    requires w.Inv() && contest in w.rows
    modifies w`channels, w`rows, w`nextId
    ensures w.Inv() && SameRows(old(w.rows), w.rows, contest) && w.nextId >= old(w.nextId)
    ensures OnlyAffects(old(w.channels), w.channels, w.bot, old(w.nextId), contest) && Grew(old(w.channels), w.channels, 1)
    ensures r.Ok? && Pending(old(w.rows)[contest], channel) ==>
              Shown(w.channels, w.bot, w.counts, contest, w.rows[contest], channel)
    ensures r.Ok? ==>
      (Shown(w.channels, w.bot, w.counts, contest, w.rows[contest], channel) <==>
       !Stale(old(w.channels), w.counts, old(w.rows)[contest], channel))
    ensures BadArtifact(w.counts, old(w.rows)[contest], levels) ==> r.Err?
    ensures (forall k :: faults(k) == Fine) ==>
      (r.Err? <==> BadArtifact(w.counts, old(w.rows)[contest], levels)
                   || Buried(old(w.channels), w.bot, contest, old(w.rows)[contest]))
    ensures var row := old(w.rows)[contest];
      (row.attempt.None? && row.message.Some? && row.delivered != Some(row.desired)
       && !BadArtifact(w.counts, row, levels) && faults(2) == Unanswered) ==>
        r.Err? && w.rows == old(w.rows)
        && w.channels == Removed(old(w.channels), row.channel.GetOr(""), row.message.value)
  {
    hide Tracked, RowSound, SingleMarkers, OnlyAffects, Ordered, Marker, Live, NoneLive, Matches, Shown, RecordLive, Grew,
      Buried, Stale, History;
    NothingMoved(w.channels, w.bot, w.nextId, contest);
    NoGrowth(w.channels);
    PendingIsFresh(w.channels, w.counts, w.rows[contest], channel);
    var playlist := w.rows[contest].desired;
    var count := w.counts(playlist);
    if count > 0 && levels.None? {
      return Err(MissingArtifact);
    }
    if count > 0 && levels.value != count {
      return Err(CountMismatch);
    }
    NotBuried(w.channels, w.bot, contest, w.rows[contest]);
    r := ResolveAttempt(w, contest, faults(0), faults(1));
    if r.Err? {
      return;
    }
    var row := w.rows[contest];
    assert ContestInv(w.channels, w.bot, w.counts, w.nextId, w.rows, contest);
    EarlyReturn(w.channels, w.bot, w.counts, w.nextId, contest, old(w.rows)[contest], row, channel);
    if row.delivered == Some(playlist) && row.channel == Some(channel) && (count == 0 || row.message.Some?) {
      return Ok(());
    }
    r := RemoveOld(w, contest, faults(2), faults(3));
    ghost var channels := w.channels;
    GrewTwice(old(w.channels), channels, channels, 0, 1);
    if r.Err? {
      return;
    }
    if count == 0 {
      ghost var rows := w.rows;
      var ok := w.Finish(contest, playlist, channel, None, faults(4));
      assert ContestInv(channels, w.bot, w.counts, w.nextId, rows, contest);
      SoundClaims(channels, w.bot, w.counts, w.nextId, contest, rows[contest]);
      QuietRow(w.channels, w.bot, w.counts, w.nextId, contest, w.rows[contest]);
      NothingMoved(w.channels, w.bot, w.nextId, contest);
      OthersKept(w.channels, w.channels, w.bot, w.counts, w.nextId, w.nextId, rows, w.rows, contest);
      NothingShown(w.channels, w.bot, w.counts, contest, w.rows[contest], channel);
      return if ok then Ok(()) else Err(CallFailed);
    }
    r := PostNew(w, contest, channel, name, faults(5), faults(6), faults(7));
    AffectsTwice(old(w.channels), channels, w.channels, w.bot, old(w.nextId), contest);
    GrewTwice(old(w.channels), channels, w.channels, 0, 1);
  }

  lemma NoGrowth(channels: Channels)
    ensures Grew(channels, channels, 0) && Grew(channels, channels, 1)
  {
  }

  lemma GrewTwice(a: Channels, b: Channels, c: Channels, m: nat, n: nat)
    requires Grew(a, b, m)
    ensures Grew(b, c, n) ==> Grew(a, c, m + n)
    ensures Grew(a, b, m + n)
  {
  }

  lemma NotBuried(channels: Channels, bot: string, c: nat, row: Row)
    ensures row.attempt.None? ==> !Buried(channels, bot, c, row)
  {
  }

  /** A stale record is never selected again, so nothing repairs it until the desired playlist changes. */
  lemma PendingIsFresh(channels: Channels, counts: nat -> nat, row: Row, channel: string)
    ensures Pending(row, channel) ==> !Stale(channels, counts, row, channel)
  {
  }

  lemma NothingShown(channels: Channels, bot: string, counts: nat -> nat, c: nat, row: Row, channel: string)
    ensures (row.attempt.None? && row.delivered == Some(row.desired) && row.channel == Some(channel)
             && counts(row.desired) == 0 && NoneLive(channels, bot, c)) ==> Shown(channels, bot, counts, c, row, channel)
  {
    hide NoneLive;
  }

  lemma AffectsTwice(a: Channels, b: Channels, c: Channels, bot: string, nextId: nat, contest: nat)
    requires OnlyAffects(a, b, bot, nextId, contest) && OnlyAffects(b, c, bot, nextId, contest)
    ensures OnlyAffects(a, c, bot, nextId, contest)
  {
    hide Live;
  }

  /** When the row claims the desired playlist, that is the truth unless the recorded message is gone. */
  lemma EarlyReturn(channels: Channels, bot: string, counts: nat -> nat, nextId: nat, c: nat,
                    start: Row, row: Row, channel: string)
    requires Tracked(channels, bot, c, row) && RowSound(channels, bot, counts, nextId, c, row) && row.attempt.None?
    requires row.desired == start.desired
    requires start.attempt.None? ==> row == start
    requires start.attempt.Some? ==> RecordLive(channels, bot, c, row)
    ensures var claims := row.delivered == Some(row.desired) && row.channel == Some(channel)
                          && (counts(row.desired) == 0 || row.message.Some?);
      && (claims ==> (Shown(channels, bot, counts, c, row, channel) <==> !Stale(channels, counts, start, channel)))
      && (!claims ==> !Stale(channels, counts, start, channel))
  {
    hide Matches, Marker, History;
    if counts(row.desired) == 0 && row.delivered == Some(row.desired) {
      UnrecordedNoneLive(channels, bot, c, row);
    } else if row.message.Some? && row.delivered == Some(row.desired) && row.channel == Some(channel) {
      forall m | m in History(channels, channel) && m.id == row.message.value
        ensures Live(channels, bot, c, row.desired, channel, m)
      {
      }
    }
  }

  // ---------------------------------------------------------------- one pass

  /** `sync_playlist_notifications`: for each contest with a current playlist a new row, or a new wish in the old one. */
  ghost function SyncedRows(rows: Rows, contests: set<nat>, current: map<nat, nat>): Rows
  {
    map c | c in rows.Keys + (contests * current.Keys) ::
      if c !in contests || c !in current then rows[c]
      else if c in rows then rows[c].(desired := current[c])
      else Row(current[c], None, None, None, None)
  }

  /** A new wish makes a row due at once. */
  ghost function StillWaiting(rows: Rows, waiting: set<nat>, contests: set<nat>, current: map<nat, nat>): set<nat>
  {
    set c | c in waiting && c in rows && (c in contests && c in current ==> rows[c].desired == current[c])
  }

  /** `pending_playlist_notifications`. */
  ghost function Selected(rows: Rows, waiting: set<nat>, contests: set<nat>, channel: string): set<nat>
  {
    set c | c in contests && c in rows && c !in waiting && Pending(rows[c], channel)
  }

  lemma SyncKeeps(channels: Channels, bot: string, counts: nat -> nat, nextId: nat, rows: Rows,
                  contests: set<nat>, current: map<nat, nat>)
    requires forall c: nat :: ContestInv(channels, bot, counts, nextId, rows, c)
    ensures forall c: nat :: ContestInv(channels, bot, counts, nextId, SyncedRows(rows, contests, current), c)
  {
    hide Live, Matches, Marker;
    forall c: nat ensures ContestInv(channels, bot, counts, nextId, SyncedRows(rows, contests, current), c) {
      assert ContestInv(channels, bot, counts, nextId, rows, c);
    }
  }

  method Synchronize(w: World, contests: set<nat>, current: map<nat, nat>)
    requires w.Inv()
    modifies w`rows, w`waiting
    ensures w.Inv() && forall c: nat :: ContestInv(w.channels, w.bot, w.counts, w.nextId, w.rows, c)
    ensures w.rows == SyncedRows(old(w.rows), contests, current)
    ensures w.waiting == StillWaiting(old(w.rows), old(w.waiting), contests, current)
  {
    hide Tracked, RowSound, SingleMarkers, Ordered, ContestInv;
    SyncKeeps(w.channels, w.bot, w.counts, w.nextId, w.rows, contests, current);
    var rows, wished := w.rows, contests * current.Keys;
    var due := set c | c in wished && (c !in rows || rows[c].desired != current[c]);
    var upserted := map c | c in wished ::
      if c in rows then rows[c].(desired := current[c]) else Row(current[c], None, None, None, None);
    w.rows, w.waiting := rows + upserted, w.waiting * rows.Keys - due;
    assert w.rows == SyncedRows(rows, contests, current);
  }

  /** A row that is not selected shows what it claims, unless its record is stale. */
  lemma UnselectedTruth(channels: Channels, bot: string, counts: nat -> nat, nextId: nat, c: nat, row: Row,
                        channel: string)
    requires Tracked(channels, bot, c, row) && RowSound(channels, bot, counts, nextId, c, row) && !Pending(row, channel)
    ensures Shown(channels, bot, counts, c, row, channel) <==> !Stale(channels, counts, row, channel)
  {
    assert counts(row.desired) == 0 || row.message.Some?;
    hide Tracked, RowSound, Shown, Stale;
    EarlyReturn(channels, bot, counts, nextId, c, row, row, channel);
  }

  /** Nothing about contest `c` moved. */
  ghost predicate Untouched(channels: Channels, channels': Channels, bot: string, rows: Rows, rows': Rows, c: nat)
  {
    && c in rows && c in rows' && rows'[c] == rows[c]
    && forall p: nat, ch, m :: Live(channels', bot, c, p, ch, m) <==> Live(channels, bot, c, p, ch, m)
  }

  lemma OthersUntouched(channels: Channels, channels': Channels, bot: string, nextId: nat, rows: Rows, rows': Rows,
                        contest: nat, c: nat)
    requires OnlyAffects(channels, channels', bot, nextId, contest) && SameRows(rows, rows', contest)
    requires c in rows && c != contest
    ensures Untouched(channels, channels', bot, rows, rows', c)
  {
    hide Live;
  }

  lemma UntouchedTwice(a: Channels, b: Channels, d: Channels, bot: string, r: Rows, r': Rows, r'': Rows, c: nat)
    requires Untouched(a, b, bot, r, r', c) && Untouched(b, d, bot, r', r'', c)
    ensures Untouched(a, d, bot, r, r'', c)
  {
    hide Live;
  }

  lemma StillShown(channels: Channels, channels': Channels, bot: string, counts: nat -> nat, rows: Rows, rows': Rows,
                   c: nat, channel: string)
    requires Untouched(channels, channels', bot, rows, rows', c)
    ensures Shown(channels', bot, counts, c, rows'[c], channel) <==> Shown(channels, bot, counts, c, rows[c], channel)
  {
    hide Live;
  }

  /** One row of the pass: a failed delivery is put off, and only a failure to put it off ends the pass. */
  method DeliverOrDefer(w: World, contest: nat, channel: string, name: string, levels: Option<nat>, faults: nat -> Fault)
      returns (r: Result<(), Failure>)
    requires w.Inv() && contest in w.rows && contest !in w.waiting && Pending(w.rows[contest], channel)
    modifies w
    ensures w.Inv() && SameRows(old(w.rows), w.rows, contest) && w.nextId >= old(w.nextId)
    ensures OnlyAffects(old(w.channels), w.channels, w.bot, old(w.nextId), contest) && Grew(old(w.channels), w.channels, 1)
    ensures old(w.waiting) <= w.waiting <= old(w.waiting) + {contest}
    ensures r.Ok? ==> contest in w.waiting || Shown(w.channels, w.bot, w.counts, contest, w.rows[contest], channel)
    ensures r.Ok? && BadArtifact(w.counts, old(w.rows)[contest], levels) ==> contest in w.waiting
    ensures (forall k :: faults(k) == Fine) ==>
      r.Ok? && (contest in w.waiting <==> BadArtifact(w.counts, old(w.rows)[contest], levels)
                                          || Buried(old(w.channels), w.bot, contest, old(w.rows)[contest]))
  {
    hide Tracked, RowSound, SingleMarkers, OnlyAffects, SameRows, Ordered, ContestInv, Shown, Grew, Buried, Stale,
      BadArtifact, Pending;
    r := Deliver(w, contest, channel, name, levels, faults);
    if r.Err? {
      var retry := faults(8);
      if retry != Lost {
        w.waiting := w.waiting + {contest};
      }
      r := if retry == Fine then Ok(()) else Err(CallFailed);
    }
  }

  /** A row the pass was to deliver is put off or shows its playlist; a bad artifact is always put off. */
  ghost predicate Handled(channels: Channels, bot: string, counts: nat -> nat, waiting: set<nat>, c: nat, row: Row,
                          channel: string, levels: Option<nat>)
  {
    && (c in waiting || Shown(channels, bot, counts, c, row, channel))
    && (BadArtifact(counts, row, levels) ==> c in waiting)
  }

  /** Why a row may be put off although every call was answered. */
  ghost predicate Excused(channels: Channels, counts: nat -> nat, row: Row, levels: Option<nat>, n: nat)
  {
    || BadArtifact(counts, row, levels)
    || (row.attempt.Some? && |History(channels, row.attempt.value.1)| + n > PAGE * PAGES)
  }

  ghost predicate AllHandled(channels: Channels, rows: Rows, waiting: set<nat>, bot: string, counts: nat -> nat,
                             handled: set<nat>, channel: string, levels: nat -> Option<nat>)
  {
    forall c | c in handled :: c in rows && Handled(channels, bot, counts, waiting, c, rows[c], channel, levels(c))
  }

  ghost predicate OthersLeft(channels: Channels, rows: Rows, channels': Channels, rows': Rows, bot: string,
                             handled: set<nat>)
  {
    && rows'.Keys == rows.Keys && (forall c | c in rows :: rows'[c].desired == rows[c].desired)
    && (forall c | c in rows && c !in handled :: Untouched(channels, channels', bot, rows, rows', c))
    && Grew(channels, channels', |handled|)
  }

  /** What a pass has done once the rows of `handled` are through, starting from `channels`, `rows` and `waiting`. */
  ghost predicate Progress(channels: Channels, rows: Rows, waiting: set<nat>,
                           channels': Channels, rows': Rows, waiting': set<nat>,
                           bot: string, counts: nat -> nat, handled: set<nat>, channel: string,
                           levels: nat -> Option<nat>)
  {
    && OthersLeft(channels, rows, channels', rows', bot, handled)
    && AllHandled(channels', rows', waiting', bot, counts, handled, channel, levels)
    && waiting <= waiting' <= waiting + handled
  }

  lemma NoProgress(channels: Channels, rows: Rows, waiting: set<nat>, bot: string, counts: nat -> nat,
                   channel: string, levels: nat -> Option<nat>, n: nat)
    ensures Progress(channels, rows, waiting, channels, rows, waiting, bot, counts, {}, channel, levels)
    ensures AllExcused(channels, counts, rows, {} * waiting, levels, n)
  {
    NoGrowth(channels);
    forall c | c in rows ensures Untouched(channels, channels, bot, rows, rows, c) { AllUntouched(channels, bot, rows, c); }
    hide Untouched, Handled, Grew;
  }

  lemma MoreLeft(channels: Channels, rows: Rows, before: Channels, rows': Rows,
                 after: Channels, rows'': Rows, bot: string, nextId: nat, handled: set<nat>, c: nat)
    requires OthersLeft(channels, rows, before, rows', bot, handled) && c !in handled
    requires OnlyAffects(before, after, bot, nextId, c) && SameRows(rows', rows'', c) && Grew(before, after, 1)
    ensures OthersLeft(channels, rows, after, rows'', bot, handled + {c})
  {
    hide OnlyAffects, SameRows, Grew, Untouched;
    OthersStay(channels, before, after, bot, nextId, rows, rows', rows'', c);
    GrewTwice(channels, before, after, |handled|, 1);
  }

  lemma MoreHandled(before: Channels, rows: Rows, waiting: set<nat>, after: Channels, rows': Rows, waiting': set<nat>,
                    bot: string, counts: nat -> nat, nextId: nat, handled: set<nat>, c: nat, start: Row,
                    channel: string, levels: nat -> Option<nat>)
    requires AllHandled(before, rows, waiting, bot, counts, handled, channel, levels) && c !in handled
    requires OnlyAffects(before, after, bot, nextId, c) && SameRows(rows, rows', c) && waiting <= waiting'
    requires rows[c] == start && (c in waiting' || Shown(after, bot, counts, c, rows'[c], channel))
    requires BadArtifact(counts, start, levels(c)) ==> c in waiting'
    ensures AllHandled(after, rows', waiting', bot, counts, handled + {c}, channel, levels)
  {
    assert c in rows' && rows'[c].desired == start.desired;
    hide OnlyAffects, SameRows, Shown, BadArtifact, Handled;
    OthersHandled(before, after, bot, counts, nextId, waiting, waiting', rows, rows', c, channel, levels);
    HandledNow(after, bot, counts, waiting', c, start, rows'[c], channel, levels(c));
  }

  /** Delivers the selected rows one by one, in whatever order. */
  method DeliverAll(w: World, selected: set<nat>, channel: string, names: nat -> string, levels: nat -> Option<nat>,
                    faults: (nat, nat) -> Fault) returns (r: Result<(), Failure>)
    requires w.Inv() && forall c | c in selected :: c in w.rows && c !in w.waiting && Pending(w.rows[c], channel)
    modifies w
    ensures w.Inv()
    ensures r.Ok? ==> Progress(old(w.channels), old(w.rows), old(w.waiting), w.channels, w.rows, w.waiting, w.bot, w.counts,
                               selected, channel, levels)
    ensures (forall c, k :: faults(c, k) == Fine) ==>
      r.Ok? && AllExcused(old(w.channels), w.counts, old(w.rows), selected * w.waiting, levels, |selected|)
  {
    hide *;
    ghost var channels, rows := w.channels, w.rows;
    NoProgress(channels, rows, w.waiting, w.bot, w.counts, channel, levels, |selected|);
    var handled: set<nat> := {};
    ghost var fine := forall c, k :: faults(c, k) == Fine;
    while selected - handled != {}
      invariant w.Inv() && handled <= selected
      invariant Progress(channels, rows, old(w.waiting), w.channels, w.rows, w.waiting, w.bot, w.counts,
                         handled, channel, levels)
      invariant fine ==> AllExcused(channels, w.counts, rows, handled * w.waiting, levels, |selected|)
      decreases selected - handled
    {
      var c := FiniteSets.Any(selected - handled);
      ghost var before, latest, rows', waiting := w.channels, w.nextId, w.rows, w.waiting;
      NextRow(channels, rows, old(w.waiting), before, rows', waiting, w.bot, w.counts, handled, c, channel, levels);
      r := DeliverOrDefer(w, c, channel, names(c), levels(c), (k: nat) => faults(c, k));
      if r.Err? {
        return;
      }
      MoreLeft(channels, rows, before, rows', w.channels, w.rows, w.bot, latest, handled, c);
      MoreHandled(before, rows', waiting, w.channels, w.rows, w.waiting, w.bot, w.counts, latest, handled, c, rows[c],
                  channel, levels);
      Assembled(channels, rows, old(w.waiting), w.channels, w.rows, waiting, w.waiting, w.bot, w.counts, handled, c,
                channel, levels);
      if fine {
        MoreExcused(channels, before, w.bot, w.counts, rows, waiting, w.waiting, handled, selected, c, levels);
      }
      handled := handled + {c};
    }
    assert forall c | c in selected :: c in handled || c in selected - handled;
    assert handled == selected;
    r := Ok(());
  }

  /** The row a pass turns to is still as it was selected. */
  lemma NextRow(channels: Channels, rows: Rows, waiting: set<nat>,
                channels': Channels, rows': Rows, waiting': set<nat>,
                bot: string, counts: nat -> nat, handled: set<nat>, c: nat, channel: string, levels: nat -> Option<nat>)
    requires Progress(channels, rows, waiting, channels', rows', waiting', bot, counts, handled, channel, levels)
    requires c in rows && c !in handled && c !in waiting
    ensures c in rows' && rows'[c] == rows[c] && c !in waiting' && Grew(channels, channels', |handled|)
    ensures OthersLeft(channels, rows, channels', rows', bot, handled) && waiting <= waiting' <= waiting + handled
    ensures AllHandled(channels', rows', waiting', bot, counts, handled, channel, levels)
  {
    hide Handled, Grew;
    RowUntouched(channels, channels', bot, rows, rows', c);
  }

  lemma Assembled(channels: Channels, rows: Rows, waiting: set<nat>, after: Channels, rows': Rows,
                  waiting': set<nat>, waiting'': set<nat>, bot: string, counts: nat -> nat, handled: set<nat>, c: nat,
                  channel: string, levels: nat -> Option<nat>)
    requires OthersLeft(channels, rows, after, rows', bot, handled + {c})
    requires AllHandled(after, rows', waiting'', bot, counts, handled + {c}, channel, levels)
    requires waiting <= waiting' <= waiting + handled && waiting' <= waiting'' <= waiting' + {c}
    ensures Progress(channels, rows, waiting, after, rows', waiting'', bot, counts, handled + {c}, channel, levels)
  {
    hide OthersLeft, AllHandled;
  }

  lemma HandledNow(channels: Channels, bot: string, counts: nat -> nat, waiting: set<nat>, c: nat, start: Row, row: Row,
                   channel: string, levels: Option<nat>)
    requires row.desired == start.desired
    requires c in waiting || Shown(channels, bot, counts, c, row, channel)
    requires BadArtifact(counts, start, levels) ==> c in waiting
    ensures Handled(channels, bot, counts, waiting, c, row, channel, levels)
  {
    hide Shown;
  }

  lemma StillHandled(channels: Channels, channels': Channels, bot: string, counts: nat -> nat, waiting: set<nat>,
                     waiting': set<nat>,
                     c: nat, row: Row, row': Row, channel: string, levels: Option<nat>)
    requires Handled(channels, bot, counts, waiting, c, row, channel, levels)
    requires waiting <= waiting' && row'.desired == row.desired
    requires Shown(channels, bot, counts, c, row, channel) ==> Shown(channels', bot, counts, c, row', channel)
    ensures Handled(channels', bot, counts, waiting', c, row', channel, levels)
  {
    hide Shown;
  }

  ghost predicate AllExcused(channels: Channels, counts: nat -> nat, rows: Rows, deferred: set<nat>,
                             levels: nat -> Option<nat>, n: nat)
  {
    forall c | c in deferred :: c in rows && Excused(channels, counts, rows[c], levels(c), n)
  }

  lemma MoreExcused(channels: Channels, before: Channels, bot: string, counts: nat -> nat, rows: Rows,
                    waiting: set<nat>, waiting': set<nat>, handled: set<nat>, selected: set<nat>, c: nat,
                    levels: nat -> Option<nat>)
    requires handled < selected && c in selected && c !in handled && c in rows && waiting' <= waiting + {c}
    requires Grew(channels, before, |handled|)
    requires AllExcused(channels, counts, rows, handled * waiting, levels, |selected|)
    requires c in waiting' ==> BadArtifact(counts, rows[c], levels(c)) || Buried(before, bot, c, rows[c])
    ensures AllExcused(channels, counts, rows, (handled + {c}) * waiting', levels, |selected|)
  {
    FiniteSets.ProperSubsetSize(handled, selected);
    BuriedIsLong(channels, before, bot, |handled|, c, rows[c]);
    hide Buried, Grew, History, BadArtifact;
  }

  lemma SelectedMeans(rows: Rows, waiting: set<nat>, contests: set<nat>, channel: string, selected: set<nat>)
    requires forall c :: c in selected <==>
      && c in contests && c in rows && c !in waiting
      && (rows[c].delivered != Some(rows[c].desired) || rows[c].channel != Some(channel) || rows[c].attempt.Some?)
    ensures selected == Selected(rows, waiting, contests, channel)
  {
  }

  /**
   One pass over the contests of the given rounds.  It keeps every contest's bookkeeping wherever it
   is cut.  When it ends with `Ok`, it has delivered or put off exactly the rows that were due, left
   all others alone, and every row that is not waiting shows its playlist unless it was stale after
   the sync.  Without faults it puts off only bad artifacts and attempts that may be buried.
   */
  method Pass(w: World, contests: set<nat>, current: map<nat, nat>, channel: string, names: nat -> string,
              levels: nat -> Option<nat>, sync: Fault, select: Fault, faults: (nat, nat) -> Fault)
      returns (r: Result<(), Failure>, selected: set<nat>)
    requires w.Inv()
    modifies w
    ensures w.Inv()
    ensures r.Ok? ==>
      var rows := SyncedRows(old(w.rows), contests, current);
      var waiting := StillWaiting(old(w.rows), old(w.waiting), contests, current);
      && selected == Selected(rows, waiting, contests, channel)
      && w.rows.Keys == rows.Keys && (forall c | c in rows :: w.rows[c].desired == rows[c].desired)
      && (forall c | c in rows && c !in selected :: Untouched(old(w.channels), w.channels, w.bot, rows, w.rows, c))
      && waiting <= w.waiting <= waiting + selected
      && (forall c | c in selected && BadArtifact(w.counts, rows[c], levels(c)) :: c in w.waiting)
      && forall c | c in contests && c in rows && c !in w.waiting ::
           Shown(w.channels, w.bot, w.counts, c, w.rows[c], channel) <==> !Stale(old(w.channels), w.counts, rows[c], channel)
    ensures sync == Fine && select == Fine && (forall c, k :: faults(c, k) == Fine) ==>
      var rows := SyncedRows(old(w.rows), contests, current);
      r.Ok? && AllExcused(old(w.channels), w.counts, rows, selected * w.waiting, levels, |selected|)
  {
    hide World.Inv, Shown, Stale, Pending, Untouched, SyncedRows, StillWaiting, History, Excused, ContestInv, Live;
    selected := {};
    if sync == Lost {
      return Err(CallFailed), {};
    }
    Synchronize(w, contests, current);
    if sync == Unanswered || select != Fine {
      return Err(CallFailed), {};
    }
    ghost var channels, rows, nextId := w.channels, w.rows, w.nextId;
    selected := set c | c in contests && c in w.rows && c !in w.waiting &&
      (w.rows[c].delivered != Some(w.rows[c].desired) || w.rows[c].channel != Some(channel) || w.rows[c].attempt.Some?);
    SelectedMeans(w.rows, w.waiting, contests, channel, selected);
    r := DeliverAll(w, selected, channel, names, levels, faults);
    if r.Ok? {
      UnselectedShown(channels, w.channels, w.bot, w.counts, nextId, rows, w.rows, selected, channel);
      forall c | c in selected && BadArtifact(w.counts, rows[c], levels(c)) ensures c in w.waiting {
        assert Handled(w.channels, w.bot, w.counts, w.waiting, c, w.rows[c], channel, levels(c));
      }
      forall c | c in selected && c !in w.waiting ensures Shown(w.channels, w.bot, w.counts, c, w.rows[c], channel) {
        assert Handled(w.channels, w.bot, w.counts, w.waiting, c, w.rows[c], channel, levels(c));
      }
    }
  }

  lemma RowUntouched(channels: Channels, channels': Channels, bot: string, rows: Rows, rows': Rows, c: nat)
    requires Untouched(channels, channels', bot, rows, rows', c)
    ensures c in rows && c in rows' && rows'[c] == rows[c]
  {
  }

  lemma BuriedIsLong(channels: Channels, channels': Channels, bot: string, n: nat, c: nat, row: Row)
    requires Grew(channels, channels', n)
    ensures Buried(channels', bot, c, row) ==>
              row.attempt.Some? && |History(channels, row.attempt.value.1)| + n >= PAGE * PAGES
  {
    hide History, Matches, Marker;
  }

  /** A delivery for one contest leaves every other one as it was. */
  lemma OthersStay(channels: Channels, before: Channels, after: Channels, bot: string, nextId: nat,
                   rows: Rows, rows': Rows, rows'': Rows, contest: nat)
    requires OnlyAffects(before, after, bot, nextId, contest) && SameRows(rows', rows'', contest)
    ensures rows''.Keys == rows'.Keys && contest in rows'
    ensures forall c | c in rows' :: rows''[c].desired == rows'[c].desired
    ensures forall c | c != contest && Untouched(channels, before, bot, rows, rows', c) ::
              Untouched(channels, after, bot, rows, rows'', c)
  {
    assert rows''.Keys == rows'.Keys && contest in rows';
    assert forall c | c in rows' :: rows''[c].desired == rows'[c].desired;
    hide OnlyAffects, SameRows, Untouched;
    forall c | c != contest && Untouched(channels, before, bot, rows, rows', c)
      ensures Untouched(channels, after, bot, rows, rows'', c)
    {
      RowUntouched(channels, before, bot, rows, rows', c);
      OthersUntouched(before, after, bot, nextId, rows', rows'', contest, c);
      UntouchedTwice(channels, before, after, bot, rows, rows', rows'', c);
    }
  }

  lemma OthersHandled(before: Channels, after: Channels, bot: string, counts: nat -> nat, nextId: nat, waiting: set<nat>,
                      waiting': set<nat>,
                      rows: Rows, rows': Rows, contest: nat, channel: string, levels: nat -> Option<nat>)
    requires OnlyAffects(before, after, bot, nextId, contest) && SameRows(rows, rows', contest) && waiting <= waiting'
    ensures forall c | c != contest && c in rows && Handled(before, bot, counts, waiting, c, rows[c], channel, levels(c)) ::
              c in rows' && Handled(after, bot, counts, waiting', c, rows'[c], channel, levels(c))
  {
    forall c | c != contest && c in rows && Handled(before, bot, counts, waiting, c, rows[c], channel, levels(c))
      ensures c in rows' && Handled(after, bot, counts, waiting', c, rows'[c], channel, levels(c))
    {
      assert c in rows' && rows'[c] == rows[c];
      hide OnlyAffects, SameRows, Untouched, Handled;
      OthersUntouched(before, after, bot, nextId, rows, rows', contest, c);
      StillShown(before, after, bot, counts, rows, rows', c, channel);
      StillHandled(before, after, bot, counts, waiting, waiting', c, rows[c], rows'[c], channel, levels(c));
    }
  }

  /** What the pass does not select is shown at its end exactly if it was not stale at its start. */
  lemma UnselectedShown(channels: Channels, channels': Channels, bot: string, counts: nat -> nat, nextId: nat, rows: Rows,
                        rows': Rows, selected: set<nat>, channel: string)
    requires forall c: nat :: ContestInv(channels, bot, counts, nextId, rows, c)
    requires forall c | c in rows && c !in selected :: Untouched(channels, channels', bot, rows, rows', c)
    ensures forall c | c in rows && c !in selected && !Pending(rows[c], channel) ::
              c in rows' &&
              (Shown(channels', bot, counts, c, rows'[c], channel) <==> !Stale(channels, counts, rows[c], channel))
    ensures forall c | c in rows && Pending(rows[c], channel) :: !Stale(channels, counts, rows[c], channel)
  {
    hide Tracked, RowSound, Shown, Stale, Untouched, Pending;
    forall c | c in rows && c !in selected && !Pending(rows[c], channel)
      ensures c in rows' &&
              (Shown(channels', bot, counts, c, rows'[c], channel) <==> !Stale(channels, counts, rows[c], channel))
    {
      assert ContestInv(channels, bot, counts, nextId, rows, c);
      UnselectedTruth(channels, bot, counts, nextId, c, rows[c], channel);
      RowUntouched(channels, channels', bot, rows, rows', c);
      StillShown(channels, channels', bot, counts, rows, rows', c, channel);
    }
    forall c | c in rows && Pending(rows[c], channel) ensures !Stale(channels, counts, rows[c], channel) {
      PendingIsFresh(channels, counts, rows[c], channel);
    }
  }

  lemma AllUntouched(channels: Channels, bot: string, rows: Rows, c: nat)
    requires c in rows
    ensures Untouched(channels, channels, bot, rows, rows, c)
  {
    hide Live;
  }

  // ---------------------------------------------------------------- every run

  /** What happens to the world: a pass, a retry delay running out, or other people in the channels. */
  datatype Event =
    | Publish(contests: set<nat>, current: map<nat, nat>, channel: string, names: nat -> string,
              levels: nat -> Option<nat>, sync: Fault, select: Fault, faults: (nat, nat) -> Fault)
    | Elapse(contest: nat)
    | Chat(channel: string, author: string, texts: seq<string>)
    | Moderate(channel: string, id: nat)

  /** Losing a message never breaks the bookkeeping: a dead record is allowed. */
  lemma ModerateKeeps(channels: Channels, bot: string, counts: nat -> nat, nextId: nat, rows: Rows,
                      ch: string, id: nat)
    requires Ordered(channels, nextId) && SingleMarkers(channels, bot)
    requires forall c: nat :: ContestInv(channels, bot, counts, nextId, rows, c)
    ensures var after := Removed(channels, ch, id);
      && Ordered(after, nextId) && SingleMarkers(after, bot)
      && forall c: nat :: ContestInv(after, bot, counts, nextId, rows, c)
  {
    RemovedLive(channels, nextId, ch, id);
    OrderedAt(channels, nextId, ch);
    WithoutKeeps(History(channels, ch), id);
    hide Matches, Marker, Without, Live, Descending;
    var after := Removed(channels, ch, id);
    assert forall ch', m | m in History(after, ch') :: m in History(channels, ch');
    forall c: nat ensures ContestInv(after, bot, counts, nextId, rows, c) {
      assert ContestInv(channels, bot, counts, nextId, rows, c);
    }
  }

  lemma ChatKeeps(channels: Channels, bot: string, counts: nat -> nat, nextId: nat, next: nat, rows: Rows,
                  ch: string, m: Message)
    requires Ordered(channels, nextId) && SingleMarkers(channels, bot)
    requires m.id == nextId && next == nextId + 1 && m.author != bot
    requires forall c: nat :: ContestInv(channels, bot, counts, nextId, rows, c)
    ensures var after := Posted(channels, ch, m);
      && Ordered(after, next) && SingleMarkers(after, bot)
      && forall c: nat :: ContestInv(after, bot, counts, next, rows, c)
  {
    PostedLive(channels, nextId, ch, m);
    var after := Posted(channels, ch, m);
    assert forall c: nat, p: nat :: !Matches(m, bot, Marker(c, p));
    hide Matches, Marker, Live, Descending, SingleMarkers, Ordered, ContestInv;
    assert SingleMarkers(after, bot) by { ForeignPost(channels, bot, ch, m); }
    assert forall ch', x | x in History(after, ch') :: x == m || x in History(channels, ch');
    forall c: nat ensures ContestInv(after, bot, counts, next, rows, c) {
      ChatContest(channels, after, bot, counts, nextId, rows, m, c);
    }
  }

  lemma ForeignPost(channels: Channels, bot: string, ch: string, m: Message)
    requires SingleMarkers(channels, bot) && forall c: nat, p: nat :: !Matches(m, bot, Marker(c, p))
    ensures SingleMarkers(Posted(channels, ch, m), bot)
  {
    hide Matches, Marker;
    assert forall ch', x | x in History(Posted(channels, ch, m), ch') :: x == m || x in History(channels, ch');
  }

  /** A message without a marker changes nothing about a contest. */
  lemma ChatContest(channels: Channels, after: Channels, bot: string, counts: nat -> nat, nextId: nat, rows: Rows,
                    m: Message, c: nat)
    requires ContestInv(channels, bot, counts, nextId, rows, c) && m.id == nextId
    requires forall p: nat, ch, x :: Live(after, bot, c, p, ch, x) <==> Live(channels, bot, c, p, ch, x)
    requires forall ch, x | x in History(after, ch) :: x == m || x in History(channels, ch)
    ensures ContestInv(after, bot, counts, nextId + 1, rows, c)
  {
    hide Matches, Marker, Live;
  }

  /** In every reachable state each contest has at most one live message, and its row leads to it. */
  method EveryRun(w: World, events: seq<Event>)
    requires w.Inv()
    modifies w
    ensures w.Inv()
  {
    for i := 0 to |events|
      invariant w.Inv()
    {
      hide World.Inv;
      match events[i]
      case Publish(contests, current, channel, names, levels, sync, select, faults) =>
        var r, selected := Pass(w, contests, current, channel, names, levels, sync, select, faults);
      case Elapse(contest) =>
        LetElapse(w, contest);
      case Chat(channel, author, texts) =>
        Converse(w, channel, author, texts);
      case Moderate(channel, id) =>
        DeleteByHand(w, channel, id);
    }
  }

  method LetElapse(w: World, contest: nat)
    requires w.Inv()
    modifies w`waiting
    ensures w.Inv() && w.waiting == old(w.waiting) - {contest}
  {
    w.waiting := w.waiting - {contest};
  }

  method Converse(w: World, channel: string, author: string, texts: seq<string>)
    requires w.Inv()
    modifies w`channels, w`nextId
    ensures w.Inv() && w.nextId == old(w.nextId) + if author == w.bot then 0 else 1
    ensures w.channels == if author == w.bot then old(w.channels)
                          else Posted(old(w.channels), channel, Message(old(w.nextId), author, texts))
  {
    hide Tracked, RowSound, SingleMarkers, Ordered, ContestInv;
    if author != w.bot {
      ChatKeeps(w.channels, w.bot, w.counts, w.nextId, w.nextId + 1, w.rows, channel, Message(w.nextId, author, texts));
      w.channels := Posted(w.channels, channel, Message(w.nextId, author, texts));
      w.nextId := w.nextId + 1;
    }
  }

  method DeleteByHand(w: World, channel: string, id: nat)
    requires w.Inv()
    modifies w`channels
    ensures w.Inv() && w.channels == Removed(old(w.channels), channel, id)
  {
    hide Tracked, RowSound, SingleMarkers, Ordered, ContestInv;
    ModerateKeeps(w.channels, w.bot, w.counts, w.nextId, w.rows, channel, id);
    w.channels := Removed(w.channels, channel, id);
  }

  // ---------------------------------------------------------------- the stale record

  /** Playlist 10 of contest 1 goes up in channel `c`. */
  method ShowTen(bot: string) returns (w: World)
    ensures fresh(w) && w.Inv() && w.waiting == {} && 1 in w.rows && w.counts(10) == w.counts(11) == 3
    ensures w.rows[1].message.Some? && w.rows[1] == Row(10, Some(10), w.rows[1].message, Some("c"), None)
  {
    hide World.Inv, Untouched, Live, NoneLive, Buried;
    w := new World(bot, _ => 3);
    var r, selected := Pass(w, {1}, map[1 := 10], "c", _ => "theme", _ => Some(3), Fine, Fine, (_, _) => Fine);
    assert Shown(w.channels, w.bot, w.counts, 1, w.rows[1], "c");
  }

  /** A pass for playlist 11 is cut right after its deletion took effect. */
  method LoseDeletion(w: World)
    requires w.Inv() && w.waiting == {} && 1 in w.rows && w.counts(11) == 3
    requires w.rows[1].message.Some? && w.rows[1] == Row(10, Some(10), w.rows[1].message, Some("c"), None)
    modifies w
    ensures w.Inv() && w.waiting == {} && 1 in w.rows && w.rows[1] == old(w.rows)[1].(desired := 11)
    ensures forall m | m in History(w.channels, "c") :: m.id != w.rows[1].message.value
  {
    hide Untouched, Live, NoneLive, Buried, Tracked, RowSound, ContestInv, OnlyAffects, Grew, Shown, Stale;
    GoneAfterRemoval(w.channels, w.nextId, "c", w.rows[1].message.value);
    hide Ordered, SingleMarkers, Removed, History;
    Synchronize(w, {1}, map[1 := 11]);
    var r := Deliver(w, 1, "c", "theme", Some(3), k => if k == 2 then Unanswered else Fine);
  }

  /**
   How a stale record comes about: playlist 10 is shown, the deletion on behalf of playlist 11 takes
   effect but its pass is cut there, and 10 becomes the desired playlist again.  The next pass finds
   nothing to do, ends with `Ok`, and nothing is shown.
   */
  method StaleRecord(bot: string) returns (w: World, r: Result<(), Failure>, selected: set<nat>)
    ensures fresh(w) && w.Inv() && 1 in w.rows && w.waiting == {}
    ensures r.Ok? && selected == {} && !Shown(w.channels, w.bot, w.counts, 1, w.rows[1], "c")
  {
    hide World.Inv, Untouched, Live, NoneLive, Buried, Shown, BadArtifact;
    w := ShowTen(bot);
    LoseDeletion(w);
    r, selected := Pass(w, {1}, map[1 := 10], "c", _ => "theme", _ => Some(3), Fine, Fine, (_, _) => Fine);
  }

  lemma GoneAfterRemoval(channels: Channels, nextId: nat, ch: string, id: nat)
    requires Ordered(channels, nextId)
    ensures forall m | m in History(Removed(channels, ch, id), ch) :: m.id != id
  {
    OrderedAt(channels, nextId, ch);
    WithoutKeeps(History(channels, ch), id);
  }
}
