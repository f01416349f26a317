/**
 The text of a rank notification (crates/discord/src/rank.rs): bounded names, labels, the full and the
 compact row, and the 4000-unit budget of the rendered message.  A string is a sequence of Unicode
 scalar values; Discord counts UTF-16 units.
 */
module RankMessage {
  import opened Wrappers
  import opened Decimals
  import opened RankWatches

  const DISPLAY_LIMIT: nat := 50
  const TEXT_LIMIT: nat := 4000
  const I32_MAX: int := 0x7FFF_FFFF
  const I64_MAX: int := 0x7FFF_FFFF_FFFF_FFFF
  const U64: int := 0x1_0000_0000_0000_0000

  datatype RankUser = RankUser(id: int, steamName: Option<string>, discordId: Option<string>, points: Option<int>)

  ghost predicate I64(n: int) { -I64_MAX - 1 <= n <= I64_MAX }

  /** A change as `changes` hands it on: `i32` ranks, positive or -1. */
  ghost predicate Representable(c: RankChange)
  {
    ValidChange(c) && c.previousRank <= I32_MAX && c.rank <= I32_MAX
  }

  // ---------------------------------------------------------------- UTF-16 length

  function CharUnits(c: char): nat { if (c as int) < 0x10000 then 1 else 2 }

  /** The code units of one scalar value (section 2.1 of RFC 2781). */
  ghost function Utf16(c: char): (units: seq<nat>)
    ensures forall u | u in units :: u < 0x10000
  {
    var n := c as int;
    if n < 0x10000 then [n] else [0xD800 + (n - 0x10000) / 0x400, 0xDC00 + (n - 0x10000) % 0x400]
  }

  lemma CharUnitsMeans(c: char)
    ensures CharUnits(c) == |Utf16(c)|
  {
  }

  function Units(s: string): nat
  {
    if s == [] then 0 else CharUnits(s[0]) + Units(s[1..])
  }

  lemma {:induction false} UnitsAppend(a: string, b: string)
    ensures Units(a + b) == Units(a) + Units(b)
  {
    if a == [] {
      assert a + b == b;
    } else {
      assert (a + b)[1..] == a[1..] + b;
      UnitsAppend(a[1..], b);
    }
  }

  lemma {:induction false} UnitsPlain(s: string)
    requires forall c | c in s :: (c as int) < 0x10000
    ensures Units(s) == |s|
  {
    if s != [] {
      assert s[0] in s && forall c | c in s[1..] :: c in s;
      UnitsPlain(s[1..]);
    }
  }

  // ---------------------------------------------------------------- names

  function Flat(c: char): char { if c in {'\r', '\n', '\t'} then ' ' else c }

  function Flattened(name: string): (r: string)
    ensures |r| == |name| && forall i | 0 <= i < |r| :: r[i] == Flat(name[i])
  {
    seq(|name|, i requires 0 <= i < |name| => Flat(name[i]))
  }

  /** The longest prefix of the flattened name within the limit. */
  function BoundedName(name: string, limit: nat): (r: string)
    ensures |r| <= |name| && r == Flattened(name)[..|r|]
    ensures Units(r) <= limit
    ensures |r| < |name| ==> Units(Flattened(name)[..|r| + 1]) > limit
  {
    if name == [] then []
    else
      var c, flat := Flat(name[0]), Flattened(name);
      assert flat[1..] == Flattened(name[1..]);
      assert flat[..1][1..] == [];
      if CharUnits(c) > limit then []
      else
        var rest := BoundedName(name[1..], limit - CharUnits(c));
        var r := [c] + rest;
        assert r == flat[..|r|] && r[1..] == rest;
        assert |r| < |name| ==> flat[..|r| + 1][1..] == Flattened(name[1..])[..|rest| + 1];
        r
  }

  // ---------------------------------------------------------------- labels

  function Signed(n: int): string { if n < 0 then "-" + Decimal(-n) else Decimal(n) }

  function RankLabel(rank: int): string { if rank == -1 then "Unranked" else "#" + Signed(rank) }

  /** Thousands separated by commas, read from the right. */
  function Grouped(digits: string): string
  {
    if |digits| <= 3 then digits
    else Grouped(digits[..|digits| - 3]) + ("," + digits[|digits| - 3..])
  }

  function SignedGroups(points: int): string
  {
    if points < 0 then "-" + Grouped(Decimal(-points)) else Grouped(Decimal(points))
  }

  /** What a left-to-right pass writes before digit `k` of `total`. */
  function Comma(k: nat, total: nat): string { if k > 0 && (total - k) % 3 == 0 then "," else "" }

  /** The separators a left-to-right pass over a prefix of `total` digits writes. */
  function Separated(prefix: string, total: nat): string
  {
    if prefix == [] then []
    else
      var k := |prefix| - 1;
      Separated(prefix[..k], total) + Comma(k, total) + [prefix[k]]
  }

  lemma {:induction false} SeparatedNext(digits: string, index: nat, total: nat)
    requires index < |digits|
    ensures Separated(digits[..index + 1], total) == Separated(digits[..index], total) + Comma(index, total) + [digits[index]]
  {
    hide Comma;
    var prefix := digits[..index + 1];
    assert prefix[..index] == digits[..index] && prefix[index] == digits[index];
  }

  lemma {:induction false} SeparatedModuloThree(prefix: string, total: nat)
    ensures Separated(prefix, total) == Separated(prefix, total + 3)
  {
    if prefix != [] {
      var k := |prefix| - 1;
      SeparatedModuloThree(prefix[..k], total);
      assert Comma(k, total + 3) == Comma(k, total);
    }
  }

  /** Three more digits: one comma. */
  lemma {:induction false} ThreeMore(digits: string)
    requires |digits| > 3
    ensures var n := |digits|;
      Separated(digits, n) == Separated(digits[..n - 3], n) + ("," + digits[n - 3..])
  {
    var n := |digits|;
    assert Comma(n - 3, n) == "," && Comma(n - 2, n) == Comma(n - 1, n) == "";
    SeparatedNext(digits, n - 3, n);
    SeparatedNext(digits, n - 2, n);
    SeparatedNext(digits, n - 1, n);
    hide Separated, Comma;
    assert digits[..n] == digits;
    var front, x, y, z := Separated(digits[..n - 3], n), digits[n - 3], digits[n - 2], digits[n - 1];
    assert digits[n - 3..] == [x, y, z];
    Gathered(front, x, y, z);
  }

  lemma Gathered(front: string, x: char, y: char, z: char)
    ensures front + "," + [x] + "" + [y] + "" + [z] == front + ("," + [x, y, z])
  {
  }

  lemma {:induction false} SeparatedIsGrouped(digits: string)
    ensures Separated(digits, |digits|) == Grouped(digits)
  {
    var n := |digits|;
    if n <= 3 {
      SeparatedShort(digits, n);
    } else {
      var rest := digits[..n - 3];
      SeparatedIsGrouped(rest);
      SeparatedModuloThree(rest, n - 3);
      ThreeMore(digits);
      hide Separated;
    }
  }

  lemma {:induction false} SeparatedShort(prefix: string, total: nat)
    requires |prefix| <= total <= 3
    ensures Separated(prefix, total) == prefix
  {
    if prefix != [] {
      SeparatedShort(prefix[..|prefix| - 1], total);
    }
  }

  method PointsLabel(points: int) returns (formatted: string)
    ensures formatted == SignedGroups(points)
  {
    hide Decimal, Separated, Grouped;
    var digits := Decimal(if points < 0 then -points else points);
    assert Separated([], |digits|) == [] by { SeparatedNothing(|digits|); }
    var sign := if points < 0 then "-" else "";
    formatted := sign;
    for index := 0 to |digits|
      invariant formatted == sign + Separated(digits[..index], |digits|)
    {
      SeparatedNext(digits, index, |digits|);
      if index > 0 && (|digits| - index) % 3 == 0 {
        formatted := formatted + ",";
      }
      formatted := formatted + [digits[index]];
    }
    assert digits[..|digits|] == digits;
    SeparatedIsGrouped(digits);
  }

  lemma SeparatedNothing(total: nat)
    ensures Separated([], total) == []
  {
  }

  // ---------------------------------------------------------------- rows

  /** Whose change it is: the first user of the list with the id, or nobody when none has it. */
  ghost predicate FirstWith(users: seq<RankUser>, id: int, user: Option<RankUser>)
  {
    match user
    case None => forall u | u in users :: u.id != id
    case Some(u) =>
      exists i :: 0 <= i < |users| && users[i] == u && u.id == id && forall j | 0 <= j < i :: users[j].id != id
  }

  function FindUser(users: seq<RankUser>, id: int): (user: Option<RankUser>)
    ensures FirstWith(users, id, user)
  {
    if users == [] then None
    else if users[0].id == id then Some(users[0])
    else
      var user := FindUser(users[1..], id);
      FirstBeyond(users, id, user);
      user
  }

  lemma FirstBeyond(users: seq<RankUser>, id: int, user: Option<RankUser>)
    requires users != [] && users[0].id != id && FirstWith(users[1..], id, user)
    ensures FirstWith(users, id, user)
  {
    if user.Some? {
      var i :| 0 <= i < |users| - 1 && users[1..][i] == user.value && user.value.id == id
               && forall j | 0 <= j < i :: users[1..][j].id != id;
      assert users[i + 1] == user.value;
      forall j | 0 <= j < i + 1 ensures users[j].id != id {
        assert j > 0 ==> users[1..][j - 1] == users[j];
      }
    }
  }

  /** `str::parse::<u64>`: one optional plus sign, then digits, below the width. */
  function ParseU64(s: string): (r: Option<nat>)
    ensures r.Some? ==> r.value < U64
  {
    var digits := if s != [] && s[0] == '+' then s[1..] else s;
    if digits != [] && (forall c | c in digits :: c in DIGITS) && NumeralValue(digits, 10) < U64
    then Some(NumeralValue(digits, 10)) else None
  }

  function Mention(user: Option<RankUser>): Option<string>
  {
    if user.None? || user.value.discordId.None? then None
    else
      var id := ParseU64(user.value.discordId.value);
      if id.None? || id.value == 0 then None else Some("<@" + Decimal(id.value) + ">")
  }

  /** A mention is for an id that is a positive 64-bit number, written in its shortest form. */
  lemma MentionMeans(user: Option<RankUser>)
    ensures Mention(user).Some? <==>
            user.Some? && user.value.discordId.Some? && exists n :: 0 < n < U64 && ReadsAs(user.value.discordId.value, n)
    ensures forall n | 0 < n < U64 && user.Some? && user.value.discordId.Some? && ReadsAs(user.value.discordId.value, n) ::
              Mention(user) == Some("<@" + Decimal(n) + ">")
  {
    if user.Some? && user.value.discordId.Some? {
      ParseMeans(user.value.discordId.value);
    }
    hide ParseU64, ReadsAs, Decimal;
  }

  /** Digits, perhaps after a plus sign, that denote the number. */
  ghost predicate ReadsAs(s: string, n: int)
  {
    exists sign, digits :: s == sign + digits && sign in {"", "+"} && IsNumeral(digits, n)
  }

  ghost predicate IsNumeral(digits: string, n: int)
  {
    digits != [] && (forall c | c in digits :: '0' <= c <= '9') && NumeralValue(digits, 10) == n
  }

  lemma ParseMeans(s: string)
    ensures forall n | ReadsAs(s, n) :: ParseU64(s) == if n < U64 then Some(n) else None
    ensures ParseU64(s).Some? ==> ReadsAs(s, ParseU64(s).value)
  {
    hide NumeralValue;
    assert forall c :: c in DIGITS <==> '0' <= c <= '9';
    var digits := if s != [] && s[0] == '+' then s[1..] else s;
    forall sign, rest | s == sign + rest && sign in {"", "+"} && rest != [] && (forall c | c in rest :: '0' <= c <= '9')
      ensures rest == digits
    {
      assert rest[0] in rest && "" + rest == rest;
      if sign == "+" {
        assert s[0] == '+' && s[1..] == rest;
      }
    }
    if s != [] && s[0] == '+' {
      assert s == "+" + digits;
    } else {
      assert s == "" + digits;
    }
    if ParseU64(s).Some? {
      forall c | c in digits ensures '0' <= c <= '9' {
        assert c in DIGITS;
      }
      assert IsNumeral(digits, ParseU64(s).value);
    }
  }

  function PlayerName(user: Option<RankUser>, compact: bool): string
  {
    BoundedName(if user.None? then "Unknown player" else user.value.steamName.GetOr("Unknown player"),
                if compact then 24 else 40)
  }

  predicate Up(c: RankChange) { c.rank != -1 && (c.previousRank == -1 || c.rank < c.previousRank) }

  function CompactRow(c: RankChange, user: Option<RankUser>): string
  {
    var points := if user.None? || user.value.points.None? then "unknown" else Signed(user.value.points.value);
    Mention(user).GetOr(PlayerName(user, true)) + " " +
    RankLabel(c.previousRank) + " → " + RankLabel(c.rank) + " · " + points
  }

  function FullRow(c: RankChange, user: Option<RankUser>): string
  {
    var name, mention := PlayerName(user, false), Mention(user);
    var player := if mention.Some? then name + " (" + mention.value + ")" else name;
    var arrow := if Up(c) then "<:up:1535467505831780455>" else "<:down:1535467431655637072>";
    var points := if user.None? || user.value.points.None? then "unknown" else SignedGroups(user.value.points.value);
    arrow + " " + player + ": " + RankLabel(c.previousRank) + " → " + RankLabel(c.rank) + " (" + points + " pts)"
  }

  function Row(c: RankChange, users: seq<RankUser>, compact: bool): string
  {
    var user := FindUser(users, c.idUser);
    if compact then CompactRow(c, user) else FullRow(c, user)
  }

  /** Unranked is behind every rank. */
  function Place(rank: int): int { if rank == -1 then I32_MAX + 1 else rank }

  /** The arrow points up exactly for a better place. */
  lemma UpMeans(c: RankChange)
    requires Representable(c)
    ensures Up(c) <==> Place(c.rank) < Place(c.previousRank)
  {
  }

  /** A line of the message: the ranks of the change, and the name, mention and points of its own user. */
  ghost predicate Shows(line: string, c: RankChange, users: seq<RankUser>, compact: bool)
  {
    exists user: Option<RankUser> ::
      FirstWith(users, c.idUser, user) && line == if compact then CompactRow(c, user) else FullRow(c, user)
  }

  lemma RowShows(c: RankChange, users: seq<RankUser>, compact: bool)
    ensures Shows(Row(c, users, compact), c, users, compact)
  {
    hide FindUser, FirstWith, CompactRow, FullRow;
    assert FirstWith(users, c.idUser, FindUser(users, c.idUser));
  }

  lemma PrefixUnits(s: string, k: nat)
    requires k <= |s|
    ensures Units(s[..k]) <= Units(s)
  {
    hide Units;
    UnitsAppend(s[..k], s[k..]);
    assert s[..k] + s[k..] == s;
  }

  /** A name within the limit and without breaks or tabs is shown as it is. */
  lemma {:induction false} ShortName(name: string, limit: nat)
    requires Units(name) <= limit && forall c | c in name :: c !in {'\r', '\n', '\t'}
    ensures BoundedName(name, limit) == name
  {
    hide BoundedName, Units;
    var r := BoundedName(name, limit);
    forall i | 0 <= i < |name| ensures Flattened(name)[i] == name[i] {
      assert name[i] in name;
    }
    assert Flattened(name) == name;
    assert name[..|name|] == name;
    PrefixUnits(name, if |r| < |name| then |r| + 1 else |name|);
  }

  /** A number read back from its own numeral. */
  lemma ParsedNumeral(n: nat)
    requires n < U64
    ensures ParseU64(Decimal(n)) == Some(n)
  {
    NumeralRoundTrip(n, 10);
    assert '+' !in DIGITS;
    hide Numeral, NumeralValue;
    assert Decimal(n)[0] in Decimal(n);
  }

  lemma Numerals()
    ensures Decimal(6) == "6" && Decimal(7) == "7" && Decimal(123) == "123"
    ensures Grouped("93828") == "93,828" && Decimal(175) == "175" && Decimal(176) == "176" && Decimal(93828) == "93828"
  {
    assert Decimal(1) == "1" && Decimal(12) == "12" && Decimal(17) == "17";
    assert Decimal(9) == "9" && Decimal(93) == "93";
    assert Decimal(938) == "938" && Decimal(9382) == "9382";
    assert "93828"[..2] == "93" && "93828"[2..] == "828";
  }

  lemma Names()
    ensures Units("Kilandor") == 8 && Units("Unknown player") == 14
  {
    hide Units;
    UnitsPlain("Kilandor");
    UnitsPlain("Unknown player");
  }

  lemma Kilandor(user: RankUser)
    requires user == RankUser(7, Some("Kilandor"), Some("123"), Some(93828))
    ensures PlayerName(Some(user), false) == "Kilandor" && Mention(Some(user)) == Some("<@" + "123" + ">")
    ensures RankLabel(176) == "#" + "176" && RankLabel(175) == "#" + "175"
    ensures Signed(93828) == "93828" && SignedGroups(93828) == "93,828"
  {
    hide BoundedName, Decimal, ParseU64, Units, Grouped;
    Numerals();
    Names();
    ParsedNumeral(123);
    ShortName("Kilandor", 40);
  }

  lemma Nobody()
    ensures PlayerName(None, false) == PlayerName(None, true) == "Unknown player" && Mention(None) == None
    ensures PlayerName(Some(RankUser(9, None, None, None)), false) == "Unknown player"
    ensures RankLabel(-1) == "Unranked" && RankLabel(6) == "#" + "6" && RankLabel(7) == "#" + "7"
  {
    hide BoundedName, Decimal, Units;
    Numerals();
    Names();
    ShortName("Unknown player", 40);
    ShortName("Unknown player", 24);
  }

  /** The rows of the program's own tests, in both forms. */
  lemma RowExamples()
    ensures var user := Some(RankUser(7, Some("Kilandor"), Some("123"), Some(93828)));
      && FullRow(RankChange(7, 176, 175), user)
         == "<:up:1535467505831780455>" + " " + ("Kilandor" + " (" + ("<@" + "123" + ">") + ")") + ": "
            + ("#" + "176") + " → " + ("#" + "175") + " (" + "93,828" + " pts)"
      && CompactRow(RankChange(7, 176, 175), user)
         == ("<@" + "123" + ">") + " " + ("#" + "176") + " → " + ("#" + "175") + " · " + "93828"
    ensures FullRow(RankChange(9, -1, 6), None)
         == "<:up:1535467505831780455>" + " " + "Unknown player" + ": " + "Unranked" + " → " + ("#" + "6")
            + " (" + "unknown" + " pts)"
    ensures FullRow(RankChange(10, 7, -1), None)
         == "<:down:1535467431655637072>" + " " + "Unknown player" + ": " + ("#" + "7") + " → " + "Unranked"
            + " (" + "unknown" + " pts)"
    ensures CompactRow(RankChange(10, 7, -1), None)
         == "Unknown player" + " " + ("#" + "7") + " → " + "Unranked" + " · " + "unknown"
  {
    hide PlayerName, Mention, RankLabel, Signed, SignedGroups;
    Kilandor(RankUser(7, Some("Kilandor"), Some("123"), Some(93828)));
    Nobody();
  }

  // ---------------------------------------------------------------- the message

  function Moved(count: nat): string { if count == 1 then " player moved" else " players moved" }

  const RECALCULATED: string := " after ranking recalculation.\n"

  function Header(count: nat, compact: bool): string
  {
    "## Rank changes\n" + Decimal(count) + Moved(count) +
    RECALCULATED + "### Movements" + (if compact then " • points" else "")
  }

  /** A time that parses is shown as a relative one, any other as it came. */
  function Time(timestamp: Option<int>, occurredAt: string): string
  {
    if timestamp.Some? then "<t:" + Signed(timestamp.value) + ":R>" else occurredAt
  }

  function Footer(timestamp: Option<int>, occurredAt: string): string
  {
    "-# ZeepCentraal • " + Time(timestamp, occurredAt)
  }

  function Shown(n: nat): nat { if n < DISPLAY_LIMIT then n else DISPLAY_LIMIT }

  function Movements(changes: seq<RankChange>, users: seq<RankUser>, compact: bool): (rows: seq<string>)
    ensures |rows| == Shown(|changes|)
  {
    seq(Shown(|changes|), i requires 0 <= i < Shown(|changes|) => Row(changes[i], users, compact))
  }

  function More(count: nat): seq<string>
  {
    if count > DISPLAY_LIMIT then ["…and " + Decimal(count - DISPLAY_LIMIT) + " more"] else []
  }

  function Lines(changes: seq<RankChange>, users: seq<RankUser>, compact: bool, footer: string): seq<string>
  {
    [Header(|changes|, compact)] + Movements(changes, users, compact) + More(|changes|) + [footer]
  }

  function Join(parts: seq<string>): string
  {
    if |parts| == 0 then "" else if |parts| == 1 then parts[0] else parts[0] + "\n" + Join(parts[1..])
  }

  function LineUnits(rows: seq<string>): nat
  {
    if rows == [] then 0 else Units(rows[0]) + 1 + LineUnits(rows[1..])
  }

  lemma {:induction false} LineUnitsAppend(a: seq<string>, b: seq<string>)
    ensures LineUnits(a + b) == LineUnits(a) + LineUnits(b)
  {
    hide Units;
    if a == [] {
      assert a + b == b;
    } else {
      assert (a + b)[1..] == a[1..] + b;
      LineUnitsAppend(a[1..], b);
    }
  }

  lemma OneMore(n: nat, k: nat)
    ensures (n + 1) * k == n * k + k
  {
  }

  lemma {:induction false} LineUnitsBound(rows: seq<string>, bound: nat)
    requires forall r | r in rows :: Units(r) <= bound
    ensures LineUnits(rows) <= |rows| * (bound + 1)
  {
    hide Units;
    if rows != [] {
      assert forall r | r in rows[1..] :: r in rows;
      LineUnitsBound(rows[1..], bound);
      OneMore(|rows[1..]|, bound + 1);
    }
  }

  lemma {:induction false} JoinUnits(parts: seq<string>)
    requires parts != []
    ensures Units(Join(parts)) + 1 == LineUnits(parts)
  {
    if |parts| > 1 {
      JoinUnits(parts[1..]);
      UnitsAppend(parts[0] + "\n", Join(parts[1..]));
      UnitsAppend(parts[0], "\n");
      assert "\n"[1..] == [];
    } else {
      assert parts[1..] == [];
    }
  }

  lemma {:induction false} JoinAppend(a: seq<string>, b: seq<string>)
    requires a != [] && b != []
    ensures Join(a + b) == Join(a) + "\n" + Join(b)
  {
    assert (a + b)[1..] == a[1..] + b;
    if |a| > 1 {
      JoinAppend(a[1..], b);
    } else {
      assert a[1..] + b == b;
    }
  }

  /** Chunks of ten rows between the header and the footer, each joined by newlines. */
  method Chunked(header: string, rows: seq<string>, footer: string) returns (components: seq<string>)
    ensures Join(components) == Join([header] + rows + [footer])
    ensures |components| == 2 + (|rows| + 9) / 10
  {
    components := [header];
    var start := 0;
    while start < |rows|
      invariant 0 <= start <= |rows|
      invariant Join(components) == Join([header] + rows[..start])
      invariant |components| == 1 + (start + 9) / 10 && (start < |rows| ==> start % 10 == 0)
    {
      var stop := if start + 10 < |rows| then start + 10 else |rows|;
      var chunk := rows[start..stop];
      JoinAppend(components, [Join(chunk)]);
      JoinAppend([header] + rows[..start], chunk);
      assert [header] + rows[..start] + chunk == [header] + rows[..stop];
      components := components + [Join(chunk)];
      start := stop;
    }
    assert rows[..start] == rows;
    JoinAppend(components, [footer]);
    JoinAppend([header] + rows, [footer]);
    components := components + [footer];
  }

  /** What the source counts before choosing the form. */
  function TextLength(changes: seq<RankChange>, users: seq<RankUser>, footer: string): nat
  {
    Units(Header(|changes|, false)) + Units(footer) + LineUnits(Movements(changes, users, false))
    + LineUnits(More(|changes|)) + 2
  }

  predicate Compact(changes: seq<RankChange>, users: seq<RankUser>, footer: string)
  {
    TextLength(changes, users, footer) > TEXT_LIMIT
  }

  /** The lines, written out: header, at most fifty movements in order, remainder, footer. */
  ghost predicate Laid(lines: seq<string>, changes: seq<RankChange>, users: seq<RankUser>, compact: bool,
                       timestamp: Option<int>, occurredAt: string)
  {
    var count := |changes|;
    var shown := if count < 50 then count else 50;
    && |lines| == shown + (if count > 50 then 3 else 2)
    && lines[0] == "## Rank changes\n" + Decimal(count) + (if count == 1 then " player moved" else " players moved")
                   + " after ranking recalculation.\n" + "### Movements" + (if compact then " • points" else "")
    && (forall i | 0 <= i < shown :: Shows(lines[i + 1], changes[i], users, compact))
    && (count > 50 ==> lines[51] == "…and " + Decimal(count - 50) + " more")
    && lines[|lines| - 1] == "-# ZeepCentraal • " +
         (if timestamp.Some? then "<t:" + Signed(timestamp.value) + ":R>" else occurredAt)
  }

  lemma LinesLaid(changes: seq<RankChange>, users: seq<RankUser>, compact: bool, timestamp: Option<int>, occurredAt: string)
    ensures Laid(Lines(changes, users, compact, Footer(timestamp, occurredAt)), changes, users, compact, timestamp, occurredAt)
  {
    hide Row, Shows, Decimal, Signed;
    var lines, rows := Lines(changes, users, compact, Footer(timestamp, occurredAt)), Movements(changes, users, compact);
    forall i | 0 <= i < |rows| ensures Shows(lines[i + 1], changes[i], users, compact) {
      RowShows(changes[i], users, compact);
      assert lines[i + 1] == rows[i] == Row(changes[i], users, compact);
    }
  }

  /** The compact form is chosen exactly when the full one would have 4000 units or more. */
  lemma CompactMeans(changes: seq<RankChange>, users: seq<RankUser>, footer: string)
    ensures Compact(changes, users, footer) <==> Units(Join(Lines(changes, users, false, footer))) >= TEXT_LIMIT
  {
    hide Header, More, Units, LineUnits, Join, Row;
    LinesUnits(Header(|changes|, false), Movements(changes, users, false), More(|changes|), footer);
  }

  /** What one form leaves for the footer; the full one is counted with one unit to spare. */
  function Spare(changes: seq<RankChange>, users: seq<RankUser>, compact: bool): int
  {
    TEXT_LIMIT - (if compact then 1 else 2) - Units(Header(|changes|, compact))
    - LineUnits(Movements(changes, users, compact)) - LineUnits(More(|changes|))
  }

  /** The longest time, in UTF-16 units, that the batch has room for in one of the two forms. */
  function RoomForTime(changes: seq<RankChange>, users: seq<RankUser>): int
  {
    var full, compact := Spare(changes, users, false), Spare(changes, users, true);
    (if full >= compact then full else compact) - 18
  }

  /**
   The displayed text is the header, every shown movement, the remainder line and the footer, one a
   line.  It is within the limit exactly when the time fits the room the batch leaves, which is never
   less than 148 units and always enough for a time that parses.
   */
  method Message(changes: seq<RankChange>, users: seq<RankUser>, timestamp: Option<int>, occurredAt: string)
    returns (components: Option<seq<string>>)
    requires |changes| < U64 && forall c | c in changes :: Representable(c)
    requires forall u | u in users && u.points.Some? :: I64(u.points.value)
    requires timestamp.Some? ==> I64(timestamp.value)
    ensures components.None? <==> changes == []
    ensures components.Some? ==>
              var footer := Footer(timestamp, occurredAt);
              && Join(components.value) == Join(Lines(changes, users, Compact(changes, users, footer), footer))
              && Laid(Lines(changes, users, Compact(changes, users, footer), footer), changes, users,
                      Compact(changes, users, footer), timestamp, occurredAt)
              && (Compact(changes, users, footer) <==>
                  Units(Join(Lines(changes, users, false, footer))) >= TEXT_LIMIT)
              && |components.value| <= 8
              && (Units(Join(components.value)) <= TEXT_LIMIT <==>
                  Units(Time(timestamp, occurredAt)) <= RoomForTime(changes, users))
              && (timestamp.Some? || Units(occurredAt) <= 148 ==> Units(Join(components.value)) <= TEXT_LIMIT)
  {
    hide Header, Footer, Time, More, Row, Join, Units, LineUnits, Representable, RoomForTime, Laid;
    if changes == [] {
      return None;
    }
    var header := Header(|changes|, false);
    var footer := Footer(timestamp, occurredAt);
    var rows := Movements(changes, users, false);
    var more := More(|changes|);
    MoreIsShort(|changes|);
    if Units(header) + Units(footer) + LineUnits(rows) + LineUnits(more) + 2 > TEXT_LIMIT {
      header := header + " • points";
      rows := Movements(changes, users, true);
      HeaderExtended(|changes|);
    }
    var displayed := Chunked(header, rows + more, footer);
    assert [header] + (rows + more) + [footer]
        == Lines(changes, users, Compact(changes, users, footer), footer);
    LinesLaid(changes, users, Compact(changes, users, footer), timestamp, occurredAt);
    CompactMeans(changes, users, footer);
    ExactBudget(changes, users, timestamp, occurredAt);
    RoomIsEnough(changes, users);
    TimeUnits(timestamp, occurredAt);
    return Some(displayed);
  }

  lemma MoreIsShort(count: nat)
    ensures |More(count)| <= 1 && (count <= DISPLAY_LIMIT ==> More(count) == [])
  {
  }

  lemma HeaderExtended(count: nat)
    ensures Header(count, false) + " • points" == Header(count, true)
  {
    hide Decimal;
  }

  /** A row never breaks its line, whatever the player is called. */
  lemma RowIsOneLine(c: RankChange, users: seq<RankUser>, compact: bool)
    ensures '\n' !in Row(c, users, compact)
  {
    hide RankLabel, PlayerName, Mention, SignedGroups, Signed, Up;
    var user := FindUser(users, c.idUser);
    LabelLines(user, compact, c.previousRank);
    LabelLines(user, compact, c.rank);
    if user.Some? && user.value.points.Some? {
      NumberLines(user.value.points.value);
    }
  }

  lemma LabelLines(user: Option<RankUser>, compact: bool, rank: int)
    ensures '\n' !in RankLabel(rank) && '\n' !in PlayerName(user, compact)
    ensures Mention(user).Some? ==> '\n' !in Mention(user).value
  {
    hide Decimal, ParseU64;
    if rank != -1 {
      NumberLines(rank);
    }
    if Mention(user).Some? {
      NumberLines(ParseU64(user.value.discordId.value).value);
    }
  }

  lemma NumberLines(n: int)
    ensures '\n' !in Signed(n) && '\n' !in SignedGroups(n) && (n >= 0 ==> '\n' !in Decimal(n))
  {
    assert '\n' !in DIGITS;
    var digits := Decimal(if n < 0 then -n else n);
    assert '\n' !in digits;
    hide Decimal;
    GroupedLines(digits);
  }

  lemma {:induction false} GroupedLines(digits: string)
    requires '\n' !in digits
    ensures '\n' !in Grouped(digits)
  {
    if |digits| > 3 {
      GroupedLines(digits[..|digits| - 3]);
    }
  }

  // ---------------------------------------------------------------- the budget

  /** Whatever the batch and the time: the text fits exactly when the time fits the room left for it. */
  lemma ExactBudget(changes: seq<RankChange>, users: seq<RankUser>, timestamp: Option<int>, occurredAt: string)
    ensures var footer := Footer(timestamp, occurredAt);
      Units(Join(Lines(changes, users, Compact(changes, users, footer), footer))) <= TEXT_LIMIT <==>
      Units(Time(timestamp, occurredAt)) <= RoomForTime(changes, users)
  {
    FooterUnits(timestamp, occurredAt);
    hide Header, Footer, Time, More, Units, LineUnits, Join, Row;
    var footer := Footer(timestamp, occurredAt);
    var compact := Compact(changes, users, footer);
    LinesUnits(Header(|changes|, compact), Movements(changes, users, compact), More(|changes|), footer);
  }

  lemma FooterUnits(timestamp: Option<int>, occurredAt: string)
    ensures Units(Footer(timestamp, occurredAt)) == 18 + Units(Time(timestamp, occurredAt))
  {
    hide Units, Time;
    UnitsPlain("-# ZeepCentraal • ");
    UnitsAppend("-# ZeepCentraal • ", Time(timestamp, occurredAt));
  }

  /** Fifty compact rows leave 148 units, whoever moved. */
  lemma RoomIsEnough(changes: seq<RankChange>, users: seq<RankUser>)
    requires |changes| < U64 && forall c | c in changes :: Representable(c)
    requires forall u | u in users && u.points.Some? :: I64(u.points.value)
    ensures RoomForTime(changes, users) >= 148
  {
    hide Header, More, Units, LineUnits, Row, Representable;
    var rows := Movements(changes, users, true);
    HeaderUnits(|changes|);
    MoreUnits(|changes|);
    forall r | r in rows ensures Units(r) <= 73 {
      var i :| 0 <= i < |rows| && rows[i] == r;
      RowUnits(changes[i], users);
    }
    LineUnitsBound(rows, 73);
    assert |rows| * 74 <= 50 * 74;
  }

  lemma TimeUnits(timestamp: Option<int>, occurredAt: string)
    requires timestamp.Some? ==> I64(timestamp.value)
    ensures timestamp.Some? ==> Units(Time(timestamp, occurredAt)) <= 26
    ensures timestamp.None? ==> Time(timestamp, occurredAt) == occurredAt
  {
    hide Units, Signed;
    if timestamp.Some? {
      SignedUnits(timestamp.value);
      UnitsPlain("<t:");
      UnitsPlain(":R>");
      UnitsAppend("<t:", Signed(timestamp.value));
      UnitsAppend("<t:" + Signed(timestamp.value), ":R>");
    }
  }

  // ---------------------------------------------------------------- the time as the database renders it

  function Padded(n: nat, width: nat): string
  {
    if |Decimal(n)| >= width then Decimal(n) else seq(width - |Decimal(n)|, i => '0') + Decimal(n)
  }

  function Year(year: int): string { if year < 0 then "-" + Padded(-year, 4) else Padded(year, 4) }

  function Date(year: int, month: nat, day: nat): string
  {
    Year(year) + "-" + Padded(month, 2) + "-" + Padded(day, 2)
  }

  function Clock(hour: nat, minute: nat, second: nat, milli: nat): string
  {
    Padded(hour, 2) + ":" + Padded(minute, 2) + ":" + Padded(second, 2) + "." + Padded(milli, 3)
  }

  /** `to_char(occurred_at, 'YYYY-MM-DD"T"HH24:MI:SS.MS"Z"')`. */
  function Rendered(year: int, month: nat, day: nat, hour: nat, minute: nat, second: nat, milli: nat): string
  {
    Date(year, month, day) + "T" + Clock(hour, minute, second, milli) + "Z"
  }

  /** A time of the program's own tests, with its milliseconds. */
  lemma RenderedExample()
    ensures Rendered(2026, 10, 5, 6, 0, 0, 7)
         == ("2026" + "-" + "10" + "-" + ("0" + "5")) + "T"
            + (("0" + "6") + ":" + ("0" + "0") + ":" + ("0" + "0") + "." + ("00" + "7")) + "Z"
  {
    assert Decimal(2) == "2" && Decimal(20) == "20" && Decimal(202) == "202" && Decimal(2026) == "2026";
    assert Decimal(1) == "1" && Decimal(10) == "10";
    assert Decimal(5) == "5" && Decimal(6) == "6" && Decimal(0) == "0" && Decimal(7) == "7";
    hide Decimal;
    assert seq(1, i => '0') == "0" && seq(2, i => '0') == "00";
    assert Padded(7, 3) == "00" + "7" && Padded(0, 2) == "0" + "0" && Padded(2026, 4) == "2026";
  }

  predicate Plain(s: string) { forall c | c in s :: (c as int) < 0x10000 }

  lemma PaddedUnits(n: nat, width: nat, digits: nat)
    requires 1 <= width <= digits && n < Pow(10, digits)
    ensures Plain(Padded(n, width)) && |Padded(n, width)| <= digits
  {
    hide Pow;
    NumeralLength(n, 10, digits);
    assert forall c | c in DIGITS :: (c as int) < 0x10000;
  }

  /** So every time the event log hands out has room, whether it parses or not. */
  lemma RenderedTimeFits(changes: seq<RankChange>, users: seq<RankUser>, timestamp: Option<int>,
                         year: int, month: nat, day: nat, hour: nat, minute: nat, second: nat, milli: nat)
    requires |changes| < U64 && forall c | c in changes :: Representable(c)
    requires forall u | u in users && u.points.Some? :: I64(u.points.value)
    requires timestamp.Some? ==> I64(timestamp.value)
    requires -1_000_000 < year < 1_000_000 && month < 100 && day < 100
    requires hour < 100 && minute < 100 && second < 100 && milli < 1000
    ensures var footer := Footer(timestamp, Rendered(year, month, day, hour, minute, second, milli));
      Units(Join(Lines(changes, users, Compact(changes, users, footer), footer))) <= TEXT_LIMIT
  {
    RenderedUnits(year, month, day, hour, minute, second, milli);
    hide Rendered, Units, Time, Footer, Lines, Join, Compact, RoomForTime, Representable, I64;
    var occurredAt := Rendered(year, month, day, hour, minute, second, milli);
    ExactBudget(changes, users, timestamp, occurredAt);
    RoomIsEnough(changes, users);
    TimeUnits(timestamp, occurredAt);
  }

  lemma RenderedUnits(year: int, month: nat, day: nat, hour: nat, minute: nat, second: nat, milli: nat)
    requires -1_000_000 < year < 1_000_000 && month < 100 && day < 100
    requires hour < 100 && minute < 100 && second < 100 && milli < 1000
    ensures Units(Rendered(year, month, day, hour, minute, second, milli)) <= 27
  {
    DateUnits(year, month, day);
    ClockUnits(hour, minute, second, milli);
    hide Date, Clock, Units, Plain;
    var date, clock := Date(year, month, day), Clock(hour, minute, second, milli);
    UnitsOfPlain(date);
    UnitsOfPlain(clock);
    UnitsPlain("T");
    UnitsPlain("Z");
    UnitsAppend(date, "T");
    UnitsAppend(date + "T", clock);
    UnitsAppend(date + "T" + clock, "Z");
  }

  lemma UnitsOfPlain(s: string)
    requires Plain(s)
    ensures Units(s) == |s|
  {
    UnitsPlain(s);
  }

  lemma DateUnits(year: int, month: nat, day: nat)
    requires -1_000_000 < year < 1_000_000 && month < 100 && day < 100
    ensures Plain(Date(year, month, day)) && |Date(year, month, day)| <= 13
  {
    assert Pow(10, 2) == 100 && Pow(10, 6) == 1_000_000;
    hide Padded, Pow;
    PaddedUnits(if year < 0 then -year else year, 4, 6);
    PaddedUnits(month, 2, 2);
    PaddedUnits(day, 2, 2);
  }

  lemma ClockUnits(hour: nat, minute: nat, second: nat, milli: nat)
    requires hour < 100 && minute < 100 && second < 100 && milli < 1000
    ensures Plain(Clock(hour, minute, second, milli)) && |Clock(hour, minute, second, milli)| <= 12
  {
    assert Pow(10, 2) == 100 && Pow(10, 3) == 1000;
    hide Padded, Pow;
    PaddedUnits(hour, 2, 2);
    PaddedUnits(minute, 2, 2);
    PaddedUnits(second, 2, 2);
    PaddedUnits(milli, 3, 3);
  }

  lemma LinesUnits(header: string, rows: seq<string>, more: seq<string>, footer: string)
    ensures Units(Join([header] + rows + more + [footer]))
         == Units(header) + LineUnits(rows) + LineUnits(more) + Units(footer) + 1
  {
    hide Units, Join;
    JoinUnits([header] + rows + more + [footer]);
    LineUnitsAppend([header] + rows + more, [footer]);
    LineUnitsAppend([header] + rows, more);
    LineUnitsAppend([header], rows);
    assert [header][1..] == [] && [footer][1..] == [];
  }

  /** No batch has room for a time of a whole message; nothing in the program produces one. */
  lemma LongRawTimeOverflows(changes: seq<RankChange>, users: seq<RankUser>, occurredAt: string)
    requires Units(occurredAt) >= TEXT_LIMIT
    ensures var footer := Footer(None, occurredAt);
      Units(Join(Lines(changes, users, Compact(changes, users, footer), footer))) > TEXT_LIMIT
  {
    ExactBudget(changes, users, None, occurredAt);
    hide Header, More, Units, LineUnits, Join, Row, Compact, Movements;
  }

  lemma DecimalUnits(n: nat, digits: nat)
    requires digits >= 1 && n < Pow(10, digits)
    ensures Units(Decimal(n)) == |Decimal(n)| <= digits
  {
    hide Units, Pow;
    NumeralLength(n, 10, digits);
    UnitsPlain(Decimal(n));
  }

  lemma SignedUnits(n: int)
    requires I64(n)
    ensures Units(Signed(n)) <= 20
  {
    hide Units, Decimal;
    PowerBounds();
    if n < 0 {
      DecimalUnits(-n, 19);
      UnitsAppend("-", Decimal(-n));
      UnitsPlain("-");
    } else {
      DecimalUnits(n, 19);
    }
  }

  lemma PowerBounds()
    ensures I32_MAX < Pow(10, 10) && I64_MAX + 1 < Pow(10, 19) && U64 <= Pow(10, 20)
  {
  }

  lemma RankLabelUnits(rank: int)
    requires rank == -1 || 0 < rank <= I32_MAX
    ensures Units(RankLabel(rank)) <= 11
  {
    hide Units, Decimal;
    if rank == -1 {
      UnitsPlain("Unranked");
    } else {
      PowerBounds();
      DecimalUnits(rank, 10);
      UnitsPlain("#");
      UnitsAppend("#", Decimal(rank));
    }
  }

  lemma MentionUnits(user: Option<RankUser>)
    ensures Mention(user).Some? ==> Units(Mention(user).value) <= 23
  {
    hide Units, Decimal;
    if Mention(user).Some? {
      var id := ParseU64(user.value.discordId.value).value;
      PowerBounds();
      DecimalUnits(id, 20);
      UnitsPlain("<@");
      UnitsPlain(">");
      UnitsAppend("<@", Decimal(id));
      UnitsAppend("<@" + Decimal(id), ">");
    }
  }

  lemma RowUnits(c: RankChange, users: seq<RankUser>)
    requires Representable(c) && forall u | u in users && u.points.Some? :: I64(u.points.value)
    ensures Units(Row(c, users, true)) <= 73
  {
    hide Units, RankLabel, PlayerName, Mention, Signed, Decimal;
    var user := FindUser(users, c.idUser);
    var player := Mention(user).GetOr(PlayerName(user, true));
    PlayerUnits(user);
    RankLabelUnits(c.previousRank);
    RankLabelUnits(c.rank);
    var points := if user.None? || user.value.points.None? then "unknown" else Signed(user.value.points.value);
    if user.None? || user.value.points.None? {
      UnitsPlain("unknown");
    } else {
      SignedUnits(user.value.points.value);
    }
    UnitsPlain(" ");
    UnitsPlain(" → ");
    UnitsPlain(" · ");
    SixParts(player, " ", RankLabel(c.previousRank), " → ", RankLabel(c.rank), " · ");
    UnitsAppend(player + " " + RankLabel(c.previousRank) + " → " + RankLabel(c.rank) + " · ", points);
  }

  lemma SixParts(a: string, b: string, c: string, d: string, e: string, f: string)
    ensures Units(a + b + c + d + e + f) == Units(a) + Units(b) + Units(c) + Units(d) + Units(e) + Units(f)
  {
    hide Units;
    FiveParts(a, b, c, d, e);
    UnitsAppend(a + b + c + d + e, f);
  }

  lemma PlayerUnits(user: Option<RankUser>)
    ensures Units(Mention(user).GetOr(PlayerName(user, true))) <= 24
  {
    hide Units, Mention;
    MentionUnits(user);
  }

  lemma HeaderWords(count: nat)
    ensures Units("## Rank changes\n") == 16 && Units(Moved(count)) <= 14
    ensures Units(" • points") == 9
  {
    hide Units;
    UnitsPlain("## Rank changes\n");
    UnitsPlain(Moved(count));
    UnitsPlain(" • points");
  }

  lemma FiveParts(a: string, b: string, c: string, d: string, e: string)
    ensures Units(a + b + c + d + e) == Units(a) + Units(b) + Units(c) + Units(d) + Units(e)
  {
    hide Units;
    UnitsAppend(a, b);
    UnitsAppend(a + b, c);
    UnitsAppend(a + b + c, d);
    UnitsAppend(a + b + c + d, e);
  }

  lemma SubtitleUnits()
    ensures Units(RECALCULATED) == 30 && Units("### Movements") == 13
  {
    hide Units;
    UnitsPlain(RECALCULATED);
    UnitsPlain("### Movements");
  }

  lemma HeaderUnits(count: nat)
    requires count < U64
    ensures Units(Header(count, true)) <= 102
  {
    hide Units, Decimal, Moved;
    PowerBounds();
    DecimalUnits(count, 20);
    HeaderWords(count);
    SubtitleUnits();
    SixParts("## Rank changes\n", Decimal(count), Moved(count), RECALCULATED, "### Movements", " • points");
  }

  lemma MoreUnits(count: nat)
    requires count < U64
    ensures LineUnits(More(count)) <= 31
  {
    hide Units, Decimal;
    if count > DISPLAY_LIMIT {
      PowerBounds();
      var rest := Decimal(count - DISPLAY_LIMIT);
      DecimalUnits(count - DISPLAY_LIMIT, 20);
      UnitsPlain("…and ");
      UnitsPlain(" more");
      UnitsAppend("…and ", rest);
      UnitsAppend("…and " + rest, " more");
      assert More(count)[1..] == [];
    }
  }
}
