/**
 Level archives (crates/inspector-zeep/src/archive.rs): folder names, collision suffixes, and the blocks
 handed to the compressor.  `lower` stands for `str::to_lowercase`; compression is not modelled.
 */
module Archive {
  import opened Wrappers
  import opened Decimals
  import opened Sorting
  import opened Text
  import opened Utf8
  import opened Tar

  datatype Level = Level(workshopId: nat, name: string, level: seq<Byte>,
                         index: Option<seq<Byte>>, thumbnail: Option<seq<Byte>>)

  datatype Failure = DuplicateName | NameTooLong

  // ---------------------------------------------------------------- names

  function TrimStart(s: string): (r: string)
    ensures r != [] ==> !IsWhitespace(r[0])
    ensures exists k :: 0 <= k <= |s| && r == s[k..]
  {
    if s != [] && IsWhitespace(s[0]) then
      var r := TrimStart(s[1..]);
      var k :| 0 <= k <= |s| - 1 && r == s[1..][k..];
      assert r == s[k + 1..];
      r
    else
      assert s == s[0..];
      s
  }

  function TrimEndBy(s: string, drop: char -> bool): (r: string)
    ensures |r| <= |s| && r == s[..|r|] && (r != [] ==> !drop(r[|r| - 1]))
  {
    if s != [] && drop(s[|s| - 1]) then TrimEndBy(s[..|s| - 1], drop) else s
  }

  function Trim(s: string): (r: string)
    ensures |r| <= |s| && forall c | c in r :: c in s
    ensures r != [] ==> !IsWhitespace(r[0]) && !IsWhitespace(r[|r| - 1])
  {
    TrimEndBy(TrimStart(s), IsWhitespace)
  }

  predicate Forbidden(c: char)
  {
    IsControl(c) || c in {'/', '\\', ':', '*', '?', '"', '<', '>', '|'}
  }

  /** A character every file system takes: printable, and none of the nine reserved ones. */
  ghost predicate Allowed(c: char)
  {
    (0x20 <= c as int < 0x7F || c as int > 0x9F) && c !in "/\\:*?\"<>|"
  }

  ghost predicate Safe(s: string) { forall c | c in s :: Allowed(c) }

  function Substituted(c: char): (r: char)
    ensures r == if Allowed(c) then c else '-'
  {
    if Forbidden(c) then '-' else c
  }

  /** The name without its "ZSL -" or "ZSL-" prefix, in any ASCII case. */
  function WithoutPrefix(trimmed: string): (r: string)
    ensures exists k :: 0 <= k <= |trimmed| && r == trimmed[k..]
  {
    var lower := ToAsciiLower(trimmed);
    if "zsl -" <= lower then trimmed[5..] else if "zsl-" <= lower then trimmed[4..]
    else
      assert trimmed == trimmed[0..];
      trimmed
  }

  function Mapped(s: string): (r: string)
    ensures |r| == |s| && Safe(r)
  {
    seq(|s|, i requires 0 <= i < |s| => Substituted(s[i]))
  }

  predicate IsDot(c: char) { c == '.' }

  function Title(name: string): string
  {
    Trim(TrimEndBy(Trim(Mapped(WithoutPrefix(Trim(name)))), IsDot))
  }

  function NormalizedStem(name: string): string
  {
    "ZSL - " + if Title(name) == [] then "Untitled" else Title(name)
  }

  /** A stem is the prefix and a title without forbidden characters or surrounding blanks. */
  lemma StemIsSafe(name: string)
    ensures var stem := NormalizedStem(name);
      && "ZSL - " <= stem && |stem| > 6 && Safe(stem)
      && !IsWhitespace(stem[6]) && !IsWhitespace(stem[|stem| - 1])
  {
    TitleIsSafe(name);
    LiteralsSafe();
    hide Title, IsWhitespace, Allowed;
    var title := if Title(name) == [] then "Untitled" else Title(name);
    var stem := NormalizedStem(name);
    assert stem == "ZSL - " + title;
    assert stem[6] == title[0] && stem[|stem| - 1] == title[|title| - 1];
  }

  lemma TitleIsSafe(name: string)
    ensures var title := Title(name);
      && Safe(title) && (title != [] ==> !IsWhitespace(title[0]) && !IsWhitespace(title[|title| - 1]))
  {
    hide Trim, TrimEndBy, Allowed, IsWhitespace, Mapped, WithoutPrefix;
    var mapped := Mapped(WithoutPrefix(Trim(name)));
    var dotted := TrimEndBy(Trim(mapped), IsDot);
    assert forall c | c in dotted :: c in Trim(mapped);
    assert forall c | c in Title(name) :: c in mapped;
  }

  lemma LiteralsSafe()
    ensures Safe("ZSL - ") && Safe("Untitled") && Safe(" - ")
    ensures !IsWhitespace('U') && !IsWhitespace('d')
  {
  }

  ghost predicate Unblank(s: string)
  {
    s != [] && !IsWhitespace(s[0]) && !IsWhitespace(s[|s| - 1])
  }

  /** The prefix of a name in one of its spellings, or none where the name has none. */
  ghost predicate PrefixOf(prefix: string, rest: string)
  {
    if prefix == "" then !("zsl -" <= ToAsciiLower(rest)) && !("zsl-" <= ToAsciiLower(rest))
    else ToAsciiLower(prefix) in {"zsl-", "zsl- ", "zsl -", "zsl - "}
  }

  lemma TrimUnblank(s: string)
    requires Unblank(s)
    ensures Trim(s) == s && Trim(" " + s) == s
  {
    assert IsWhitespace(' ') && !IsWhitespace(s[0]) && !IsWhitespace(s[|s| - 1]);
    hide IsWhitespace;
    assert (" " + s)[1..] == s;
  }

  lemma MappedUnblank(s: string)
    requires Unblank(s)
    ensures Unblank(Mapped(s)) && Mapped(" " + s) == " " + Mapped(s)
  {
    assert !IsWhitespace('-') && Allowed(' ');
    hide IsWhitespace, Allowed;
    assert (" " + s)[1..] == s;
  }

  lemma MappedSafe(s: string)
    requires Safe(s)
    ensures Mapped(s) == s
  {
    hide Allowed;
    forall i | 0 <= i < |s| ensures Mapped(s)[i] == s[i] {
      assert s[i] in s;
    }
  }

  /** However the prefix is spelled, or left out, what remains is the rest up to its final dots. */
  lemma TitleOf(prefix: string, rest: string)
    requires Unblank(rest) && PrefixOf(prefix, rest)
    ensures Title(prefix + rest) == Trim(TrimEndBy(Mapped(rest), IsDot))
  {
    hide IsWhitespace, Trim, TrimEndBy, WithoutPrefix, Mapped;
    PrefixComesOff(prefix, rest);
    MappedUnblank(rest);
    TrimUnblank(Mapped(rest));
  }

  lemma PrefixComesOff(prefix: string, rest: string)
    requires Unblank(rest) && PrefixOf(prefix, rest)
    ensures Trim(prefix + rest) == prefix + rest
    ensures WithoutPrefix(prefix + rest) in {rest, " " + rest}
  {
    hide IsWhitespace, Trim, ToAsciiLower;
    var name := prefix + rest;
    assert name[|prefix|..] == rest;
    if prefix == "" {
      TrimUnblank(rest);
      assert name == rest;
    } else {
      PrefixLetters(prefix, rest);
      assert name[0] == prefix[0] && name[|name| - 1] == rest[|rest| - 1];
      TrimUnblank(name);
      var k := if "zsl -" <= ToAsciiLower(name) then 5 else 4;
      assert name[k..] == prefix[k..] + rest && "" + rest == rest;
    }
  }

  lemma PrefixLetters(prefix: string, rest: string)
    requires ToAsciiLower(prefix) in {"zsl-", "zsl- ", "zsl -", "zsl - "}
    ensures 4 <= |prefix| && !IsWhitespace(prefix[0])
    ensures var lower := ToAsciiLower(prefix + rest);
      if "zsl -" <= lower then |prefix| >= 5 && prefix[5..] in {"", " "}
      else "zsl-" <= lower && prefix[4..] in {"", " "}
  {
    hide IsWhitespace;
    var lower, letters := ToAsciiLower(prefix + rest), ToAsciiLower(prefix);
    assert lower[..|letters|] == letters && AsciiLower(prefix[0]) == letters[0] == 'z';
    LettersUnblank(prefix[0]);
    if letters[3] == '-' {
      assert "zsl-" <= lower && lower[3] == '-';
      assert |prefix| == 5 ==> AsciiLower(prefix[4]) == letters[4] && prefix[4..] == " ";
      assert |prefix| == 4 ==> prefix[4..] == "";
    } else {
      assert "zsl -" <= lower;
      assert |prefix| == 6 ==> AsciiLower(prefix[5]) == letters[5] && prefix[5..] == " ";
      assert |prefix| == 5 ==> prefix[5..] == "";
    }
  }

  lemma LettersUnblank(c: char)
    requires AsciiLower(c) == 'z'
    ensures !IsWhitespace(c)
  {
  }

  /**
   A name is any spelling of the prefix, a core and final dots; its stem is the one spelling of the prefix
   and the core, every character that is not allowed replaced by a dash.
   */
  lemma StemOf(prefix: string, core: string, dots: string)
    requires Unblank(core) && core[|core| - 1] != '.' && (forall c | c in dots :: c == '.')
    requires PrefixOf(prefix, core + dots)
    ensures NormalizedStem(prefix + (core + dots)) == "ZSL - " + Mapped(core)
  {
    hide *;
    TitleUnblank(core, dots);
    TitleOf(prefix, core + dots);
    MappedDots(core, dots);
    MappedEnd(core);
    DotsComeOff(Mapped(core), dots);
    TrimUnblank(Mapped(core));
    StemIs(prefix + (core + dots));
  }

  lemma TitleUnblank(core: string, dots: string)
    requires Unblank(core) && forall c | c in dots :: c == '.'
    ensures Unblank(core + dots)
  {
    assert !IsWhitespace('.');
    hide IsWhitespace;
    assert dots != [] ==> dots[|dots| - 1] in dots;
  }

  lemma MappedEnd(core: string)
    requires Unblank(core) && core[|core| - 1] != '.'
    ensures Mapped(core) != [] && Mapped(core)[|core| - 1] != '.' && Unblank(Mapped(core))
  {
    MappedUnblank(core);
    hide IsWhitespace, Allowed;
  }

  lemma StemIs(name: string)
    ensures NormalizedStem(name) == "ZSL - " + if Title(name) == [] then "Untitled" else Title(name)
  {
  }

  /** A name that is no more than its prefix has no title. */
  lemma StemOfPrefix(name: string)
    requires ToAsciiLower(name) in {"", "zsl-", "zsl -"}
    ensures NormalizedStem(name) == "ZSL - Untitled"
  {
    PrefixAlone(name);
    NothingLeft();
    StemIs(name);
    hide ToAsciiLower, Trim, TrimEndBy, WithoutPrefix, Mapped;
  }

  lemma PrefixAlone(name: string)
    requires ToAsciiLower(name) in {"", "zsl-", "zsl -"}
    ensures WithoutPrefix(Trim(name)) == []
  {
    hide IsWhitespace;
    if name != [] {
      assert AsciiLower(name[0]) == ToAsciiLower(name)[0] == 'z';
      assert AsciiLower(name[|name| - 1]) == ToAsciiLower(name)[|name| - 1] == '-';
      LettersUnblank(name[0]);
      DashUnblank(name[|name| - 1]);
      TrimUnblank(name);
      assert "zsl -" <= ToAsciiLower(name) <==> ToAsciiLower(name) == "zsl -";
    }
  }

  lemma DashUnblank(c: char)
    requires AsciiLower(c) == '-'
    ensures !IsWhitespace(c)
  {
  }

  lemma NothingLeft()
    ensures Trim(TrimEndBy(Trim(Mapped([])), IsDot)) == []
  {
    assert Mapped([]) == [];
    hide IsWhitespace;
  }

  /** Normalizing a stem gives it back exactly when it does not end in a dot. */
  lemma NormalizedAgain(name: string)
    ensures var stem := NormalizedStem(name);
      stem != [] && (NormalizedStem(stem) == stem <==> stem[|stem| - 1] != '.')
  {
    TitleIsSafe(name);
    LiteralsSafe();
    StemIs(name);
    hide Safe, IsWhitespace, Title, NormalizedStem;
    var title := if Title(name) == [] then "Untitled" else Title(name);
    StemOfTitle(title);
    assert ("ZSL - " + title)[|"ZSL - " + title| - 1] == title[|title| - 1];
  }

  /** Some stem does: only the last run of dots comes off. */
  lemma DottedStem(name: string)
    requires name == ['a', '.', ' ', '.']
    ensures NormalizedStem(name) == "ZSL - " + ['a', '.']
  {
    DottedName(name);
    hide Safe, IsWhitespace, PrefixOf, Unblank, Title, NormalizedStem, Trim, TrimEndBy;
    assert "" + name == name;
    TitleOf("", name);
    MappedSafe(name);
    DottedTrim(name);
    StemIs(name);
  }

  lemma DottedName(name: string)
    requires name == ['a', '.', ' ', '.']
    ensures Safe(name) && Unblank(name) && PrefixOf("", name)
  {
    assert ToAsciiLower(name)[0] == 'a';
  }

  lemma DottedTrim(name: string)
    requires name == ['a', '.', ' ', '.']
    ensures Trim(TrimEndBy(name, IsDot)) == ['a', '.']
  {
    assert Unblank(['a', '.']);
    hide IsWhitespace, Trim, TrimEndBy;
    assert name == (['a', '.'] + " ") + ".";
    DotsComeOff(['a', '.'] + " ", ".");
    BlankComesOff(['a', '.']);
  }

  lemma BlankComesOff(s: string)
    requires Unblank(s)
    ensures Trim(s + " ") == s
  {
    assert IsWhitespace(' ') && !IsWhitespace(s[0]) && !IsWhitespace(s[|s| - 1]);
    hide IsWhitespace;
    var x := s + " ";
    assert x[0] == s[0] && x[|x| - 1] == ' ' && x[..|x| - 1] == s;
    assert TrimStart(x) == x;
    assert TrimEndBy(s, IsWhitespace) == s;
    assert TrimEndBy(x, IsWhitespace) == s;
  }

  lemma PrefixSpelled()
    ensures ToAsciiLower("ZSL - ") == "zsl - "
  {
  }

  lemma StemOfTitle(title: string)
    requires Safe(title) && Unblank(title)
    ensures NormalizedStem("ZSL - " + title) == "ZSL - " + title <==> title[|title| - 1] != '.'
  {
    PrefixSpelled();
    hide IsWhitespace, Safe, Title, NormalizedStem, ToAsciiLower, Mapped;
    TitleOf("ZSL - ", title);
    MappedSafe(title);
    StemIs("ZSL - " + title);
    TrimUnblank(title);
    var kept := Trim(TrimEndBy(title, IsDot));
    if title[|title| - 1] == '.' {
      assert |TrimEndBy(title, IsDot)| < |title|;
    }
    var shown := if kept == [] then "Untitled" else kept;
    assert ("ZSL - " + shown)[6..] == shown && ("ZSL - " + title)[6..] == title;
  }

  lemma MappedDots(core: string, dots: string)
    requires forall c | c in dots :: c == '.'
    ensures Mapped(core + dots) == Mapped(core) + dots
  {
    assert Allowed('.');
    hide Allowed;
    forall i | 0 <= i < |dots| ensures Mapped(core + dots)[|core| + i] == dots[i] {
      assert dots[i] in dots && (core + dots)[|core| + i] == dots[i];
    }
  }

  lemma {:induction false} DotsComeOff(core: string, dots: string)
    requires core != [] && core[|core| - 1] != '.' && forall c | c in dots :: c == '.'
    ensures TrimEndBy(core + dots, IsDot) == core
  {
    if dots == [] {
      assert core + dots == core;
    } else {
      var k := |dots| - 1;
      assert (core + dots)[..|core + dots| - 1] == core + dots[..k] && dots[k] in dots;
      assert forall c | c in dots[..k] :: c in dots;
      DotsComeOff(core, dots[..k]);
    }
  }

  // ---------------------------------------------------------------- collisions

  function Suffixed(stem: string, id: nat): string { stem + " - " + Decimal(id) }

  function Choose(level: Level, names: set<string>, lower: string -> string): string
  {
    var stem := NormalizedStem(level.name);
    if lower(stem) in names then Suffixed(stem, level.workshopId) else stem
  }

  /** One folder per level in order, or nothing when a suffixed name is taken as well. */
  function Stems(levels: seq<Level>, names: set<string>, lower: string -> string): Option<seq<string>>
  {
    if levels == [] then Some([])
    else
      var stem := Choose(levels[0], names, lower);
      if lower(stem) in names then None
      else
        var rest := Stems(levels[1..], names + {lower(stem)}, lower);
        if rest.None? then None else Some([stem] + rest.value)
  }

  /** No two folders of an archive coincide, even where the file system ignores case. */
  lemma {:induction false} StemsDistinct(levels: seq<Level>, names: set<string>, lower: string -> string)
    requires Stems(levels, names, lower).Some?
    ensures var stems := Stems(levels, names, lower).value;
      && |stems| == |levels|
      && (forall i | 0 <= i < |stems| :: lower(stems[i]) !in names && Safe(stems[i]))
      && (forall i | 0 <= i < |stems| ::
            var plain := NormalizedStem(levels[i].name);
            stems[i] == plain || stems[i] == Suffixed(plain, levels[i].workshopId))
      && (forall i, j | 0 <= i < j < |stems| :: lower(stems[i]) != lower(stems[j]))
  {
    hide NormalizedStem, Suffixed, Safe;
    if levels != [] {
      var stem := Choose(levels[0], names, lower);
      StemIsSafe(levels[0].name);
      SuffixedSafe(NormalizedStem(levels[0].name), levels[0].workshopId);
      StemsDistinct(levels[1..], names + {lower(stem)}, lower);
      assert forall i | 0 < i < |levels| :: levels[i] == levels[1..][i - 1];
    }
  }

  lemma SuffixedSafe(stem: string, id: nat)
    requires Safe(stem)
    ensures Safe(Suffixed(stem, id))
  {
    LiteralsSafe();
    NumeralDigits(id, 10);
    hide Numeral;
    assert Digits(Decimal(id));
  }

  predicate Taken(lowered: string, stems: seq<string>, names: set<string>, lower: string -> string)
  {
    lowered in names || exists j :: 0 <= j < |stems| && lower(stems[j]) == lowered
  }

  /** The workshop id is appended exactly where an earlier folder, ignoring case, has the plain name. */
  lemma {:induction false} SuffixOnCollision(levels: seq<Level>, names: set<string>, lower: string -> string, i: nat)
    requires Stems(levels, names, lower).Some? && i < |levels|
    ensures var stems := Stems(levels, names, lower).value;
      var plain := NormalizedStem(levels[i].name);
      && |stems| == |levels|
      && stems[i] == if Taken(lower(plain), stems[..i], names, lower)
                     then plain + " - " + Decimal(levels[i].workshopId) else plain
  {
    hide NormalizedStem, Decimal;
    StemsDistinct(levels, names, lower);
    var stems := Stems(levels, names, lower).value;
    if i > 0 {
      SuffixOnCollision(levels[1..], names + {lower(stems[0])}, lower, i - 1);
      var plain := lower(NormalizedStem(levels[i].name));
      var rest := stems[1..];
      assert stems[..i] == [stems[0]] + rest[..i - 1];
      TakenBeyondFirst(plain, stems[0], rest[..i - 1], names, lower);
    }
  }

  lemma TakenBeyondFirst(lowered: string, first: string, rest: seq<string>, names: set<string>, lower: string -> string)
    ensures Taken(lowered, [first] + rest, names, lower) <==> Taken(lowered, rest, names + {lower(first)}, lower)
  {
    var all := [first] + rest;
    if j :| 0 <= j < |rest| && lower(rest[j]) == lowered {
      assert lower(all[j + 1]) == lowered;
    }
    if lower(first) == lowered {
      assert lower(all[0]) == lowered;
    }
  }

  // ---------------------------------------------------------------- files

  datatype File = File(path: string, bytes: seq<Byte>)

  function LevelPath(stem: string): string { stem + "/" + (stem + ".zeeplevel") }
  function IndexPath(stem: string): string { stem + "/" + "indexdata.zeepindex" }
  function ThumbnailPath(stem: string): string { stem + "/" + (stem + "_Thumbnail.jpg") }

  function LevelFiles(level: Level, stem: string): seq<File>
  {
    [File(LevelPath(stem), level.level)]
    + (if level.index.Some? then [File(IndexPath(stem), level.index.value)] else [])
    + (if level.thumbnail.Some? then [File(ThumbnailPath(stem), level.thumbnail.value)] else [])
  }

  function Files(levels: seq<Level>, stems: seq<string>): seq<File>
    requires |stems| == |levels|
  {
    if levels == [] then []
    else Files(levels[..|levels| - 1], stems[..|levels| - 1]) + LevelFiles(levels[|levels| - 1], stems[|levels| - 1])
  }

  predicate DistinctPaths(files: seq<File>) { forall i, j | 0 <= i < j < |files| :: files[i].path != files[j].path }

  predicate Paths(f: File, stem: string)
  {
    f.path in {LevelPath(stem), IndexPath(stem), ThumbnailPath(stem)}
  }

  lemma LevelFilesPaths(level: Level, stem: string)
    ensures forall f | f in LevelFiles(level, stem) :: Paths(f, stem)
    ensures DistinctPaths(LevelFiles(level, stem))
  {
    LastLetters(stem);
    hide LevelPath, IndexPath, ThumbnailPath;
  }

  function LastOf(s: string): char { if s == [] then ' ' else s[|s| - 1] }

  lemma LastLetters(stem: string)
    ensures LastOf(LevelPath(stem)) == 'l' && LastOf(IndexPath(stem)) == 'x' && LastOf(ThumbnailPath(stem)) == 'g'
  {
  }

  lemma FolderIs(s: string, t: string, f: string, g: string)
    requires '/' !in s && '/' !in t && s + "/" + f == t + "/" + g
    ensures s == t && f == g
  {
    var x, y := s + "/" + f, t + "/" + g;
    assert x[|s|] == '/' && y[|t|] == '/';
    assert forall k | 0 <= k < |s| :: x[k] == s[k] && s[k] in s;
    assert forall k | 0 <= k < |t| :: y[k] == t[k] && t[k] in t;
    assert s == x[..|s|] && t == y[..|t|];
    assert f == x[|s| + 1..] && g == y[|t| + 1..];
  }

  /** What follows the folder of a path. */
  function FileName(f: File, stem: string): string
  {
    if f.path == LevelPath(stem) then stem + ".zeeplevel"
    else if f.path == IndexPath(stem) then "indexdata.zeepindex"
    else stem + "_Thumbnail.jpg"
  }

  lemma DifferentFolders(f: File, g: File, s: string, t: string)
    requires Paths(f, s) && Paths(g, t) && '/' !in s && '/' !in t && s != t
    ensures f.path != g.path
  {
    if f.path == g.path {
      FolderIs(s, t, FileName(f, s), FileName(g, t));
    }
  }

  ghost predicate PathOfSome(f: File, stems: seq<string>)
  {
    exists i :: 0 <= i < |stems| && Paths(f, stems[i])
  }

  lemma {:induction false} FilesDistinct(levels: seq<Level>, stems: seq<string>)
    requires |stems| == |levels| && Distinct(stems) && forall i | 0 <= i < |stems| :: '/' !in stems[i]
    ensures forall f | f in Files(levels, stems) :: PathOfSome(f, stems)
    ensures DistinctPaths(Files(levels, stems))
  {
    hide Paths, LevelFiles;
    if levels != [] {
      var k := |levels| - 1;
      var front, stem := stems[..k], stems[k];
      FilesDistinct(levels[..k], front);
      var old_, new_ := Files(levels[..k], front), LevelFiles(levels[k], stem);
      LevelFilesPaths(levels[k], stem);
      forall f, g | f in old_ && g in new_ ensures f.path != g.path {
        assert PathOfSome(f, front);
        var i :| 0 <= i < |front| && Paths(f, front[i]);
        DifferentFolders(f, g, front[i], stem);
      }
      forall f | f in old_ + new_ ensures PathOfSome(f, stems) {
        if f in old_ {
          assert PathOfSome(f, front);
          var i :| 0 <= i < |front| && Paths(f, front[i]);
          assert Paths(f, stems[i]);
        }
      }
      AppendDistinct(old_, new_);
    }
  }

  lemma AppendDistinct(a: seq<File>, b: seq<File>)
    requires DistinctPaths(a) && DistinctPaths(b)
    requires forall f, g | f in a && g in b :: f.path != g.path
    ensures DistinctPaths(a + b)
  {
    forall i, j | 0 <= i < j < |a + b| ensures (a + b)[i].path != (a + b)[j].path {
      if i < |a| <= j {
        assert a[i] in a && b[j - |a|] in b;
      }
    }
  }

  function Encoded(f: File): Entry { Entry(Encode(f.path), f.bytes) }

  function EncodedAll(files: seq<File>): (entries: seq<Entry>)
    ensures |entries| == |files| && forall i | 0 <= i < |files| :: entries[i] == Encoded(files[i])
  {
    seq(|files|, i requires 0 <= i < |files| => Encoded(files[i]))
  }

  lemma PathsEndWell(f: File, stem: string)
    requires Paths(f, stem)
    ensures NulFree(Encode(f.path))
  {
    LastLetters(stem);
    assert f.path == f.path[..|f.path| - 1] + [LastOf(f.path)];
    EncodeLast(f.path[..|f.path| - 1], LastOf(f.path));
  }

  // ---------------------------------------------------------------- the archive

  method Prepare(levels: seq<Level>, lower: string -> string) returns (r: Result<seq<File>, Failure>)
    ensures r.Ok? <==> Stems(levels, {}, lower).Some?
    ensures r.Ok? ==> |Stems(levels, {}, lower).value| == |levels|
    ensures r.Ok? ==> r.value == Files(levels, Stems(levels, {}, lower).value)
    ensures r.Err? ==> r.error == DuplicateName
  {
    hide NormalizedStem, Stems, Continue, Decimal, Files;
    StemsStart(levels, lower);
    var names: set<string>, entries: seq<File> := {}, [];
    ghost var stems: seq<string> := [];
    for i := 0 to |levels|
      invariant |stems| == i && entries == Files(levels[..i], stems)
      invariant Stems(levels, {}, lower) == Continue(stems, Stems(levels[i..], names, lower))
    {
      var level := levels[i];
      StemsStep(levels, i, names, lower, stems);
      var stem := NormalizedStem(level.name);
      if lower(stem) in names {
        stem := stem + " - " + Decimal(level.workshopId);
        if lower(stem) in names {
          return Err(DuplicateName);
        }
      }
      names := names + {lower(stem)};
      ghost var before := entries;
      entries := entries + [File(stem + "/" + (stem + ".zeeplevel"), level.level)];
      if level.index.Some? {
        entries := entries + [File(stem + "/" + "indexdata.zeepindex", level.index.value)];
      }
      if level.thumbnail.Some? {
        entries := entries + [File(stem + "/" + (stem + "_Thumbnail.jpg"), level.thumbnail.value)];
      }
      assert entries == before + LevelFiles(level, stem);
      stems := stems + [stem];
      assert stems[..i] + [stem] == stems && stems[..i] == stems[..|stems| - 1];
      FilesNext(levels, i, stems);
    }
    assert levels[..|levels|] == levels;
    StemsEnd(levels, names, lower, stems);
    return Ok(entries);
  }

  lemma FilesNext(levels: seq<Level>, i: nat, stems: seq<string>)
    requires i < |levels| && |stems| == i + 1
    ensures Files(levels[..i + 1], stems) == Files(levels[..i], stems[..i]) + LevelFiles(levels[i], stems[i])
  {
    hide LevelFiles;
    assert levels[..i + 1][..i] == levels[..i];
  }

  lemma StemsStart(levels: seq<Level>, lower: string -> string)
    ensures Files(levels[..0], []) == []
    ensures Stems(levels, {}, lower) == Continue([], Stems(levels[0..], {}, lower))
  {
    hide Stems;
    assert levels[0..] == levels;
    var all := Stems(levels, {}, lower);
    assert all.Some? ==> [] + all.value == all.value;
  }

  lemma StemsEnd(levels: seq<Level>, names: set<string>, lower: string -> string, stems: seq<string>)
    ensures Continue(stems, Stems(levels[|levels|..], names, lower)) == Some(stems)
  {
    hide Choose;
    assert stems + [] == stems;
  }

  lemma StemsStep(levels: seq<Level>, i: nat, names: set<string>, lower: string -> string, stems: seq<string>)
    requires i < |levels|
    ensures var stem := Choose(levels[i], names, lower);
      Continue(stems, Stems(levels[i..], names, lower)) ==
      if lower(stem) in names then None
      else Continue(stems + [stem], Stems(levels[i + 1..], names + {lower(stem)}, lower))
  {
    hide Choose;
    assert levels[i..][0] == levels[i] && levels[i..][1..] == levels[i + 1..];
    var stem := Choose(levels[i], names, lower);
    var rest := Stems(levels[i + 1..], names + {lower(stem)}, lower);
    assert rest.Some? ==> stems + ([stem] + rest.value) == stems + [stem] + rest.value;
  }

  ghost function Continue(stems: seq<string>, rest: Option<seq<string>>): Option<seq<string>>
  {
    if rest.None? then None else Some(stems + rest.value)
  }

  /** The files of the archive, paths encoded. */
  ghost function Prepared(levels: seq<Level>, lower: string -> string): seq<Entry>
    requires Stems(levels, {}, lower).Some?
  {
    StemsFacts(levels, lower);
    EncodedAll(Files(levels, Stems(levels, {}, lower).value))
  }

  /** No path is written twice, and none would be cut by the reader's trimming. */
  lemma PreparedFacts(levels: seq<Level>, lower: string -> string)
    requires Stems(levels, {}, lower).Some?
    ensures var entries := Prepared(levels, lower);
      && (forall e | e in entries :: NulFree(e.path))
      && (forall i, j | 0 <= i < j < |entries| :: entries[i].path != entries[j].path)
  {
    hide Stems, NulFree, Safe, EncodedAll, Files;
    StemsFacts(levels, lower);
    var stems := Stems(levels, {}, lower).value;
    assert Prepared(levels, lower) == EncodedAll(Files(levels, stems));
    PreparedEntries(levels, stems, lower);
  }

  lemma StemsFacts(levels: seq<Level>, lower: string -> string)
    requires Stems(levels, {}, lower).Some?
    ensures var stems := Stems(levels, {}, lower).value;
      && |stems| == |levels| && (forall i | 0 <= i < |stems| :: Safe(stems[i]))
      && (forall i, j | 0 <= i < j < |stems| :: lower(stems[i]) != lower(stems[j]))
  {
    StemsDistinct(levels, {}, lower);
    hide Stems, Safe;
  }

  lemma PreparedEntries(levels: seq<Level>, stems: seq<string>, lower: string -> string)
    requires |stems| == |levels| && forall i | 0 <= i < |stems| :: Safe(stems[i])
    requires forall i, j | 0 <= i < j < |stems| :: lower(stems[i]) != lower(stems[j])
    ensures var entries := EncodedAll(Files(levels, stems));
      && (forall e | e in entries :: NulFree(e.path))
      && (forall i, j | 0 <= i < j < |entries| :: entries[i].path != entries[j].path)
  {
    hide Files, Paths, NulFree, Encode;
    forall i | 0 <= i < |stems| ensures '/' !in stems[i] {
      assert !Allowed('/');
    }
    FilesDistinct(levels, stems);
    var files := Files(levels, stems);
    var entries := EncodedAll(files);
    forall e | e in entries ensures NulFree(e.path) {
      var i :| 0 <= i < |entries| && entries[i] == e;
      assert PathOfSome(files[i], stems);
      var s :| 0 <= s < |stems| && Paths(files[i], stems[s]);
      PathsEndWell(files[i], stems[s]);
    }
    forall i, j | 0 <= i < j < |entries| ensures entries[i].path != entries[j].path {
      EncodeInjective(files[i].path, files[j].path);
    }
  }

  /** One of the files of a level: which bytes stand under which path of its folder. */
  ghost predicate FileOf(path: string, bytes: seq<Byte>, level: Level, stem: string)
  {
    || (path == stem + "/" + stem + ".zeeplevel" && bytes == level.level)
    || (path == stem + "/" + "indexdata.zeepindex" && level.index == Some(bytes))
    || (path == stem + "/" + stem + "_Thumbnail.jpg" && level.thumbnail == Some(bytes))
  }

  /** The entries are exactly the files of the levels, each level in its own folder. */
  ghost predicate Holds(entries: seq<Entry>, levels: seq<Level>, stems: seq<string>)
    requires |stems| == |levels|
  {
    && (forall i, path, bytes | 0 <= i < |levels| && FileOf(path, bytes, levels[i], stems[i]) ::
          Entry(Encode(path), bytes) in entries)
    && (forall e | e in entries :: exists i, path ::
          0 <= i < |levels| && FileOf(path, e.bytes, levels[i], stems[i]) && e.path == Encode(path))
  }

  lemma LevelFilesMean(path: string, bytes: seq<Byte>, level: Level, stem: string)
    ensures FileOf(path, bytes, level, stem) <==> File(path, bytes) in LevelFiles(level, stem)
  {
    assert stem + "/" + (stem + ".zeeplevel") == stem + "/" + stem + ".zeeplevel";
    assert stem + "/" + (stem + "_Thumbnail.jpg") == stem + "/" + stem + "_Thumbnail.jpg";
  }

  lemma {:induction false} FilesMean(f: File, levels: seq<Level>, stems: seq<string>)
    requires |stems| == |levels|
    ensures f in Files(levels, stems) <==>
            exists i :: 0 <= i < |levels| && FileOf(f.path, f.bytes, levels[i], stems[i])
  {
    hide FileOf, LevelFiles;
    if levels != [] {
      var k := |levels| - 1;
      FilesMean(f, levels[..k], stems[..k]);
      LevelFilesMean(f.path, f.bytes, levels[k], stems[k]);
      assert f == File(f.path, f.bytes);
      if i :| 0 <= i < |levels| && FileOf(f.path, f.bytes, levels[i], stems[i]) {
        assert i < k ==> FileOf(f.path, f.bytes, levels[..k][i], stems[..k][i]);
      }
      if f in Files(levels[..k], stems[..k]) {
        var i :| 0 <= i < k && FileOf(f.path, f.bytes, levels[..k][i], stems[..k][i]);
        assert FileOf(f.path, f.bytes, levels[i], stems[i]);
      }
    }
  }

  lemma EntriesMean(levels: seq<Level>, stems: seq<string>)
    requires |stems| == |levels|
    ensures Holds(EncodedAll(Files(levels, stems)), levels, stems)
  {
    hide FileOf, Files, Encode;
    var files := Files(levels, stems);
    var entries := EncodedAll(files);
    forall i, path, bytes | 0 <= i < |levels| && FileOf(path, bytes, levels[i], stems[i])
      ensures Entry(Encode(path), bytes) in entries
    {
      var f := File(path, bytes);
      FilesMean(f, levels, stems);
      var k :| 0 <= k < |files| && files[k] == f;
      assert entries[k] == Encoded(f);
    }
    forall e | e in entries
      ensures exists i, path :: 0 <= i < |levels| && FileOf(path, e.bytes, levels[i], stems[i]) && e.path == Encode(path)
    {
      var k :| 0 <= k < |entries| && entries[k] == e;
      FilesMean(files[k], levels, stems);
      assert e == Encoded(files[k]) && files[k] in files;
    }
  }

  /**
   Fails exactly when a suffixed folder is taken; otherwise the blocks read back as the levels' files, in
   order, under distinct paths.
   */
  method BuildArchive(levels: seq<Level>, lower: string -> string) returns (r: Result<seq<Byte>, Failure>)
    requires Stems(levels, {}, lower).Some? ==> forall e | e in Prepared(levels, lower) :: Writable(e)
    ensures r.Ok? <==> Stems(levels, {}, lower).Some?
    ensures r.Err? ==> r.error == DuplicateName
    ensures r.Ok? ==> ReadArchive(r.value) == Some(Prepared(levels, lower)) && |r.value| % 512 == 0
    ensures r.Ok? ==> var stems := Stems(levels, {}, lower).value;
                      |stems| == |levels| && Holds(Prepared(levels, lower), levels, stems)
    ensures r.Ok? ==> forall i, j | 0 <= i < j < |Prepared(levels, lower)| ::
                        Prepared(levels, lower)[i].path != Prepared(levels, lower)[j].path
  {
    hide Stems, Files, Writable, NulFree, IsTar, ReadArchive, Encode, AllStored, NeedsPax, Holds;
    var prepared := Prepare(levels, lower);
    if prepared.Err? {
      return Err(prepared.error);
    }
    var files := prepared.value;
    ghost var entries := Prepared(levels, lower);
    PreparedFacts(levels, lower);
    assert entries == EncodedAll(files);
    EntriesMean(levels, Stems(levels, {}, lower).value);
    var gzip := new Output();
    NoFiles();
    for i := 0 to |files|
      invariant fresh(gzip) && IsTar(gzip.data, AllStored(entries[..i]))
    {
      assert entries[i] in entries;
      WriteFile(gzip, Encoded(files[i]), entries[..i]);
      assert entries[..i + 1] == entries[..i] + [entries[i]];
    }
    assert entries[..|files|] == entries;
    ghost var data := gzip.data;
    gzip.WriteAll(Zeros(1024));
    ArchiveRoundTrip(data, entries);
    TarIsWholeBlocks(data, AllStored(entries));
    return Ok(gzip.data);
  }

  lemma NoFiles()
    ensures IsTar([], AllStored([]))
  {
  }

  /** Both names fit the header field, so neither write is refused. */
  method WriteFile(gzip: Output, e: Entry, ghost before: seq<Entry>)
    requires Writable(e) && IsTar(gzip.data, AllStored(before))
    modifies gzip
    ensures IsTar(gzip.data, AllStored(before + [e]))
  {
    hide IsTar, Pow, IsRecord, PaxRecord;
    assert (before + [e])[..|before|] == before;
    var needsPax := |e.path| > NAME_LIMIT || exists x | x in e.path :: x >= 0x80;
    assert needsPax <==> NeedsPax(e.path);
    ghost var start := gzip.data;
    ghost var stored := AllStored(before);
    if needsPax {
      var pax := PaxPath(e.path);
      var ok := gzip.WriteEntry(PAX_NAME, pax, PAX);
      TarAppend(start, stored, gzip.data[|start|..], Record(PAX_NAME, pax, PAX));
      assert start + gzip.data[|start|..] == gzip.data;
      stored := stored + [Record(PAX_NAME, pax, PAX)];
    }
    ghost var middle := gzip.data;
    var name := if needsPax then FILE_NAME else e.path;
    var ok := gzip.WriteEntry(name, e.bytes, FILE);
    TarAppend(middle, stored, gzip.data[|middle|..], Record(name, e.bytes, FILE));
    assert middle + gzip.data[|middle|..] == gzip.data;
    assert stored + [Record(name, e.bytes, FILE)] == AllStored(before) + Stored(e);
  }
}
