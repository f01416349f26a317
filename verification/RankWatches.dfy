/**
 Which rank movements a watch shows (`for_watches` in crates/discord/src/rank.rs): a sort and a sweep
 over closed rank intervals, proved to select whole overlap components.
 */
module RankWatches {
  import opened Sorting
  import opened Reachability

  datatype RankChange = RankChange(idUser: int, previousRank: int, rank: int)

  ghost predicate ValidRank(rank: int) { rank == -1 || rank > 0 }

  /** What `changes` lets through to every caller. */
  ghost predicate ValidChange(c: RankChange)
  {
    c.idUser > 0 && ValidRank(c.previousRank) && ValidRank(c.rank) && c.previousRank != c.rank
  }

  /** By the rank reached, the exits last, and by user. */
  ghost predicate RowOrder(a: RankChange, b: RankChange)
  {
    if a.rank == b.rank then a.idUser <= b.idUser else b.rank == -1 || (a.rank != -1 && a.rank < b.rank)
  }

  const I64_MAX: int := 0x7FFF_FFFF_FFFF_FFFF

  /** The sort key of `changes`. */
  predicate KeyBelow(a: RankChange, b: RankChange)
  {
    var x, y := if a.rank == -1 then I64_MAX else a.rank, if b.rank == -1 then I64_MAX else b.rank;
    x < y || (x == y && a.idUser <= b.idUser)
  }

  /** The valid changes of a batch, those that parsed, in the order the rows are shown. */
  method Changes(parsed: seq<RankChange>) returns (changes: seq<RankChange>)
    requires forall c | c in parsed :: c.rank < I64_MAX
    ensures forall c :: multiset(changes)[c] == if ValidChange(c) then multiset(parsed)[c] else 0
    ensures forall i, j | 0 <= i < j < |changes| :: RowOrder(changes[i], changes[j])
  {
    changes := [];
    for i := 0 to |parsed|
      invariant forall c :: multiset(changes)[c] == if ValidChange(c) then multiset(parsed[..i])[c] else 0
    {
      var c := parsed[i];
      assert parsed[..i + 1] == parsed[..i] + [c];
      if c.idUser > 0 && (c.previousRank == -1 || c.previousRank > 0) && (c.rank == -1 || c.rank > 0)
         && c.previousRank != c.rank {
        changes := changes + [c];
      }
    }
    assert parsed[..|parsed|] == parsed;
    SortSorted(changes, KeyBelow);
    ghost var kept := changes;
    changes := Sort(changes, KeyBelow);
    forall i, j | 0 <= i < j < |changes| ensures RowOrder(changes[i], changes[j]) {
      assert KeyBelow(changes[i], changes[j]);
      assert changes[i] in multiset(changes) && changes[j] in multiset(changes);
      assert changes[i] in multiset(parsed) && changes[j] in multiset(parsed);
    }
  }

  /** The closed interval of ranks a change spans; an entry or an exit is a single point. */
  function Low(c: RankChange): int
  {
    if c.previousRank == -1 then c.rank else if c.rank == -1 then c.previousRank
    else if c.previousRank <= c.rank then c.previousRank else c.rank
  }

  function High(c: RankChange): int
  {
    if c.previousRank == -1 then c.rank else if c.rank == -1 then c.previousRank
    else if c.previousRank >= c.rank then c.previousRank else c.rank
  }

  ghost predicate Mover(c: RankChange) { c.previousRank > 0 && c.rank > 0 }

  // ---------------------------------------------------------------- the declarative meaning

  /** A change covers the rank it enters or leaves at, or every rank from the one to the other, either way. */
  ghost predicate Covers(c: RankChange, r: int)
  {
    if c.previousRank == -1 then r == c.rank
    else if c.rank == -1 then r == c.previousRank
    else c.previousRank <= r <= c.rank || c.rank <= r <= c.previousRank
  }

  ghost predicate Overlap(a: RankChange, b: RankChange) { exists r :: Covers(a, r) && Covers(b, r) }

  lemma IntervalMeans(c: RankChange, r: int)
    ensures Low(c) <= r <= High(c) <==> Covers(c, r)
  {
  }

  /** Two changes share a rank exactly when neither interval ends before the other starts. */
  lemma OverlapMeans(a: RankChange, b: RankChange)
    ensures Low(a) <= High(b) && Low(b) <= High(a) <==> Overlap(a, b)
  {
    if Low(a) <= High(b) && Low(b) <= High(a) {
      var r := if Low(a) <= Low(b) then Low(b) else Low(a);
      assert Covers(a, r) && Covers(b, r);
    }
  }

  ghost function Overlaps(changes: seq<RankChange>): (RankChange, RankChange) -> bool
  {
    (a, b) => a in changes && b in changes && Overlap(a, b)
  }

  /** A watched player who moved between two ranks, in the same chain of overlapping movements as `c`. */
  ghost predicate Related(changes: seq<RankChange>, watched: set<int>, c: RankChange)
  {
    exists m :: m in changes && m.idUser in watched && Mover(m) && Connected(Overlaps(changes), m, c)
  }

  ghost predicate Kept(changes: seq<RankChange>, watched: set<int>, user: int)
  {
    user in watched || exists c :: c in changes && c.idUser == user && Related(changes, watched, c)
  }

  /** The first change of every kept user, in the original order. */
  ghost function FirstKept(changes: seq<RankChange>, keep: int -> bool, seen: set<int>): seq<RankChange>
  {
    if changes == [] then []
    else if keep(changes[0].idUser) && changes[0].idUser !in seen then
      [changes[0]] + FirstKept(changes[1..], keep, seen + {changes[0].idUser})
    else FirstKept(changes[1..], keep, seen)
  }

  // ---------------------------------------------------------------- the sweep

  predicate KeyLeq(a: RankChange, b: RankChange)
  {
    Low(a) < Low(b) || (Low(a) == Low(b) && (High(a) < High(b) || (High(a) == High(b) && a.idUser <= b.idUser)))
  }

  lemma KeyOrder()
    ensures TotalPreorder(KeyLeq)
  {
    hide Low, High;
  }

  ghost predicate Ids(iv: seq<RankChange>, from: nat, to: nat, ids: seq<int>)
    requires from <= to <= |iv|
  {
    |ids| == to - from && forall i | 0 <= i < to - from :: ids[i] == iv[from + i].idUser
  }

  lemma IdsMembers(iv: seq<RankChange>, from: nat, to: nat, ids: seq<int>)
    requires from <= to <= |iv| && Ids(iv, from, to, ids)
    ensures forall u :: u in ids <==> exists i :: from <= i < to && iv[i].idUser == u
  {
    forall u ensures u in ids <==> exists i :: from <= i < to && iv[i].idUser == u {
      if exists i :: from <= i < to && iv[i].idUser == u {
        var i :| from <= i < to && iv[i].idUser == u;
        assert ids[i - from] == u;
      }
    }
  }

  /** `iv[from..n]` is the open group; everything before it is decided. */
  ghost predicate Sweeping(changes: seq<RankChange>, watched: set<int>, iv: seq<RankChange>, from: nat, n: nat,
                           end: int, groupWatched: bool, selected: set<int>)
  {
    && from <= n <= |iv| && (n > 0 ==> from < n)
    && Reaches(iv, from, n, end)
    && Gap(iv, from)
    && Chained(changes, iv, from, n)
    && (groupWatched <==> HoldsWatched(watched, iv, from, n))
    && Decided(changes, watched, iv, from, selected)
  }

  ghost predicate Reaches(iv: seq<RankChange>, from: nat, n: nat, end: int)
    requires from <= n <= |iv|
  {
    && (forall i | from <= i < n :: High(iv[i]) <= end)
    && (if n == 0 then end == 0 else exists i :: from <= i < n && High(iv[i]) == end)
  }

  ghost predicate Gap(iv: seq<RankChange>, n: nat)
    requires n <= |iv|
  {
    forall i, j | 0 <= i < n <= j < |iv| :: High(iv[i]) < Low(iv[j])
  }

  ghost predicate Chained(changes: seq<RankChange>, iv: seq<RankChange>, from: nat, n: nat)
    requires from <= n <= |iv|
  {
    forall i | from <= i < n :: Connected(Overlaps(changes), iv[from], iv[i])
  }

  ghost predicate HoldsWatched(watched: set<int>, iv: seq<RankChange>, from: nat, n: nat)
    requires from <= n <= |iv|
  {
    exists i :: from <= i < n && iv[i].idUser in watched && Mover(iv[i])
  }

  ghost predicate Decided(changes: seq<RankChange>, watched: set<int>, iv: seq<RankChange>, n: nat, selected: set<int>)
    requires n <= |iv|
  {
    forall u :: u in selected <==>
                (u in watched || exists i :: 0 <= i < n && iv[i].idUser == u && Related(changes, watched, iv[i]))
  }

  ghost predicate Arranged(changes: seq<RankChange>, iv: seq<RankChange>)
  {
    && Sorted(iv, KeyLeq) && (forall c :: c in iv <==> c in changes)
    && forall c | c in changes :: ValidChange(c)
  }

  lemma LowAscending(iv: seq<RankChange>, changes: seq<RankChange>)
    requires Arranged(changes, iv)
    ensures forall i, j | 0 <= i <= j < |iv| :: Low(iv[i]) <= Low(iv[j])
    ensures forall i | 0 <= i < |iv| :: 0 < Low(iv[i]) <= High(iv[i])
  {
    forall i, j | 0 <= i <= j < |iv| ensures Low(iv[i]) <= Low(iv[j]) {
      assert i < j ==> KeyLeq(iv[i], iv[j]);
    }
    forall i | 0 <= i < |iv| ensures 0 < Low(iv[i]) <= High(iv[i]) {
      assert ValidChange(iv[i]);
    }
  }

  lemma OverlapSymmetric(changes: seq<RankChange>)
    ensures Symmetric(Overlaps(changes))
  {
    hide Covers;
  }

  /** A gap after the open group: its members are related exactly when one of them is a watched mover. */
  lemma CloseGroup(changes: seq<RankChange>, watched: set<int>, iv: seq<RankChange>, from: nat, n: nat,
                   end: int, groupWatched: bool, selected: set<int>, group: seq<int>)
    requires Arranged(changes, iv) && Sweeping(changes, watched, iv, from, n, end, groupWatched, selected)
    requires n < |iv| ==> Low(iv[n]) > end
    requires Ids(iv, from, n, group)
    ensures Decided(changes, watched, iv, n, if groupWatched then selected + set u | u in group else selected)
    ensures Gap(iv, n)
  {
    GapAfter(changes, iv, from, n, end);
    hide Arranged, Reaches, Gap, Chained, HoldsWatched, Decided, Related;
    GroupClosed(changes, iv, from, n);
    assert forall c :: c in iv <==> c in changes by { ArrangedElements(changes, iv); }
    forall i | from <= i < n ensures Related(changes, watched, iv[i]) <==> groupWatched {
      GroupMember(changes, watched, iv, from, n, groupWatched, i);
    }
    Decide(changes, watched, iv, from, n, groupWatched, selected, group);
  }

  lemma GapAfter(changes: seq<RankChange>, iv: seq<RankChange>, from: nat, n: nat, end: int)
    requires Arranged(changes, iv) && from <= n <= |iv| && Reaches(iv, from, n, end) && Gap(iv, from)
    requires n < |iv| ==> Low(iv[n]) > end
    ensures Gap(iv, n)
  {
    LowAscending(iv, changes);
    hide Low, High, Arranged;
    forall i, j | 0 <= i < n <= j < |iv| ensures High(iv[i]) < Low(iv[j]) {
      if i >= from {
        assert High(iv[i]) <= end < Low(iv[n]) <= Low(iv[j]);
      }
    }
  }

  lemma Decide(changes: seq<RankChange>, watched: set<int>, iv: seq<RankChange>, from: nat, n: nat,
               groupWatched: bool, selected: set<int>, group: seq<int>)
    requires from <= n <= |iv| && Decided(changes, watched, iv, from, selected) && Ids(iv, from, n, group)
    requires forall i | from <= i < n :: Related(changes, watched, iv[i]) <==> groupWatched
    ensures Decided(changes, watched, iv, n, if groupWatched then selected + set u | u in group else selected)
  {
    hide Related;
    IdsMembers(iv, from, n, group);
    var after := if groupWatched then selected + set u | u in group else selected;
    forall u ensures u in after <==>
                     (u in watched || exists i :: 0 <= i < n && iv[i].idUser == u && Related(changes, watched, iv[i]))
    {
      if u in group && groupWatched {
        var i :| from <= i < n && iv[i].idUser == u;
        assert Related(changes, watched, iv[i]);
      }
    }
  }

  lemma GroupClosed(changes: seq<RankChange>, iv: seq<RankChange>, from: nat, n: nat)
    requires Arranged(changes, iv) && from <= n <= |iv|
    requires Gap(iv, from)
    requires Gap(iv, n)
    ensures Closed(Overlaps(changes), set c | c in iv[from..n])
  {
    hide Low, High, KeyLeq, Overlap;
    var rel, members := Overlaps(changes), set c | c in iv[from..n];
    forall u, v | u in members && rel(u, v) ensures v in members {
      var i :| 0 <= i < n - from && iv[from..n][i] == u;
      var j :| 0 <= j < |iv| && iv[j] == v;
      assert iv[from + i] == u && Overlap(iv[from + i], iv[j]);
      OverlapMeans(iv[from + i], iv[j]);
      assert from <= j < n;
      assert iv[from..n][j - from] == v;
    }
  }

  lemma GroupMember(changes: seq<RankChange>, watched: set<int>, iv: seq<RankChange>, from: nat, n: nat,
                    groupWatched: bool, i: nat)
    requires from <= i < n <= |iv| && forall c :: c in iv <==> c in changes
    requires Closed(Overlaps(changes), set c | c in iv[from..n])
    requires Chained(changes, iv, from, n)
    requires groupWatched <==> HoldsWatched(watched, iv, from, n)
    ensures Related(changes, watched, iv[i]) <==> groupWatched
  {
    hide Overlap, Connected, Closed, Mover;
    var rel, members := Overlaps(changes), set c | c in iv[from..n];
    OverlapSymmetric(changes);
    if groupWatched {
      var k :| from <= k < n && iv[k].idUser in watched && Mover(iv[k]);
      ConnectedSymmetric(rel, iv[from], iv[k]);
      ConnectedTransitive(rel, iv[k], iv[from], iv[i]);
      assert iv[k] in changes;
    }
    if Related(changes, watched, iv[i]) {
      var m :| m in changes && m.idUser in watched && Mover(m) && Connected(rel, m, iv[i]);
      ConnectedSymmetric(rel, m, iv[i]);
      assert iv[from..n][i - from] == iv[i];
      ClosedReach(rel, members, iv[i]);
      assert m in iv[from..n];
      var k :| 0 <= k < n - from && iv[from..n][k] == m;
      assert iv[from + k] == m;
    }
  }

  /** The next interval starts inside the open group: it overlaps the member that reaches furthest. */
  lemma JoinGroup(changes: seq<RankChange>, watched: set<int>, iv: seq<RankChange>, from: nat, n: nat,
                  end: int, groupWatched: bool, selected: set<int>)
    requires Arranged(changes, iv) && Sweeping(changes, watched, iv, from, n, end, groupWatched, selected)
    requires n < |iv| && Low(iv[n]) <= end
    ensures Sweeping(changes, watched, iv, from, n + 1, if High(iv[n]) > end then High(iv[n]) else end,
                     groupWatched || (iv[n].idUser in watched && Mover(iv[n])), selected)
  {
    hide Arranged, Reaches, Gap, Chained, HoldsWatched, Decided, Low, High, Mover;
    OpenIsNonEmpty(changes, iv, from, n, end);
    ReachesFurther(iv, from, n, end);
    JoinChain(changes, iv, from, n, end);
    HoldsMore(watched, iv, from, n);
  }

  lemma OpenIsNonEmpty(changes: seq<RankChange>, iv: seq<RankChange>, from: nat, n: nat, end: int)
    requires Arranged(changes, iv) && from <= n < |iv| && Low(iv[n]) <= end && Reaches(iv, from, n, end)
    ensures from < n
  {
    LowAscending(iv, changes);
    hide Low, High, Arranged;
  }

  lemma ReachesFurther(iv: seq<RankChange>, from: nat, n: nat, end: int)
    requires from < n < |iv| && Reaches(iv, from, n, end)
    ensures Reaches(iv, from, n + 1, if High(iv[n]) > end then High(iv[n]) else end)
  {
    hide Low, High;
    var k :| from <= k < n && High(iv[k]) == end;
    assert High(iv[if High(iv[n]) > end then n else k]) == if High(iv[n]) > end then High(iv[n]) else end;
  }

  lemma JoinChain(changes: seq<RankChange>, iv: seq<RankChange>, from: nat, n: nat, end: int)
    requires Arranged(changes, iv) && from < n < |iv| && Low(iv[n]) <= end
    requires Reaches(iv, from, n, end) && Chained(changes, iv, from, n)
    ensures Chained(changes, iv, from, n + 1)
  {
    LowAscending(iv, changes);
    ArrangedElements(changes, iv);
    hide Low, High, Arranged, Connected, Overlaps;
    var k :| from <= k < n && High(iv[k]) == end;
    Joins(changes, iv, from, n, k);
  }

  lemma HoldsMore(watched: set<int>, iv: seq<RankChange>, from: nat, n: nat)
    requires from <= n < |iv|
    ensures HoldsWatched(watched, iv, from, n + 1) <==>
            (HoldsWatched(watched, iv, from, n) || (iv[n].idUser in watched && Mover(iv[n])))
  {
    hide Mover;
    if iv[n].idUser in watched && Mover(iv[n]) {
      assert HoldsWatched(watched, iv, from, n + 1);
    }
    if HoldsWatched(watched, iv, from, n) {
      var i :| from <= i < n && iv[i].idUser in watched && Mover(iv[i]);
      assert HoldsWatched(watched, iv, from, n + 1);
    }
  }

  lemma ArrangedElements(changes: seq<RankChange>, iv: seq<RankChange>)
    requires Arranged(changes, iv)
    ensures forall c :: c in iv <==> c in changes
  {
  }

  lemma Joins(changes: seq<RankChange>, iv: seq<RankChange>, from: nat, n: nat, k: nat)
    requires from <= k < n < |iv| && forall c :: c in iv <==> c in changes
    requires Connected(Overlaps(changes), iv[from], iv[k])
    requires Low(iv[k]) <= Low(iv[n]) <= High(iv[k]) && Low(iv[n]) <= High(iv[n])
    ensures Connected(Overlaps(changes), iv[from], iv[n])
  {
    OverlapMeans(iv[k], iv[n]);
    hide Low, High, Connected, Overlap;
    ConnectedExtend(Overlaps(changes), iv[from], iv[k], iv[n]);
  }

  /** The next interval starts a group of its own. */
  lemma OpenGroup(changes: seq<RankChange>, watched: set<int>, iv: seq<RankChange>, n: nat, selected: set<int>)
    requires Arranged(changes, iv) && n < |iv| && Decided(changes, watched, iv, n, selected)
    requires Gap(iv, n)
    ensures Sweeping(changes, watched, iv, n, n + 1, High(iv[n]), iv[n].idUser in watched && Mover(iv[n]), selected)
  {
    hide Low, High, KeyLeq, Connected, ValidChange, Mover, Decided;
    ConnectedSelf(Overlaps(changes), iv[n]);
  }

  method Select(changes: seq<RankChange>, watched: set<int>) returns (selected: set<int>)
    requires forall c | c in changes :: ValidChange(c)
    ensures forall u :: u in selected <==> Kept(changes, watched, u)
  {
    hide Low, High, KeyLeq, Sweeping, Related, ValidChange, Decided, Sorted;
    var iv := Sort(changes, KeyLeq);
    KeyOrder();
    SortSorted(changes, KeyLeq);
    SortKeepsElements(changes, KeyLeq);
    selected := watched;
    var group: seq<int> := [];
    var end, groupWatched := 0, false;
    ghost var from := 0;
    Begin(changes, watched, iv);
    for n := 0 to |iv|
      invariant Sweeping(changes, watched, iv, from, n, end, groupWatched, selected)
      invariant from <= n && Ids(iv, from, n, group)
    {
      var c := iv[n];
      if Low(c) > end {
        CloseGroup(changes, watched, iv, from, n, end, groupWatched, selected, group);
        if groupWatched {
          selected := selected + set u | u in group;
        }
        group := [];
        OpenGroup(changes, watched, iv, n, selected);
        groupWatched := false;
        end := High(c);
        from := n;
      } else {
        JoinGroup(changes, watched, iv, from, n, end, groupWatched, selected);
        end := if High(c) > end then High(c) else end;
      }
      // An entry or an exit selects its own row only, without its group.
      groupWatched := groupWatched || (c.idUser in watched && c.previousRank > 0 && c.rank > 0);
      group := group + [c.idUser];
    }
    CloseGroup(changes, watched, iv, from, |iv|, end, groupWatched, selected, group);
    if groupWatched {
      selected := selected + set u | u in group;
    }
    DecidedAll(changes, watched, iv, selected);
  }

  lemma Begin(changes: seq<RankChange>, watched: set<int>, iv: seq<RankChange>)
    ensures Sweeping(changes, watched, iv, 0, 0, 0, false, watched)
  {
  }

  lemma DecidedAll(changes: seq<RankChange>, watched: set<int>, iv: seq<RankChange>, selected: set<int>)
    requires Decided(changes, watched, iv, |iv|, selected) && forall c :: c in iv <==> c in changes
    ensures forall u :: u in selected <==> Kept(changes, watched, u)
  {
    hide Related;
    forall u ensures u in selected <==> Kept(changes, watched, u) {
      if Kept(changes, watched, u) && u !in watched {
        var c :| c in changes && c.idUser == u && Related(changes, watched, c);
        var i :| 0 <= i < |iv| && iv[i] == c;
      }
    }
  }

  /** The first change of every user the watch keeps, in the original order, and nothing else. */
  method ForWatches(changes: seq<RankChange>, watched: set<int>) returns (out: seq<RankChange>)
    requires forall c | c in changes :: ValidChange(c)
    ensures out == FirstKept(changes, u => Kept(changes, watched, u), {})
  {
    hide ValidChange, Kept;
    var selected := Select(changes, watched);
    ghost var keep := u => Kept(changes, watched, u);
    out := [];
    var seen: set<int> := {};
    for i := 0 to |changes|
      invariant FirstKept(changes, keep, {}) == out + FirstKept(changes[i..], keep, seen)
    {
      var c := changes[i];
      assert changes[i..][0] == c && changes[i..][1..] == changes[i + 1..];
      if c.idUser in selected && c.idUser !in seen {
        seen := seen + {c.idUser};
        out := out + [c];
      }
    }
  }

  // ---------------------------------------------------------------- what watching means

  /** Each kept user appears exactly once, with a change of theirs. */
  lemma {:induction false} FirstKeptUsers(changes: seq<RankChange>, keep: int -> bool, seen: set<int>)
    ensures var out := FirstKept(changes, keep, seen);
      && (forall c | c in out :: c in changes && keep(c.idUser) && c.idUser !in seen)
      && (forall c | c in changes && keep(c.idUser) && c.idUser !in seen :: Shows(out, c.idUser))
      && (forall i, j | 0 <= i < j < |out| :: out[i].idUser != out[j].idUser)
  {
    if changes != [] {
      var c, rest := changes[0], changes[1..];
      assert forall d :: d in changes <==> d == c || d in rest;
      if keep(c.idUser) && c.idUser !in seen {
        FirstKeptUsers(rest, keep, seen + {c.idUser});
        FirstThenRest(c, FirstKept(rest, keep, seen + {c.idUser}));
      } else {
        FirstKeptUsers(rest, keep, seen);
      }
    }
  }

  ghost predicate Shows(out: seq<RankChange>, user: int)
  {
    exists d :: d in out && d.idUser == user
  }

  lemma FirstThenRest(c: RankChange, tail: seq<RankChange>)
    requires forall d | d in tail :: d.idUser != c.idUser
    requires forall i, j | 0 <= i < j < |tail| :: tail[i].idUser != tail[j].idUser
    ensures var out := [c] + tail;
      && (forall d :: d in out <==> d == c || d in tail)
      && (forall u :: Shows(out, u) <==> u == c.idUser || Shows(tail, u))
      && (forall i, j | 0 <= i < j < |out| :: out[i].idUser != out[j].idUser)
  {
    var out := [c] + tail;
    assert forall d :: d in out <==> d == c || d in tail;
    forall i, j | 0 <= i < j < |out| ensures out[i].idUser != out[j].idUser {
      assert out[j] == tail[j - 1] && tail[j - 1] in tail;
    }
  }

  lemma WatchingMoreKeepsMore(changes: seq<RankChange>, watched: set<int>, more: set<int>)
    requires watched <= more
    ensures forall u | Kept(changes, watched, u) :: Kept(changes, more, u)
  {
    hide Connected, Overlaps, Mover;
    forall u | Kept(changes, watched, u) ensures Kept(changes, more, u) {
      if u !in watched {
        var c :| c in changes && c.idUser == u && Related(changes, watched, c);
        assert Related(changes, more, c);
      }
    }
  }

  /** With one change per user, watching everybody shown shows nobody new. */
  lemma WatchingTheShownAddsNobody(changes: seq<RankChange>, watched: set<int>, shown: set<int>)
    requires forall c, d | c in changes && d in changes && c.idUser == d.idUser :: c == d
    requires forall u :: u in shown <==> Kept(changes, watched, u)
    ensures forall u :: Kept(changes, shown, u) <==> Kept(changes, watched, u)
  {
    hide Connected, Overlaps, Mover;
    forall c | c in changes && Related(changes, shown, c) ensures Related(changes, watched, c) {
      var m :| m in changes && m.idUser in shown && Mover(m) && Connected(Overlaps(changes), m, c);
      if m.idUser !in watched {
        var d :| d in changes && d.idUser == m.idUser && Related(changes, watched, d);
        var w :| w in changes && w.idUser in watched && Mover(w) && Connected(Overlaps(changes), w, d);
        ConnectedTransitive(Overlaps(changes), w, m, c);
      }
    }
    forall u | u in watched ensures u in shown {
      assert Kept(changes, watched, u);
    }
    WatchingMoreKeepsMore(changes, watched, shown);
  }
}
