/** What the selection guarantees across directory walks, clocks and repeated passes. */
module RetentionTheorems {
  import opened Retention

  ghost function Entries(s: seq<TrashEntry>): set<TrashEntry> {
    set e | e in s
  }

  ghost predicate NoDuplicates(s: seq<TrashEntry>) {
    forall i, j | 0 <= i < j < |s| :: s[i] != s[j]
  }

  // ---------- one selection ----------

  /** The selection is a prefix of the stable mtime order; what is kept is within TTL and under the cap;
      and a prefix achieves both if and only if it is at least as long. */
  lemma SelectionIsLeast(p: RetentionPolicy, files: seq<TrashEntry>, now: real)
    ensures p.Select(files, now) + p.Keep(files, now) == SortedByMtime(files)
    ensures forall e | e in p.Keep(files, now) :: e.mtime >= p.Cutoff(now)
    ensures Total(p.Keep(files, now)) <= p.maxBytes
    ensures forall k | 0 <= k <= |SortedByMtime(files)| ::
      p.Fits(SortedByMtime(files)[k..], now) <==> |p.Select(files, now)| <= k
  {
    hide SortedByMtime, RetentionPolicy.Fits;
    var sorted := SortedByMtime(files);
    var cut := p.Cut(sorted, now);
    assert sorted[..cut] + sorted[cut..] == sorted;
    forall k | 0 <= k <= |sorted| ensures p.Fits(sorted[k..], now) <==> cut <= k {
      if cut <= k {
        FitsLater(p, sorted, cut, k, now);
      }
    }
    FitsMeans(p, sorted[cut..], now);
  }

  lemma FitsMeans(p: RetentionPolicy, s: seq<TrashEntry>, now: real)
    requires p.Fits(s, now)
    ensures (forall e | e in s :: e.mtime >= p.Cutoff(now)) && Total(s) <= p.maxBytes
  {
  }

  lemma FitsLater(p: RetentionPolicy, t: seq<TrashEntry>, cut: nat, i: nat, now: real)
    requires cut <= i <= |t| && p.Fits(t[cut..], now)
    ensures p.Fits(t[i..], now)
  {
    p.FitsOfSuffix(t[cut..], now, i - cut);
    assert t[cut..][i - cut..] == t[i..];
  }

  /** Files of equal mtime keep the order of the directory walk. */
  lemma SortKeepsTies(s: seq<TrashEntry>, m: real)
    ensures var others := set e | e in s && e.mtime != m;
      Without(SortedByMtime(s), others) == Without(s, others)
  {
    hide Without, SortedByMtime;
    var others := set e | e in s && e.mtime != m;
    SortCommutesWithout(s, others);
    WithoutMembers(s, others);
    var same := Without(s, others);
    forall i | 0 <= i < |same| ensures same[i].mtime == m {
      assert same[i] in same && same[i] in s && same[i] !in others;
    }
    SortOfAscending(same);
  }

  // ---------- walks that miss files ----------

  lemma {:induction false} WithoutConcat(a: seq<TrashEntry>, b: seq<TrashEntry>, d: set<TrashEntry>)
    ensures Without(a + b, d) == Without(a, d) + Without(b, d)
  {
    if b == [] {
      assert a + b == a;
    } else {
      hide Without;
      var b', x := b[..|b| - 1], b[|b| - 1];
      WithoutConcat(a, b', d);
      assert a + b == (a + b') + [x] && b == b' + [x];
      WithoutOfAppend(a + b', x, d);
      WithoutOfAppend(b', x, d);
      assert Without(a, d) + Without(b', d) + [x] == Without(a, d) + (Without(b', d) + [x]);
    }
  }

  lemma {:induction false} WithoutIsLighter(s: seq<TrashEntry>, d: set<TrashEntry>)
    ensures Total(Without(s, d)) <= Total(s)
  {
    if s != [] {
      WithoutIsLighter(s[..|s| - 1], d);
      if s[|s| - 1] !in d {
        assert (Without(s[..|s| - 1], d) + [s[|s| - 1]])[..|Without(s[..|s| - 1], d)|] == Without(s[..|s| - 1], d);
      }
    }
  }

  /** Whatever files a walk misses and whenever it runs up to time T, it selects nothing that one pass
      over all files at T would keep. */
  lemma NoPassSelectsMore(p: RetentionPolicy, files: seq<TrashEntry>, missed: set<TrashEntry>, now: real, T: real)
    requires now <= T
    ensures forall e | e in p.Select(Without(files, missed), now) :: e in p.Select(files, T)
  {
    hide Without, SortedByMtime, RetentionPolicy.Fits;
    var sorted := SortedByMtime(files);
    var k := p.Cut(sorted, T);
    var front, back := sorted[..k], sorted[k..];
    var a, b := Without(front, missed), Without(back, missed);
    SortCommutesWithout(files, missed);
    assert sorted == front + back;
    WithoutConcat(front, back, missed);
    WithoutMembers(front, missed);
    WithoutFits(p, back, missed, now, T);
    CutInside(p, a, b, now);
  }

  /** Fewer files fit too, and earlier. */
  lemma WithoutFits(p: RetentionPolicy, s: seq<TrashEntry>, missed: set<TrashEntry>, now: real, T: real)
    requires now <= T && p.Fits(s, T)
    ensures p.Fits(Without(s, missed), now)
  {
    hide Without, Total;
    WithoutMembers(s, missed);
    WithoutIsLighter(s, missed);
  }

  /** If b fits, cutting a + b takes nothing of b. */
  lemma CutInside(p: RetentionPolicy, a: seq<TrashEntry>, b: seq<TrashEntry>, now: real)
    requires p.Fits(b, now)
    ensures forall e | e in (a + b)[..p.Cut(a + b, now)] :: e in a
  {
    hide RetentionPolicy.Fits;
    assert (a + b)[|a|..] == b;
    assert p.Cut(a + b, now) <= |a|;
    assert (a + b)[..p.Cut(a + b, now)] == a[..p.Cut(a + b, now)];
  }

  // ---------- passes that follow each other ----------

  lemma {:induction false} WithoutOwnEntries(s: seq<TrashEntry>, d: set<TrashEntry>)
    requires forall e | e in s :: e in d
    ensures Without(s, d) == []
  {
    if s != [] {
      WithoutOwnEntries(s[..|s| - 1], d);
    }
  }

  lemma {:induction false} WithoutStrangers(s: seq<TrashEntry>, d: set<TrashEntry>)
    requires forall e | e in s :: e !in d
    ensures Without(s, d) == s
  {
    if s != [] {
      WithoutStrangers(s[..|s| - 1], d);
      assert s == s[..|s| - 1] + [s[|s| - 1]];
    }
  }

  lemma SortHasNoDuplicates(s: seq<TrashEntry>)
    requires NoDuplicates(s)
    ensures NoDuplicates(SortedByMtime(s))
  {
    SortSorts(s);
    NoDuplicatesByCount(s);
    var t := SortedByMtime(s);
    forall i, j | 0 <= i < j < |t| ensures t[i] != t[j] {
      if t[i] == t[j] {
        TwiceCounts(t, i, j);
      }
    }
  }

  lemma {:induction false} NoDuplicatesByCount(s: seq<TrashEntry>)
    requires NoDuplicates(s)
    ensures forall e :: multiset(s)[e] <= 1
  {
    if s != [] {
      var n := |s| - 1;
      NoDuplicatesByCount(s[..n]);
      assert s == s[..n] + [s[n]];
      assert s[n] !in s[..n];
    }
  }

  lemma TwiceCounts(s: seq<TrashEntry>, i: nat, j: nat)
    requires i < j < |s| && s[i] == s[j]
    ensures multiset(s)[s[i]] >= 2
  {
    assert s == s[..j] + [s[j]] + s[j + 1..];
    assert s[..j][i] == s[i] && s[i] in s[..j];
  }

  lemma DisjointHalves(s: seq<TrashEntry>, k: nat)
    requires NoDuplicates(s) && k <= |s|
    ensures forall e | e in s[k..] :: e !in Entries(s[..k])
  {
    forall j | k <= j < |s| ensures s[j] !in Entries(s[..k]) {
      assert forall i | 0 <= i < k :: s[..k][i] == s[i];
    }
  }

  /** The files one pass leaves, in mtime order, are the tail it kept. */
  lemma LeftIsKept(p: RetentionPolicy, files: seq<TrashEntry>, now: real)
    requires NoDuplicates(files)
    ensures SortedByMtime(Without(files, Entries(p.Select(files, now)))) == p.Keep(files, now)
  {
    hide Without, SortedByMtime, NoDuplicates, RetentionPolicy.Fits;
    var sorted := SortedByMtime(files);
    var k := p.Cut(sorted, now);
    var front, back := sorted[..k], sorted[k..];
    var d := Entries(front);
    SortHasNoDuplicates(files);
    SortCommutesWithout(files, d);
    assert sorted == front + back;
    WithoutConcat(front, back, d);
    WithoutOwnEntries(front, d);
    DisjointHalves(sorted, k);
    WithoutStrangers(back, d);
  }

  lemma SuffixOfSuffix(s: seq<TrashEntry>, k: nat, n: nat)
    requires k <= n <= |s|
    ensures s[k..][n - k..] == s[n..]
  {
  }

  lemma CutNoLater(p: RetentionPolicy, s: seq<TrashEntry>, now: real, k: nat)
    requires k <= |s| && p.Fits(s[k..], now)
    ensures p.Cut(s, now) <= k
  {
    hide RetentionPolicy.Fits;
  }

  /** A cut at k2 of s is a cut at k2 - k1 of what follows k1. */
  lemma CutOfSuffix(p: RetentionPolicy, s: seq<TrashEntry>, now: real, k1: nat, k2: nat)
    requires k1 <= k2 <= |s| && p.Fits(s[k2..], now) && (k2 > 0 ==> !p.Fits(s[k2 - 1..], now))
    ensures p.Cut(s[k1..], now) == k2 - k1
  {
    hide RetentionPolicy.Fits, RetentionPolicy.Cut;
    SuffixOfSuffix(s, k1, k2);
    if k2 > k1 {
      SuffixOfSuffix(s, k1, k2 - 1);
    }
    p.CutAfter(s[k1..], now, k2 - k1);
  }

  lemma FitsEarlier(p: RetentionPolicy, s: seq<TrashEntry>, now1: real, now2: real)
    requires now1 <= now2 && p.Fits(s, now2)
    ensures p.Fits(s, now1)
  {
  }

  lemma CutsGrow(p: RetentionPolicy, s: seq<TrashEntry>, now1: real, now2: real)
    requires now1 <= now2
    ensures p.Cut(s, now1) <= p.Cut(s, now2)
    ensures p.Cut(s[p.Cut(s, now1)..], now2) == p.Cut(s, now2) - p.Cut(s, now1)
  {
    hide RetentionPolicy.Fits, RetentionPolicy.Cut;
    var k1, k2 := p.Cut(s, now1), p.Cut(s, now2);
    FitsEarlier(p, s[k2..], now1, now2);
    CutNoLater(p, s, now1, k2);
    CutOfSuffix(p, s, now2, k1, k2);
  }

  lemma PrefixSplits(s: seq<TrashEntry>, k: nat, n: nat)
    requires k <= n <= |s|
    ensures s[..n] == s[..k] + s[k..][..n - k]
  {
  }

  /** Passes compose over time: selecting at now2 is selecting at now1 and then, among the files left,
      at now2. */
  lemma PassesCompose(p: RetentionPolicy, files: seq<TrashEntry>, now1: real, now2: real)
    requires NoDuplicates(files) && now1 <= now2
    ensures var first := p.Select(files, now1);
      p.Select(files, now2) == first + p.Select(Without(files, Entries(first)), now2)
  {
    hide Without, SortedByMtime, NoDuplicates, RetentionPolicy.Fits;
    var sorted := SortedByMtime(files);
    var k1, k2 := p.Cut(sorted, now1), p.Cut(sorted, now2);
    LeftIsKept(p, files, now1);
    CutsGrow(p, sorted, now1, now2);
    PrefixSplits(sorted, k1, k2);
  }

  /** A second pass at the same time selects nothing. */
  lemma SecondPassIsIdle(p: RetentionPolicy, files: seq<TrashEntry>, now: real)
    requires NoDuplicates(files)
    ensures p.Select(Without(files, Entries(p.Select(files, now))), now) == []
  {
    PassesCompose(p, files, now, now);
    var first, second := p.Select(files, now), p.Select(Without(files, Entries(p.Select(files, now))), now);
    assert |first + second| == |first|;
  }

  // ---------- directory order ----------

  /** The selection depends on directory order when mtimes tie: two walks of the same two files, in
      opposite orders, select different files, so together they delete both. */
  lemma TiesFollowTheWalk()
    ensures var p := RetentionPolicy(7, 1);
      var a, b := TrashEntry("a.md", 0.0, 1), TrashEntry("b.md", 0.0, 1);
      p.Select([a, b], 0.0) == [a] && p.Select([b, a], 0.0) == [b]
  {
    var p := RetentionPolicy(7, 1);
    var a, b := TrashEntry("a.md", 0.0, 1), TrashEntry("b.md", 0.0, 1);
    TieCut(p, a, b);
    TieCut(p, b, a);
  }

  lemma TieCut(p: RetentionPolicy, a: TrashEntry, b: TrashEntry)
    requires p == RetentionPolicy(7, 1) && a.mtime == b.mtime == 0.0 && a.size == b.size == 1
    ensures p.Select([a, b], 0.0) == [a]
  {
    SortOfAscending([a, b]);
    assert [a, b][..1] == [a] && [a][..0] == [] && [a, b][1..] == [b] && [a, b][0..] == [a, b] && [b][..0] == [];
    assert Total([a]) == 1 && Total([b]) == 1;
    TotalOfConcat([a], [b]);
    assert [a] + [b] == [a, b];
    p.CutAfter([a, b], 0.0, 1);
  }

  lemma SameElements(a: seq<TrashEntry>, b: seq<TrashEntry>)
    requires multiset(a) == multiset(b)
    ensures |a| == |b| && forall x :: x in a <==> x in b
  {
    assert |a| == |multiset(a)| && |b| == |multiset(b)|;
    forall x ensures x in a <==> x in b {
      assert x in a <==> x in multiset(a);
      assert x in b <==> x in multiset(b);
    }
  }
}
