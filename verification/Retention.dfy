/** The trash retention policy: which files one pass selects for deletion. */
module Retention {
  const SECONDS_PER_DAY: int := 86_400

  datatype TrashEntry = TrashEntry(path: string, mtime: real, size: nat)

  // ---------- Python's sorted(files, key=mtime): a stable sort ----------

  /** Put e after every entry that is not newer. */
  function Insert(s: seq<TrashEntry>, e: TrashEntry): (r: seq<TrashEntry>)
    ensures |r| == |s| + 1
  {
    if s == [] || s[|s| - 1].mtime <= e.mtime then s + [e]
    else Insert(s[..|s| - 1], e) + [s[|s| - 1]]
  }

  function SortedByMtime(s: seq<TrashEntry>): (r: seq<TrashEntry>)
    ensures |r| == |s|
  {
    if s == [] then [] else Insert(SortedByMtime(s[..|s| - 1]), s[|s| - 1])
  }

  ghost predicate Ascending(s: seq<TrashEntry>) {
    forall i, j | 0 <= i < j < |s| :: s[i].mtime <= s[j].mtime
  }

  /** The entries of s that are not in d, in order. */
  function Without(s: seq<TrashEntry>, d: set<TrashEntry>): seq<TrashEntry> {
    if s == [] then []
    else if s[|s| - 1] in d then Without(s[..|s| - 1], d)
    else Without(s[..|s| - 1], d) + [s[|s| - 1]]
  }

  lemma {:induction false} WithoutMembers(s: seq<TrashEntry>, d: set<TrashEntry>)
    ensures forall e :: e in Without(s, d) <==> e in s && e !in d
  {
    if s != [] {
      WithoutMembers(s[..|s| - 1], d);
      assert s == s[..|s| - 1] + [s[|s| - 1]];
    }
  }

  lemma AppendAscends(s: seq<TrashEntry>, x: TrashEntry)
    requires Ascending(s) && forall y | y in s :: y.mtime <= x.mtime
    ensures Ascending(s + [x])
  {
    forall i, j | 0 <= i < j < |s + [x]| ensures (s + [x])[i].mtime <= (s + [x])[j].mtime {
      assert s[i] in s;
    }
  }

  lemma {:induction false} InsertKeepsOrder(s: seq<TrashEntry>, e: TrashEntry)
    requires Ascending(s)
    ensures Ascending(Insert(s, e)) && multiset(Insert(s, e)) == multiset(s) + multiset{e}
    ensures forall x | x in Insert(s, e) :: x in s || x == e
  {
    if s == [] || s[|s| - 1].mtime <= e.mtime {
      AppendAscends(s, e);
    } else {
      var n := |s| - 1;
      InsertKeepsOrder(s[..n], e);
      assert s == s[..n] + [s[n]];
      AppendAscends(Insert(s[..n], e), s[n]);
    }
  }

  lemma {:induction false} SortSorts(s: seq<TrashEntry>)
    ensures Ascending(SortedByMtime(s)) && multiset(SortedByMtime(s)) == multiset(s)
  {
    hide Insert, Ascending;
    if s != [] {
      var n := |s| - 1;
      SortSorts(s[..n]);
      InsertKeepsOrder(SortedByMtime(s[..n]), s[n]);
      assert s == s[..n] + [s[n]];
    } else {
      NothingAscends();
    }
  }

  lemma NothingAscends()
    ensures Ascending([])
  {
  }

  lemma {:induction false} SortOfAscending(s: seq<TrashEntry>)
    requires Ascending(s)
    ensures SortedByMtime(s) == s
  {
    hide Insert;
    if s != [] {
      var front, last := s[..|s| - 1], s[|s| - 1];
      SortOfAscending(front);
      assert forall x | x in front :: x.mtime <= last.mtime;
      InsertAtEnd(front, last);
      assert s == front + [last];
    }
  }

  lemma InsertAtEnd(s: seq<TrashEntry>, e: TrashEntry)
    requires forall x | x in s :: x.mtime <= e.mtime
    ensures Insert(s, e) == s + [e]
  {
    if s != [] {
      assert s[|s| - 1] in s;
    }
  }

  lemma WithoutOfAppend(s: seq<TrashEntry>, e: TrashEntry, d: set<TrashEntry>)
    ensures Without(s + [e], d) == if e in d then Without(s, d) else Without(s, d) + [e]
  {
    assert (s + [e])[..|s|] == s;
  }

  lemma InsertBefore(s: seq<TrashEntry>, x: TrashEntry, e: TrashEntry)
    requires e.mtime < x.mtime
    ensures Insert(s + [x], e) == Insert(s, e) + [x]
  {
    assert (s + [x])[..|s|] == s;
  }

  lemma {:induction false} InsertCommutesWithout(s: seq<TrashEntry>, e: TrashEntry, d: set<TrashEntry>)
    requires Ascending(s)
    ensures Without(Insert(s, e), d) == if e in d then Without(s, d) else Insert(Without(s, d), e)
  {
    hide Insert, Without;
    if s == [] || s[|s| - 1].mtime <= e.mtime {
      assert forall x | x in s :: x.mtime <= e.mtime;
      hide Ascending;
      WithoutOfAppend(s, e, d);
      InsertAtEnd(s, e);
      WithoutMembers(s, d);
      InsertAtEnd(Without(s, d), e);
    } else {
      var t, x := s[..|s| - 1], s[|s| - 1];
      assert s == t + [x];
      InsertCommutesWithout(t, e, d);
      InsertBefore(t, x, e);
      WithoutOfAppend(t, x, d);
      WithoutOfAppend(Insert(t, e), x, d);
      InsertBefore(Without(t, d), x, e);
    }
  }

  /** Sorting is stable: it commutes with taking entries away. */
  lemma {:induction false} SortCommutesWithout(s: seq<TrashEntry>, d: set<TrashEntry>)
    ensures SortedByMtime(Without(s, d)) == Without(SortedByMtime(s), d)
  {
    if s != [] {
      var n := |s| - 1;
      SortCommutesWithout(s[..n], d);
      SortSorts(s[..n]);
      InsertCommutesWithout(SortedByMtime(s[..n]), s[n], d);
      if s[n] !in d {
        assert (Without(s[..n], d) + [s[n]])[..|Without(s[..n], d)|] == Without(s[..n], d);
      }
    }
  }

  lemma SortOfSuffix(s: seq<TrashEntry>, front: seq<TrashEntry>, back: seq<TrashEntry>)
    requires Ascending(s) && front + back == s
    ensures SortedByMtime(back) == back
  {
    assert back == s[|front|..];
    SortOfAscending(back);
  }

  // ---------- the policy ----------

  function Total(s: seq<TrashEntry>): nat {
    if s == [] then 0 else Total(s[..|s| - 1]) + s[|s| - 1].size
  }

  datatype RetentionPolicy = RetentionPolicy(ttlDays: nat, maxBytes: nat) {
    function Cutoff(now: real): real {
      now - (ttlDays * SECONDS_PER_DAY) as real
    }

    /** What the policy wants of the files it keeps. */
    ghost predicate Fits(kept: seq<TrashEntry>, now: real) {
      (forall e | e in kept :: e.mtime >= Cutoff(now)) && Total(kept) <= maxBytes
    }

    /** The smallest number of oldest files to drop from s so that the rest fits. */
    ghost function Cut(s: seq<TrashEntry>, now: real): (k: nat)
      ensures k <= |s| && Fits(s[k..], now)
      ensures forall i | 0 <= i < k :: !Fits(s[i..], now)
    {
      if Fits(s, now) then assert s[0..] == s; 0
      else
        assert s != [];
        var k := 1 + Cut(s[1..], now);
        assert s[k..] == s[1..][k - 1..];
        assert forall i | 1 <= i < k :: s[i..] == s[1..][i - 1..];
        assert s[0..] == s;
        k
    }

    /** The selection, as a specification: the shortest prefix of the stable mtime order whose removal
        leaves files that fit. */
    ghost function Select(files: seq<TrashEntry>, now: real): seq<TrashEntry> {
      var sorted := SortedByMtime(files);
      sorted[..Cut(sorted, now)]
    }

    ghost function Keep(files: seq<TrashEntry>, now: real): seq<TrashEntry> {
      var sorted := SortedByMtime(files);
      sorted[Cut(sorted, now)..]
    }

    /** Pass 1: everything older than the cutoff; in mtime order that is a prefix. */
    method TtlPass(allFiles: seq<TrashEntry>, now: real)
      returns (ttlSelected: seq<TrashEntry>, survivors: seq<TrashEntry>)
      requires Ascending(allFiles)
      ensures ttlSelected + survivors == allFiles
      ensures forall e | e in ttlSelected :: e.mtime < Cutoff(now)
      ensures forall e | e in survivors :: e.mtime >= Cutoff(now)
      ensures forall e | e in ttlSelected :: e.mtime < now - 86400.0 * ttlDays as real
      ensures forall e | e in survivors :: e.mtime >= now - 86400.0 * ttlDays as real
    {
      CutoffInDays(now);
      var cutoff := now - (ttlDays * SECONDS_PER_DAY) as real;
      ttlSelected, survivors := [], [];
      for i := 0 to |allFiles|
        invariant ttlSelected + survivors == allFiles[..i]
        invariant forall e | e in ttlSelected :: e.mtime < cutoff
        invariant forall e | e in survivors :: e.mtime >= cutoff
      {
        assert survivors != [] ==> survivors[0] in survivors && survivors[0] == allFiles[..i][|ttlSelected|];
        if allFiles[i].mtime < cutoff {
          ttlSelected := ttlSelected + [allFiles[i]];
        } else {
          survivors := survivors + [allFiles[i]];
        }
      }
    }

    method Sum(files: seq<TrashEntry>) returns (total: nat)
      ensures total == Total(files)
    {
      total := 0;
      for i := 0 to |files|
        invariant total == Total(files[..i])
      {
        assert files[..i + 1][..i] == files[..i];
        total := total + files[i].size;
      }
      assert files[..|files|] == files;
    }

    /** Pass 2: the oldest survivors, until what is left is under the cap. */
    method SizePass(survivors: seq<TrashEntry>, target: int) returns (sizeSelected: seq<TrashEntry>)
      requires target == Total(survivors) - maxBytes
      ensures |sizeSelected| <= |survivors| && sizeSelected == survivors[..|sizeSelected|]
      ensures Total(survivors[|sizeSelected|..]) <= maxBytes
      ensures sizeSelected != [] ==> Total(survivors[|sizeSelected| - 1..]) > maxBytes
    {
      sizeSelected := [];
      var freed, i := 0, 0;
      while i < |survivors|
        invariant 0 <= i <= |survivors|
        invariant sizeSelected == survivors[..i] && freed == Total(survivors[..i])
        invariant i > 0 ==> Total(survivors[..i - 1]) < target
      {
        if freed >= target {
          break;
        }
        assert survivors[..i + 1][..i] == survivors[..i];
        sizeSelected := sizeSelected + [survivors[i]];
        freed := freed + survivors[i].size;
        i := i + 1;
      }
      assert survivors[..|survivors|] == survivors;
      TotalSplits(survivors, i);
      if i > 0 {
        TotalSplits(survivors, i - 1);
      }
    }

    /** What one pass deletes: in days and bytes, and as the shortest prefix that leaves files that fit. */
    method SelectForDeletion(files: seq<TrashEntry>, now: real) returns (selection: seq<TrashEntry>)
      ensures selection == Select(files, now)
      ensures forall e | e in files && e.mtime < now - 86400.0 * ttlDays as real :: e in selection
      ensures Total(files) <= maxBytes ==>
        forall e | e in files :: e in selection <==> e.mtime < now - 86400.0 * ttlDays as real
      ensures |selection| <= |files| && selection == SortedByMtime(files)[..|selection|]
      ensures forall e | e in SortedByMtime(files)[|selection|..] :: e.mtime >= now - 86400.0 * ttlDays as real
      ensures Total(SortedByMtime(files)[|selection|..]) <= maxBytes
      ensures selection != [] ==>
        || selection[|selection| - 1].mtime < now - 86400.0 * ttlDays as real
        || selection[|selection| - 1].size + Total(SortedByMtime(files)[|selection|..]) > maxBytes
    {
      hide SortedByMtime, Total, Cut, Cutoff, Fits, Select;
      SelectionInNumbers(files, now);
      selection := BothPasses(files, now);
    }

    method BothPasses(files: seq<TrashEntry>, now: real) returns (selection: seq<TrashEntry>)
      ensures selection == Select(files, now)
    {
      var allFiles := SortedByMtime(files);
      SortSorts(files);
      var ttlSelected, survivors := TtlPass(allFiles, now);
      if survivors == [] {
        PassesFindTheCut(allFiles, now, ttlSelected, survivors, []);
        return ttlSelected;
      }
      var survivorsSorted := SortedByMtime(survivors);
      SortOfSuffix(allFiles, ttlSelected, survivors);
      var survivorsTotal := Sum(survivorsSorted);
      if survivorsTotal <= maxBytes {
        PassesFindTheCut(allFiles, now, ttlSelected, survivors, []);
        return ttlSelected;
      }
      var sizeSelected := SizePass(survivorsSorted, survivorsTotal - maxBytes);
      PassesFindTheCut(allFiles, now, ttlSelected, survivors, sizeSelected);
      selection := ttlSelected + sizeSelected;
    }

    /** The selection in days and bytes: a prefix of the stable mtime order, long enough, and its last file
        was stale or did not fit beside what is kept. */
    lemma SelectionInNumbers(files: seq<TrashEntry>, now: real)
      ensures var selection, kept := Select(files, now), SortedByMtime(files)[|Select(files, now)|..];
        && |selection| <= |files| && selection == SortedByMtime(files)[..|selection|]
        && (forall e | e in kept :: e.mtime >= now - 86400.0 * ttlDays as real)
        && Total(kept) <= maxBytes
        && (selection != [] ==>
              || selection[|selection| - 1].mtime < now - 86400.0 * ttlDays as real
              || selection[|selection| - 1].size + Total(kept) > maxBytes)
        && (forall e | e in files && e.mtime < now - 86400.0 * ttlDays as real :: e in selection)
        && (Total(files) <= maxBytes ==>
              forall e | e in files :: e in selection <==> e.mtime < now - 86400.0 * ttlDays as real)
    {
      hide SortedByMtime, Total, Cut, Fits;
      var t := SortedByMtime(files);
      var k := Cut(t, now);
      SortSorts(files);
      SortMembers(files);
      SortTotal(files);
      CutoffInDays(now);
      hide Cutoff;
      CutInNumbers(t, now);
      hide Ascending;
      PrefixMembers(t, k);
      if k > 0 {
        assert t[..k][k - 1] == t[k - 1];
        TailIsLighter(t, k - 1);
        LastInPrefix(t, k);
      }
    }

    lemma PrefixMembers(t: seq<TrashEntry>, k: nat)
      requires k <= |t|
      ensures forall e :: e in t <==> e in t[..k] || e in t[k..]
    {
      assert t == t[..k] + t[k..];
    }

    lemma TailIsLighter(t: seq<TrashEntry>, k: nat)
      requires k <= |t|
      ensures Total(t[k..]) <= Total(t)
    {
      TotalSplits(t, k);
    }

    lemma CutoffInDays(now: real)
      ensures Cutoff(now) == now - 86400.0 * ttlDays as real
    {
    }

    lemma CutInNumbers(t: seq<TrashEntry>, now: real)
      requires Ascending(t)
      ensures var k := Cut(t, now);
        && (forall e | e in t[k..] :: e.mtime >= Cutoff(now)) && Total(t[k..]) <= maxBytes
        && (k > 0 ==> t[k - 1].mtime < Cutoff(now) || Total(t[k - 1..]) > maxBytes)
        && (k > 0 ==> Total(t[k - 1..]) == t[k - 1].size + Total(t[k..]))
    {
      hide Total, Fits;
      var k := Cut(t, now);
      FitsInNumbers(t[k..], now);
      if k > 0 {
        assert !Fits(t[k - 1..], now);
        hide Cut;
        HeadAndTail(t, k);
        NotFitsInNumbers(t, k - 1, now);
      }
    }

    lemma FitsInNumbers(s: seq<TrashEntry>, now: real)
      requires Fits(s, now)
      ensures (forall e | e in s :: e.mtime >= Cutoff(now)) && Total(s) <= maxBytes
    {
    }

    lemma NotFitsInNumbers(t: seq<TrashEntry>, k: nat, now: real)
      requires Ascending(t) && k < |t| && !Fits(t[k..], now)
      ensures t[k].mtime < Cutoff(now) || Total(t[k..]) > maxBytes
    {
    }

    lemma HeadAndTail(t: seq<TrashEntry>, k: nat)
      requires 0 < k <= |t|
      ensures Total(t[k - 1..]) == t[k - 1].size + Total(t[k..])
    {
      hide Total;
      assert t[k - 1..] == [t[k - 1]] + t[k..];
      TotalOfConcat([t[k - 1]], t[k..]);
      TotalOfAppend([], t[k - 1]);
      TotalOfNothing();
      assert [] + [t[k - 1]] == [t[k - 1]];
    }

    lemma TotalOfNothing()
      ensures Total([]) == 0
    {
    }

    lemma LastInPrefix(t: seq<TrashEntry>, k: nat)
      requires Ascending(t) && 0 < k <= |t|
      ensures forall e | e in t[..k] :: e.mtime <= t[k - 1].mtime
    {
    }

    lemma PassesFindTheCut(allFiles: seq<TrashEntry>, now: real, stale: seq<TrashEntry>, young: seq<TrashEntry>,
                           chosen: seq<TrashEntry>)
      requires stale + young == allFiles
      requires forall e | e in stale :: e.mtime < Cutoff(now)
      requires forall e | e in young :: e.mtime >= Cutoff(now)
      requires |chosen| <= |young| && chosen == young[..|chosen|] && Total(young[|chosen|..]) <= maxBytes
      requires chosen != [] ==> Total(young[|chosen| - 1..]) > maxBytes
      ensures stale + chosen == allFiles[..Cut(allFiles, now)]
    {
      hide Total, Cut;
      var m, n := |stale|, |chosen|;
      assert young[n..] == allFiles[m + n..];
      if n > 0 {
        assert young[n - 1..] == allFiles[m + n - 1..];
      } else if m > 0 {
        assert allFiles[m - 1..][0] == stale[m - 1] && allFiles[m - 1..][0] in allFiles[m - 1..];
      }
      CutAfter(allFiles, now, m + n);
    }

    /** k is the cut if the rest fits and one file more does not. */
    lemma CutAfter(s: seq<TrashEntry>, now: real, k: nat)
      requires k <= |s| && Fits(s[k..], now) && (k > 0 ==> !Fits(s[k - 1..], now))
      ensures Cut(s, now) == k
    {
      var c := Cut(s, now);
      if c < k {
        assert s[c..][k - 1 - c..] == s[k - 1..];
        FitsOfSuffix(s[c..], now, k - 1 - c);
      }
    }

    lemma FitsOfSuffix(s: seq<TrashEntry>, now: real, k: nat)
      requires k <= |s| && Fits(s, now)
      ensures Fits(s[k..], now)
    {
      TotalSplits(s, k);
    }
  }

  lemma {:induction false} TotalOfConcat(a: seq<TrashEntry>, b: seq<TrashEntry>)
    ensures Total(a + b) == Total(a) + Total(b)
  {
    if b == [] {
      assert a + b == a;
    } else {
      TotalOfConcat(a, b[..|b| - 1]);
      assert (a + b)[..|a + b| - 1] == a + b[..|b| - 1];
    }
  }

  lemma TotalSplits(s: seq<TrashEntry>, k: nat)
    requires k <= |s|
    ensures Total(s) == Total(s[..k]) + Total(s[k..])
  {
    TotalOfConcat(s[..k], s[k..]);
    assert s[..k] + s[k..] == s;
  }

  lemma TotalOfAppend(s: seq<TrashEntry>, x: TrashEntry)
    ensures Total(s + [x]) == Total(s) + x.size
  {
    assert (s + [x])[..|s|] == s;
  }

  lemma {:induction false} InsertTotal(s: seq<TrashEntry>, e: TrashEntry)
    ensures Total(Insert(s, e)) == Total(s) + e.size
  {
    if s == [] || s[|s| - 1].mtime <= e.mtime {
      TotalOfAppend(s, e);
    } else {
      InsertTotal(s[..|s| - 1], e);
      TotalOfAppend(Insert(s[..|s| - 1], e), s[|s| - 1]);
    }
  }

  lemma {:induction false} SortTotal(s: seq<TrashEntry>)
    ensures Total(SortedByMtime(s)) == Total(s)
  {
    if s != [] {
      SortTotal(s[..|s| - 1]);
      InsertTotal(SortedByMtime(s[..|s| - 1]), s[|s| - 1]);
    }
  }

  lemma SortMembers(s: seq<TrashEntry>)
    ensures forall e :: e in SortedByMtime(s) <==> e in s
  {
    SortSorts(s);
    forall e ensures e in SortedByMtime(s) <==> e in s {
      assert e in s <==> e in multiset(s);
      assert e in SortedByMtime(s) <==> e in multiset(SortedByMtime(s));
    }
  }
}
