/** Ties: when the order of the directory walk changes what a pass selects, and when it does not. */
module WalkOrder {
  import opened Retention
  import opened RetentionTheorems

  // ---------- bytes by age ----------

  /** Total size of the entries that satisfy `chosen`. */
  function Weight(s: seq<TrashEntry>, chosen: TrashEntry -> bool): nat {
    if s == [] then 0
    else Weight(s[..|s| - 1], chosen) + (if chosen(s[|s| - 1]) then s[|s| - 1].size else 0)
  }

  function From(m: real): TrashEntry -> bool {
    (e: TrashEntry) => e.mtime >= m
  }

  function After(m: real): TrashEntry -> bool {
    (e: TrashEntry) => e.mtime > m
  }

  lemma WeightOfAppend(s: seq<TrashEntry>, x: TrashEntry, chosen: TrashEntry -> bool)
    ensures Weight(s + [x], chosen) == Weight(s, chosen) + (if chosen(x) then x.size else 0)
  {
    assert (s + [x])[..|s|] == s;
  }

  lemma {:induction false} WeightOfConcat(a: seq<TrashEntry>, b: seq<TrashEntry>, chosen: TrashEntry -> bool)
    ensures Weight(a + b, chosen) == Weight(a, chosen) + Weight(b, chosen)
  {
    if b == [] {
      assert a + b == a;
    } else {
      var b', x := b[..|b| - 1], b[|b| - 1];
      WeightOfConcat(a, b', chosen);
      WeightOfAppend(a + b', x, chosen);
      assert a + b == (a + b') + [x];
    }
  }

  lemma {:induction false} WeightOfAll(s: seq<TrashEntry>, chosen: TrashEntry -> bool)
    requires forall e | e in s :: chosen(e)
    ensures Weight(s, chosen) == Total(s)
  {
    if s != [] {
      assert s[|s| - 1] in s;
      WeightOfAll(s[..|s| - 1], chosen);
    }
  }

  lemma {:induction false} WeightOfNone(s: seq<TrashEntry>, chosen: TrashEntry -> bool)
    requires forall e | e in s :: !chosen(e)
    ensures Weight(s, chosen) == 0
  {
    if s != [] {
      assert s[|s| - 1] in s;
      WeightOfNone(s[..|s| - 1], chosen);
    }
  }

  lemma {:induction false} WeightIsPartOfTotal(s: seq<TrashEntry>, chosen: TrashEntry -> bool)
    ensures Weight(s, chosen) <= Total(s)
  {
    if s != [] {
      WeightIsPartOfTotal(s[..|s| - 1], chosen);
    }
  }

  /** Taking one entry out. */
  lemma WithoutIndex(s: seq<TrashEntry>, i: nat, chosen: TrashEntry -> bool)
    requires i < |s|
    ensures var rest := s[..i] + s[i + 1..];
      && multiset(rest) == multiset(s) - multiset{s[i]}
      && Weight(s, chosen) == Weight(rest, chosen) + (if chosen(s[i]) then s[i].size else 0)
  {
    var front, back := s[..i], s[i + 1..];
    assert s == front + [s[i]] + back;
    WeightOfConcat(front + [s[i]], back, chosen);
    WeightOfAppend(front, s[i], chosen);
    WeightOfConcat(front, back, chosen);
  }

  /** Fewer entries weigh no more, in any order. */
  lemma {:induction false} WeightOfFewer(a: seq<TrashEntry>, b: seq<TrashEntry>, chosen: TrashEntry -> bool)
    requires multiset(a) <= multiset(b)
    ensures Weight(a, chosen) <= Weight(b, chosen)
  {
    if a != [] {
      var n := |a| - 1;
      assert a == a[..n] + [a[n]];
      assert a[n] in multiset(b);
      var i :| 0 <= i < |b| && b[i] == a[n];
      WithoutIndex(b, i, chosen);
      WeightOfFewer(a[..n], b[..i] + b[i + 1..], chosen);
    }
  }

  lemma WeightOfSame(a: seq<TrashEntry>, b: seq<TrashEntry>, chosen: TrashEntry -> bool)
    requires multiset(a) == multiset(b)
    ensures Weight(a, chosen) == Weight(b, chosen)
  {
    WeightOfFewer(a, b, chosen);
    WeightOfFewer(b, a, chosen);
  }

  lemma NoDuplicatesAsMultiset(s: seq<TrashEntry>, files: seq<TrashEntry>)
    requires NoDuplicates(s) && forall e | e in s :: e in files
    ensures multiset(s) <= multiset(files)
  {
    NoDuplicatesByCount(s);
    forall e | e in s ensures multiset(files)[e] >= 1 {
      assert e in files;
    }
  }

  // ---------- the condition ----------

  /** Files that tie, are not stale, and are not all kept: then not even the last of them could stay. */
  ghost predicate TiesAreSafe(p: RetentionPolicy, files: seq<TrashEntry>, now: real) {
    forall e, f | e in files && f in files && e != f && e.mtime == f.mtime >= p.Cutoff(now) ::
      Weight(files, From(e.mtime)) <= p.maxBytes || f.size + Weight(files, After(e.mtime)) > p.maxBytes
  }

  /** Age alone decides. */
  ghost predicate KeptByAge(p: RetentionPolicy, files: seq<TrashEntry>, now: real, m: real) {
    m >= p.Cutoff(now) && Weight(files, From(m)) <= p.maxBytes
  }

  lemma TotalOfOne(e: TrashEntry)
    ensures Total([e]) == e.size
  {
    assert [e][..0] == [];
  }

  // ---------- the condition is enough ----------

  /** In ascending order everything as young as t[i] lies from i on, except its ties. */
  lemma FromAt(t: seq<TrashEntry>, i: nat)
    requires Ascending(t) && i < |t|
    ensures Weight(t, From(t[i].mtime)) == Weight(t[..i], From(t[i].mtime)) + Total(t[i..])
  {
    hide Weight, Total;
    assert t == t[..i] + t[i..];
    WeightOfConcat(t[..i], t[i..], From(t[i].mtime));
    WeightOfAll(t[i..], From(t[i].mtime));
  }

  lemma NoneYounger(t: seq<TrashEntry>, i: nat)
    requires Ascending(t) && i < |t|
    ensures forall e | e in t[..i + 1] :: e.mtime <= t[i].mtime
  {
  }

  lemma SplitAround(t: seq<TrashEntry>, i: nat)
    requires i < |t|
    ensures t == t[..i + 1] + t[i + 1..] && t[i..] == [t[i]] + t[i + 1..]
  {
  }

  lemma AfterAt(t: seq<TrashEntry>, i: nat)
    requires Ascending(t) && i < |t|
    ensures t[i].size + Weight(t, After(t[i].mtime)) <= Total(t[i..])
  {
    hide Weight, Total;
    var m, front, back := t[i].mtime, t[..i + 1], t[i + 1..];
    NoneYounger(t, i);
    hide Ascending;
    SplitAround(t, i);
    WeightOfConcat(front, back, After(m));
    WeightOfNone(front, After(m));
    WeightIsPartOfTotal(back, After(m));
    TotalOfConcat([t[i]], back);
    TotalOfOne(t[i]);
  }

  lemma YoungFrom(p: RetentionPolicy, t: seq<TrashEntry>, i: nat, now: real)
    requires Ascending(t) && i < |t|
    ensures (forall e | e in t[i..] :: e.mtime >= p.Cutoff(now)) <==> t[i].mtime >= p.Cutoff(now)
  {
    assert t[i..][0] == t[i];
  }

  lemma TiedBefore(t: seq<TrashEntry>, i: nat) returns (e: TrashEntry)
    requires Ascending(t) && NoDuplicates(t) && i < |t| && Weight(t[..i], From(t[i].mtime)) > 0
    ensures e in t && e != t[i] && e.mtime == t[i].mtime
  {
    if forall x | x in t[..i] :: x.mtime < t[i].mtime {
      WeightOfNone(t[..i], From(t[i].mtime));
      assert false;
    }
    e :| e in t[..i] && e.mtime >= t[i].mtime;
    var k :| 0 <= k < i && t[..i][k] == e;
    assert t[k] == e;
  }

  /** Cutting before position i is enough exactly when the file there is kept by its age. */
  lemma FitsFrom(p: RetentionPolicy, t: seq<TrashEntry>, i: nat, now: real)
    requires Ascending(t) && NoDuplicates(t) && i < |t| && TiesAreSafe(p, t, now)
    ensures p.Fits(t[i..], now) <==> KeptByAge(p, t, now, t[i].mtime)
  {
    hide Weight, From, After, Total;
    FromAt(t, i);
    AfterAt(t, i);
    YoungFrom(p, t, i, now);
    assert t[i] in t;
    if p.Fits(t[i..], now) && !KeptByAge(p, t, now, t[i].mtime) {
      var e := TiedBefore(t, i);
    }
  }

  lemma SafeForEveryWalk(p: RetentionPolicy, files: seq<TrashEntry>, walk: seq<TrashEntry>, now: real)
    requires multiset(files) == multiset(walk) && TiesAreSafe(p, files, now)
    ensures TiesAreSafe(p, walk, now)
    ensures forall m :: KeptByAge(p, walk, now, m) <==> KeptByAge(p, files, now, m)
  {
    hide Weight, From, After;
    SameElements(files, walk);
    forall m: real
      ensures Weight(files, From(m)) == Weight(walk, From(m)) && Weight(files, After(m)) == Weight(walk, After(m))
    {
      WeightOfSame(files, walk, From(m));
      WeightOfSame(files, walk, After(m));
    }
  }

  lemma SelectedInOrder(p: RetentionPolicy, t: seq<TrashEntry>, now: real)
    requires Ascending(t) && NoDuplicates(t) && TiesAreSafe(p, t, now)
    ensures forall e | e in t :: e in t[..p.Cut(t, now)] <==> !KeptByAge(p, t, now, e.mtime)
  {
    hide RetentionPolicy.Fits, KeptByAge, TiesAreSafe;
    var cut := p.Cut(t, now);
    forall e | e in t ensures e in t[..cut] <==> !KeptByAge(p, t, now, e.mtime) {
      var i :| 0 <= i < |t| && t[i] == e;
      FitsFrom(p, t, i, now);
      if i < cut {
        assert t[..cut][i] == e;
      } else {
        FitsLater(p, t, cut, i, now);
        assert e !in t[..cut] by {
          assert forall k | 0 <= k < cut :: t[..cut][k] == t[k];
        }
      }
    }
  }

  /** Under the condition a pass over any walk selects exactly the files that their age condemns. */
  lemma SelectedByAge(p: RetentionPolicy, files: seq<TrashEntry>, walk: seq<TrashEntry>, now: real)
    requires NoDuplicates(files) && multiset(files) == multiset(walk) && TiesAreSafe(p, files, now)
    ensures forall e :: e in p.Select(walk, now) <==> e in files && !KeptByAge(p, files, now, e.mtime)
  {
    hide KeptByAge, TiesAreSafe, RetentionPolicy.Fits;
    var t := SortedByMtime(walk);
    SortSorts(walk);
    SortSorts(files);
    SameNoDuplicates(files, t);
    SafeForEveryWalk(p, files, t, now);
    SameElements(files, t);
    SelectedInOrder(p, t, now);
    assert forall e | e in t[..p.Cut(t, now)] :: e in t;
  }

  lemma SameNoDuplicates(a: seq<TrashEntry>, b: seq<TrashEntry>)
    requires NoDuplicates(a) && multiset(a) == multiset(b)
    ensures NoDuplicates(b)
  {
    NoDuplicatesByCount(a);
    forall i, j | 0 <= i < j < |b| ensures b[i] != b[j] {
      if b[i] == b[j] {
        TwiceCounts(b, i, j);
      }
    }
  }

  // ---------- the condition is needed ----------

  lemma Halves(front: seq<TrashEntry>, last: TrashEntry, j: nat)
    requires j <= |front|
    ensures (front + [last])[..j] == front[..j] && (front + [last])[j..] == front[j..] + [last]
  {
  }

  lemma {:induction false} InsertPlace(s: seq<TrashEntry>, e: TrashEntry) returns (j: nat)
    requires Ascending(s)
    ensures j <= |s| && Insert(s, e) == s[..j] + [e] + s[j..]
    ensures (forall x | x in s[..j] :: x.mtime <= e.mtime) && (forall x | x in s[j..] :: x.mtime > e.mtime)
  {
    hide Insert;
    if s == [] || s[|s| - 1].mtime <= e.mtime {
      j := |s|;
      assert s[..j] == s && s[j..] == [];
      assert forall x | x in s :: x.mtime <= e.mtime;
      InsertAtEnd(s, e);
    } else {
      var front, last := s[..|s| - 1], s[|s| - 1];
      assert s == front + [last];
      assert Ascending(front);
      hide Ascending;
      j := InsertPlace(front, e);
      InsertBefore(front, last, e);
      Halves(front, last, j);
      assert front[..j] + [e] + front[j..] + [last] == front[..j] + [e] + (front[j..] + [last]);
    }
  }

  /** A file that the walk sees first comes before its ties. */
  lemma {:induction false} SeenFirst(f: TrashEntry, s: seq<TrashEntry>) returns (a: seq<TrashEntry>, b: seq<TrashEntry>)
    ensures SortedByMtime([f] + s) == a + [f] + b && forall x | x in a :: x.mtime < f.mtime
  {
    hide Insert;
    if s == [] {
      assert [f] + s == [f] && [f][..0] == [];
      InsertAtEnd([], f);
      a, b := [], [];
    } else {
      var n := |s| - 1;
      assert ([f] + s)[..|s|] == [f] + s[..n];
      a, b := SeenFirst(f, s[..n]);
      SortSorts([f] + s[..n]);
      a, b := InsertBeside(a, f, b, s[n]);
    }
  }

  lemma InsertBeside(a: seq<TrashEntry>, f: TrashEntry, b: seq<TrashEntry>, x: TrashEntry)
    returns (a': seq<TrashEntry>, b': seq<TrashEntry>)
    requires Ascending(a + [f] + b) && forall y | y in a :: y.mtime < f.mtime
    ensures Insert(a + [f] + b, x) == a' + [f] + b' && forall y | y in a' :: y.mtime < f.mtime
  {
    hide Insert;
    var t := a + [f] + b;
    var j := InsertPlace(t, x);
    hide Ascending;
    assert t[|a|] == f;
    if j <= |a| {
      assert t[j..][|a| - j] == f;
      a', b' := a[..j] + [x] + a[j..], b;
      SplitBefore(a, f, b, j);
    } else {
      a', b' := a, b[..j - |a| - 1] + [x] + b[j - |a| - 1..];
      SplitAfter(a, f, b, j);
    }
  }

  lemma SplitBefore(a: seq<TrashEntry>, f: TrashEntry, b: seq<TrashEntry>, j: nat)
    requires j <= |a|
    ensures (a + [f] + b)[..j] == a[..j] && (a + [f] + b)[j..] == a[j..] + [f] + b
  {
  }

  lemma SplitAfter(a: seq<TrashEntry>, f: TrashEntry, b: seq<TrashEntry>, j: nat)
    requires |a| < j <= |a| + 1 + |b|
    ensures var k := j - |a| - 1; (a + [f] + b)[..j] == a + [f] + b[..k] && (a + [f] + b)[j..] == b[k..]
  {
  }

  /** A file that the walk sees last comes after its ties. */
  lemma SeenLast(s: seq<TrashEntry>, f: TrashEntry) returns (a: seq<TrashEntry>, b: seq<TrashEntry>)
    ensures SortedByMtime(s + [f]) == a + [f] + b
    ensures (forall x | x in a :: x.mtime <= f.mtime) && (forall x | x in b :: x.mtime > f.mtime)
  {
    assert (s + [f])[..|s|] == s;
    SortSorts(s);
    var t := SortedByMtime(s);
    var j := InsertPlace(t, f);
    a, b := t[..j], t[j..];
  }

  lemma FirstIsSelected(p: RetentionPolicy, f: TrashEntry, rest: seq<TrashEntry>, now: real)
    requires Weight([f] + rest, From(f.mtime)) > p.maxBytes
    ensures f in p.Select([f] + rest, now)
  {
    hide Weight, SortedByMtime;
    var walk := [f] + rest;
    var t := SortedByMtime(walk);
    SortSorts(walk);
    var a, b := SeenFirst(f, rest);
    WeightOfSame(walk, t, From(f.mtime));
    assert t == a + ([f] + b);
    WeightOfConcat(a, [f] + b, From(f.mtime));
    WeightOfNone(a, From(f.mtime));
    WeightIsPartOfTotal([f] + b, From(f.mtime));
    SelectionIsLeast(p, walk, now);
    assert t[|a|..] == [f] + b;
    assert t[..p.Cut(t, now)][|a|] == f;
  }

  /** The newest of its ties and everything younger. */
  lemma TailOfLast(a: seq<TrashEntry>, f: TrashEntry, b: seq<TrashEntry>)
    requires (forall x | x in a :: x.mtime <= f.mtime) && (forall x | x in b :: x.mtime > f.mtime)
    ensures Total([f] + b) == f.size + Weight(a + [f] + b, After(f.mtime))
  {
    hide Weight, Total;
    WeightOfConcat(a + [f], b, After(f.mtime));
    WeightOfNone(a + [f], After(f.mtime));
    WeightOfAll(b, After(f.mtime));
    TotalOfConcat([f], b);
    TotalOfOne(f);
  }

  lemma KeptFrom(p: RetentionPolicy, t: seq<TrashEntry>, i: nat, now: real)
    requires NoDuplicates(t) && i < |t| && p.Fits(t[i..], now)
    ensures t[i] !in t[..p.Cut(t, now)]
  {
    hide RetentionPolicy.Fits;
    assert p.Cut(t, now) <= i;
    assert forall k | 0 <= k < p.Cut(t, now) :: t[..p.Cut(t, now)][k] == t[k];
  }

  lemma LastIsKept(p: RetentionPolicy, rest: seq<TrashEntry>, f: TrashEntry, now: real)
    requires NoDuplicates(rest + [f]) && f.mtime >= p.Cutoff(now)
    requires f.size + Weight(rest + [f], After(f.mtime)) <= p.maxBytes
    ensures f !in p.Select(rest + [f], now)
  {
    hide Weight, SortedByMtime, Total, NoDuplicates;
    var walk := rest + [f];
    var t := SortedByMtime(walk);
    SortSorts(walk);
    var a, b := SeenLast(rest, f);
    WeightOfSame(walk, t, After(f.mtime));
    TailOfLast(a, f, b);
    SameNoDuplicates(walk, t);
    assert t[|a|] == f && t[|a|..] == [f] + b;
    KeptFrom(p, t, |a|, now);
  }

  /** Without the condition some file is deleted after one walk and kept after another. */
  lemma WalksDisagree(p: RetentionPolicy, files: seq<TrashEntry>, now: real)
    returns (f: TrashEntry, walk: seq<TrashEntry>, other: seq<TrashEntry>)
    requires NoDuplicates(files) && !TiesAreSafe(p, files, now)
    ensures multiset(walk) == multiset(other) == multiset(files)
    ensures f in files && f in p.Select(walk, now) && f !in p.Select(other, now)
  {
    hide Weight, From, After, RetentionPolicy.Select;
    var e :| e in files && (exists g | g in files && e != g && e.mtime == g.mtime >= p.Cutoff(now) ::
      Weight(files, From(e.mtime)) > p.maxBytes && g.size + Weight(files, After(e.mtime)) <= p.maxBytes);
    f :| f in files && e != f && e.mtime == f.mtime >= p.Cutoff(now)
      && Weight(files, From(e.mtime)) > p.maxBytes && f.size + Weight(files, After(e.mtime)) <= p.maxBytes;
    var i :| 0 <= i < |files| && files[i] == f;
    var rest := files[..i] + files[i + 1..];
    WithoutIndex(files, i, From(f.mtime));
    walk, other := [f] + rest, rest + [f];
    WeightOfSame(files, walk, From(f.mtime));
    WeightOfSame(files, other, After(f.mtime));
    SameNoDuplicates(files, other);
    FirstIsSelected(p, f, rest, now);
    LastIsKept(p, rest, f, now);
  }

  // ---------- both ----------

  /** Every walk of the same files selects the same set if and only if the ties are safe: a condition on
      the files alone. */
  lemma WalksAgreeExactlyWhenTiesAreSafe(p: RetentionPolicy, files: seq<TrashEntry>, now: real)
    requires NoDuplicates(files)
    ensures TiesAreSafe(p, files, now) <==>
      forall walk, other | multiset(walk) == multiset(files) && multiset(other) == multiset(files) ::
        Entries(p.Select(walk, now)) == Entries(p.Select(other, now))
  {
    hide RetentionPolicy.Select, TiesAreSafe, KeptByAge;
    if TiesAreSafe(p, files, now) {
      forall walk, other | multiset(walk) == multiset(files) && multiset(other) == multiset(files)
        ensures Entries(p.Select(walk, now)) == Entries(p.Select(other, now))
      {
        SelectedByAge(p, files, walk, now);
        SelectedByAge(p, files, other, now);
      }
    } else {
      var f, walk, other := WalksDisagree(p, files, now);
      assert f in Entries(p.Select(walk, now)) && f !in Entries(p.Select(other, now));
    }
  }

  /** Any walk that sees some of the files, in any order, at any time up to T, selects nothing that a
      pass over all files at T would keep, if the ties are safe at T. */
  lemma AnyWalkSelectsNoMore(p: RetentionPolicy, files: seq<TrashEntry>, walk: seq<TrashEntry>, now: real, T: real)
    requires NoDuplicates(files) && NoDuplicates(walk) && (forall e | e in walk :: e in files)
    requires now <= T && TiesAreSafe(p, files, T)
    ensures forall e | e in p.Select(walk, now) :: e in files && e in p.Select(files, T)
  {
    hide TiesAreSafe, Weight, From;
    SelectedByAge(p, files, files, T);
    SortSorts(walk);
    var t := SortedByMtime(walk);
    var cut := p.Cut(t, now);
    SameElements(walk, t);
    SameNoDuplicates(walk, t);
    forall i | 0 <= i < cut ensures t[i] in p.Select(files, T) {
      if KeptByAge(p, files, T, t[i].mtime) {
        YoungAndLight(p, files, t, i, now, T);
        assert false;
      }
      assert t[i] in t;
    }
  }

  lemma YoungAndLight(p: RetentionPolicy, files: seq<TrashEntry>, t: seq<TrashEntry>, i: nat, now: real, T: real)
    requires NoDuplicates(t) && Ascending(t) && (forall e | e in t :: e in files)
    requires i < |t| && now <= T && KeptByAge(p, files, T, t[i].mtime)
    ensures p.Fits(t[i..], now)
  {
    hide Weight, Total;
    NoDuplicatesAsMultiset(t, files);
    WeightOfFewer(t, files, From(t[i].mtime));
    FromAt(t, i);
    YoungFrom(p, t, i, now);
  }
}
