/** Cleanup passes racing over one trash directory, as a transition system.

    Each pass lists the directory in whatever order it comes, stats the files one by one, asks the
    policy what to delete and unlinks one by one; passes interleave freely, any stat or unlink may fail,
    and files may arrive in between. */
module Cleanup {
  import opened Wrappers
  import opened Retention
  import opened RetentionTheorems
  import opened WalkOrder

  /** `files` are all files ever in the directory, `later` those not there at the beginning, and
      `latest` bounds the clock readings. */
  datatype Setting = Setting(policy: RetentionPolicy, files: seq<TrashEntry>, later: set<TrashEntry>, latest: real)

  /** The counters of the unlink loop. */
  datatype Tally = Tally(deleted: nat, alreadyGone: nat, failed: nat, freedBytes: nat)

  /** `missed` are the files the pass has not seen; `absent` those that had not arrived when it began. */
  datatype Pass =
    | Scanning(listing: seq<TrashEntry>, next: nat, entries: seq<TrashEntry>,
               missed: set<TrashEntry>, absent: set<TrashEntry>, clean: bool)
    | Unlinking(entries: seq<TrashEntry>, now: real, next: nat, tally: Tally,
                missed: set<TrashEntry>, absent: set<TrashEntry>, clean: bool)
  {
    function Counts(): Tally {
      if Scanning? then Tally(0, 0, 0, 0) else tally
    }

    predicate Finished() {
      Unlinking? && next == |entries|
    }
  }

  datatype Trash = Trash(pending: set<TrashEntry>, removed: set<TrashEntry>, passes: seq<Pass>)

  datatype Event =
    | Arrive(file: TrashEntry)
    | Begin(listing: seq<TrashEntry>)
    | Stat(pass: nat, fails: bool)
    | Choose(pass: nat, now: real)
    | Unlink(pass: nat, fails: bool)

  ghost function Selection(c: Setting, p: Pass): seq<TrashEntry>
    requires p.Unlinking?
  {
    c.policy.Select(p.entries, p.now)
  }

  ghost predicate Enabled(c: Setting, t: Trash, e: Event) {
    match e
    case Arrive(f) => f in t.pending
    case Begin(listing) => multiset(listing) == multiset(Without(c.files, t.removed + t.pending))
    case Stat(i, _) => i < |t.passes| && t.passes[i].Scanning? && t.passes[i].next < |t.passes[i].listing|
    case Choose(i, now) =>
      i < |t.passes| && t.passes[i].Scanning? && t.passes[i].next == |t.passes[i].listing| && now <= c.latest
    case Unlink(i, _) => i < |t.passes| && t.passes[i].Unlinking? && t.passes[i].next < |t.passes[i].entries|
  }

  /** One pass looks at one file: stat it. */
  function StatNext(p: Pass, removed: set<TrashEntry>, fails: bool): Pass
    requires p.Scanning? && p.next < |p.listing|
  {
    var f := p.listing[p.next];
    if f in removed || fails
    then Scanning(p.listing, p.next + 1, p.entries, p.missed + {f}, p.absent, p.clean && f in removed)
    else Scanning(p.listing, p.next + 1, p.entries + [f], p.missed, p.absent, p.clean)
  }

  datatype Attempt = Skip | Fail | Gone | Deleted

  ghost function AttemptOf(c: Setting, p: Pass, removed: set<TrashEntry>, fails: bool): Attempt
    requires p.Unlinking? && p.next < |p.entries|
  {
    if p.entries[p.next] !in Selection(c, p) then Skip
    else if fails then Fail
    else if p.entries[p.next] in removed then Gone
    else Deleted
  }

  function Tallied(t: Tally, a: Attempt, size: nat): Tally {
    match a
    case Skip => t
    case Fail => t.(failed := t.failed + 1)
    case Gone => t.(alreadyGone := t.alreadyGone + 1)
    case Deleted => t.(deleted := t.deleted + 1, freedBytes := t.freedBytes + size)
  }

  /** One pass looks at one entry: unlink it if it is selected. */
  ghost function AfterUnlink(c: Setting, p: Pass, removed: set<TrashEntry>, fails: bool): Pass
    requires p.Unlinking? && p.next < |p.entries|
  {
    var a := AttemptOf(c, p, removed, fails);
    Unlinking(p.entries, p.now, p.next + 1, Tallied(p.tally, a, p.entries[p.next].size),
              p.missed, p.absent, p.clean && !a.Fail?)
  }

  ghost function Step(c: Setting, t: Trash, e: Event): Trash
    requires Enabled(c, t, e)
  {
    match e
    case Arrive(f) => t.(pending := t.pending - {f})
    case Begin(listing) =>
      t.(passes := t.passes + [Scanning(listing, 0, [], t.removed + t.pending, t.pending, true)])
    case Stat(i, fails) => t.(passes := t.passes[i := StatNext(t.passes[i], t.removed, fails)])
    case Choose(i, now) =>
      var p := t.passes[i];
      t.(passes := t.passes[i := Unlinking(p.entries, now, 0, Tally(0, 0, 0, 0), p.missed, p.absent, p.clean)])
    case Unlink(i, fails) =>
      var p := t.passes[i];
      var a := AttemptOf(c, p, t.removed, fails);
      Trash(t.pending, if a.Deleted? then t.removed + {p.entries[p.next]} else t.removed,
            t.passes[i := AfterUnlink(c, p, t.removed, fails)])
  }

  /** Any number of passes, in any interleaving, from a directory nobody has cleaned. */
  ghost function Run(c: Setting, es: seq<Event>): Option<Trash> {
    if es == [] then Some(Trash(c.later, {}, []))
    else
      match Run(c, es[..|es| - 1])
      case None => None
      case Some(t) => if Enabled(c, t, es[|es| - 1]) then Some(Step(c, t, es[|es| - 1])) else None
  }

  // ---------- invariant ----------

  function SumDeleted(passes: seq<Pass>): nat {
    if passes == [] then 0 else SumDeleted(passes[..|passes| - 1]) + passes[|passes| - 1].Counts().deleted
  }

  function SumFreed(passes: seq<Pass>): nat {
    if passes == [] then 0 else SumFreed(passes[..|passes| - 1]) + passes[|passes| - 1].Counts().freedBytes
  }

  /** Both lists hold the same files, in whatever order. */
  ghost predicate SameFiles(a: seq<TrashEntry>, b: seq<TrashEntry>) {
    multiset(a) == multiset(b)
  }

  ghost predicate PassInv(c: Setting, removed: set<TrashEntry>, p: Pass) {
    && p.absent <= p.missed
    && (p.clean ==> p.missed <= removed + p.absent)
    && match p
       case Scanning(listing, next, entries, missed, _, _) =>
         && next <= |listing|
         && NoDuplicates(listing)
         && entries == Without(listing[..next], missed)
         && (forall f | f in listing[next..] :: f !in missed)
         && SameFiles(Without(listing, missed), Without(c.files, missed))
       case Unlinking(entries, now, next, tally, missed, _, clean) =>
         && next <= |entries| && now <= c.latest
         && SameFiles(entries, Without(c.files, missed))
         && NoDuplicates(entries)
         && tally.deleted + tally.alreadyGone + tally.failed
            == next - |Without(entries[..next], Entries(Selection(c, p)))|
         && (clean ==> tally.failed == 0)
         && (clean ==> forall k | 0 <= k < next && entries[k] in Selection(c, p) :: entries[k] in removed)
  }

  ghost predicate Inv(c: Setting, t: Trash) {
    && NoDuplicates(c.files)
    && (forall e | e in t.removed :: e in c.files)
    && (TiesAreSafe(c.policy, c.files, c.latest) ==>
          forall e | e in t.removed :: e in c.policy.Select(c.files, c.latest))
    && (forall i | 0 <= i < |t.passes| :: PassInv(c, t.removed, t.passes[i]) && t.pending <= t.passes[i].absent)
    && SumDeleted(t.passes) + |Without(c.files, t.removed)| == |c.files|
    && SumFreed(t.passes) + Total(Without(c.files, t.removed)) == Total(c.files)
  }

  // ---------- facts about Without ----------

  lemma {:induction false} WithoutTwice(s: seq<TrashEntry>, a: set<TrashEntry>, b: set<TrashEntry>)
    ensures Without(Without(s, a), b) == Without(s, a + b)
  {
    if s != [] {
      var n := |s| - 1;
      WithoutTwice(s[..n], a, b);
      if s[n] !in a {
        WithoutOfAppend(Without(s[..n], a), s[n], b);
      }
    }
  }

  lemma {:induction false} WithoutCounts(s: seq<TrashEntry>, d: set<TrashEntry>)
    ensures forall e :: multiset(Without(s, d))[e] == if e in d then 0 else multiset(s)[e]
  {
    if s != [] {
      WithoutCounts(s[..|s| - 1], d);
      assert s == s[..|s| - 1] + [s[|s| - 1]];
    }
  }

  lemma SameFilesWithout(a: seq<TrashEntry>, b: seq<TrashEntry>, d: set<TrashEntry>)
    requires SameFiles(a, b)
    ensures SameFiles(Without(a, d), Without(b, d))
  {
    WithoutCounts(a, d);
    WithoutCounts(b, d);
    var x, y := multiset(Without(a, d)), multiset(Without(b, d));
    assert forall e :: x[e] == y[e];
  }

  lemma SameFilesMembers(a: seq<TrashEntry>, b: seq<TrashEntry>)
    requires SameFiles(a, b)
    ensures |a| == |b| && forall e :: e in a <==> e in b
    ensures NoDuplicates(a) ==> NoDuplicates(b)
  {
    SameElements(a, b);
    if NoDuplicates(a) {
      SameNoDuplicates(a, b);
    }
  }

  lemma WithoutOfNone(d: set<TrashEntry>)
    ensures Without([], d) == []
  {
  }

  lemma {:induction false} WithoutNoDuplicates(s: seq<TrashEntry>, d: set<TrashEntry>)
    requires NoDuplicates(s)
    ensures NoDuplicates(Without(s, d))
  {
    if s != [] {
      var n := |s| - 1;
      WithoutNoDuplicates(s[..n], d);
      WithoutMembers(s[..n], d);
    }
  }

  lemma {:induction false} WithoutUnrelated(s: seq<TrashEntry>, d: set<TrashEntry>, f: TrashEntry)
    requires f !in s
    ensures Without(s, d + {f}) == Without(s, d)
  {
    if s != [] {
      WithoutUnrelated(s[..|s| - 1], d, f);
    }
  }

  /** Taking one more file away takes one file and its bytes. */
  lemma {:induction false} WithoutOneMore(s: seq<TrashEntry>, d: set<TrashEntry>, f: TrashEntry)
    requires NoDuplicates(s) && f in s && f !in d
    ensures |Without(s, d + {f})| + 1 == |Without(s, d)|
    ensures Total(Without(s, d + {f})) + f.size == Total(Without(s, d))
  {
    hide Without, Total;
    var s', x := s[..|s| - 1], s[|s| - 1];
    assert s == s' + [x];
    WithoutOfAppend(s', x, d);
    WithoutOfAppend(s', x, d + {f});
    TotalOfAppend(Without(s', d), x);
    TotalOfAppend(Without(s', d + {f}), x);
    if x == f {
      WithoutUnrelated(s', d, f);
    } else {
      WithoutOneMore(s', d, f);
    }
  }

  lemma {:induction false} WithoutMoreIsLighter(s: seq<TrashEntry>, a: set<TrashEntry>, b: set<TrashEntry>)
    requires forall e | e in a && e in s :: e in b
    ensures Total(Without(s, b)) <= Total(Without(s, a))
  {
    if s != [] {
      var s', x := s[..|s| - 1], s[|s| - 1];
      assert forall e | e in s' :: e in s;
      WithoutMoreIsLighter(s', a, b);
      TotalOfAppend(Without(s', a), x);
      TotalOfAppend(Without(s', b), x);
    }
  }

  lemma {:induction false} SumsUpdate(passes: seq<Pass>, i: nat, p: Pass)
    requires i < |passes|
    ensures SumDeleted(passes[i := p]) + passes[i].Counts().deleted == SumDeleted(passes) + p.Counts().deleted
    ensures SumFreed(passes[i := p]) + passes[i].Counts().freedBytes == SumFreed(passes) + p.Counts().freedBytes
  {
    var n := |passes| - 1;
    if i == n {
      assert passes[i := p][..n] == passes[..n];
    } else {
      assert passes[i := p][..n] == passes[..n][i := p];
      SumsUpdate(passes[..n], i, p);
    }
  }

  // ---------- every event keeps the invariant ----------

  lemma BeginStep(c: Setting, t: Trash, listing: seq<TrashEntry>)
    requires Inv(c, t) && Enabled(c, t, Begin(listing))
    ensures Inv(c, Step(c, t, Begin(listing)))
  {
    hide Without, Total, Selection, RetentionPolicy.Select, TiesAreSafe, NoDuplicates;
    var gone := t.removed + t.pending;
    WithoutOfNone(gone);
    WithoutNoDuplicates(c.files, gone);
    WithoutMembers(c.files, gone);
    SameFilesMembers(Without(c.files, gone), listing);
    SameFilesWithout(listing, Without(c.files, gone), gone);
    WithoutTwice(c.files, gone, gone);
    assert gone + gone == gone;
    assert listing[..0] == [] && listing[0..] == listing;
    var t' := Step(c, t, Begin(listing));
    assert t'.passes[..|t.passes|] == t.passes;
    assert PassInv(c, t.removed, t'.passes[|t.passes|]);
  }

  lemma ArriveStep(c: Setting, t: Trash, f: TrashEntry)
    requires Inv(c, t) && f in t.pending
    ensures Inv(c, Step(c, t, Arrive(f)))
  {
    hide PassInv, RetentionPolicy.Select, Without, Total, NoDuplicates, TiesAreSafe;
  }

  lemma NextIsNew(s: seq<TrashEntry>, n: nat)
    requires NoDuplicates(s) && n < |s|
    ensures s[n] !in s[..n] && s[n] !in s[n + 1..] && s[n] in s[n..]
    ensures forall g | g in s[n + 1..] :: g in s[n..]
  {
    assert s[n..] == [s[n]] + s[n + 1..];
  }

  lemma StatKeepsPass(c: Setting, p: Pass, removed: set<TrashEntry>, fails: bool)
    requires p.Scanning? && p.next < |p.listing| && PassInv(c, removed, p)
    ensures PassInv(c, removed, StatNext(p, removed, fails))
  {
    hide Without, NoDuplicates;
    var n := p.next;
    var f := p.listing[n];
    var p' := StatNext(p, removed, fails);
    NextIsNew(p.listing, n);
    assert p.listing[..n + 1] == p.listing[..n] + [f];
    WithoutOfAppend(p.listing[..n], f, p'.missed);
    if f in removed || fails {
      WithoutUnrelated(p.listing[..n], p.missed, f);
      WithoutTwice(p.listing, p.missed, {f});
      WithoutTwice(c.files, p.missed, {f});
      SameFilesWithout(Without(p.listing, p.missed), Without(c.files, p.missed), {f});
    }
  }

  lemma ChooseKeepsPass(c: Setting, p: Pass, removed: set<TrashEntry>, now: real)
    requires p.Scanning? && p.next == |p.listing| && PassInv(c, removed, p) && now <= c.latest && NoDuplicates(c.files)
    ensures PassInv(c, removed, Unlinking(p.entries, now, 0, Tally(0, 0, 0, 0), p.missed, p.absent, p.clean))
  {
    hide NoDuplicates, RetentionPolicy.Select;
    assert p.listing[..p.next] == p.listing;
    WithoutNoDuplicates(p.listing, p.missed);
    assert p.entries[..0] == [];
  }

  lemma UnlinkKeepsPass(c: Setting, p: Pass, removed: set<TrashEntry>, removed': set<TrashEntry>, fails: bool)
    requires p.Unlinking? && p.next < |p.entries| && PassInv(c, removed, p)
    requires removed <= removed' && (AttemptOf(c, p, removed, fails).Deleted? ==> p.entries[p.next] in removed')
    ensures PassInv(c, removed', AfterUnlink(c, p, removed, fails))
  {
    hide NoDuplicates, RetentionPolicy.Select, Without, Entries;
    var n := p.next;
    var d := Entries(Selection(c, p));
    assert p.entries[..n + 1] == p.entries[..n] + [p.entries[n]];
    WithoutOfAppend(p.entries[..n], p.entries[n], d);
    assert p.entries[n] in d <==> p.entries[n] in Selection(c, p) by { EntriesOf(Selection(c, p), p.entries[n]); }
  }

  lemma EntriesOf(s: seq<TrashEntry>, e: TrashEntry)
    ensures e in Entries(s) <==> e in s
  {
  }

  lemma OthersKeepPass(c: Setting, removed: set<TrashEntry>, removed': set<TrashEntry>, p: Pass)
    requires PassInv(c, removed, p) && removed <= removed'
    ensures PassInv(c, removed', p)
  {
  }

  lemma SeenFiles(c: Setting, removed: set<TrashEntry>, p: Pass)
    requires p.Unlinking? && PassInv(c, removed, p)
    ensures NoDuplicates(p.entries) && p.now <= c.latest && p.next <= |p.entries|
    ensures forall e :: e in p.entries <==> e in c.files && e !in p.missed
  {
    hide NoDuplicates, RetentionPolicy.Select, Without;
    SameFilesMembers(p.entries, Without(c.files, p.missed));
    WithoutMembers(c.files, p.missed);
  }

  /** What a pass is about to delete, a single pass at the latest time would delete too. */
  lemma DeletionIsSafe(c: Setting, p: Pass, removed: set<TrashEntry>, fails: bool)
    requires p.Unlinking? && p.next < |p.entries| && PassInv(c, removed, p) && NoDuplicates(c.files)
    requires AttemptOf(c, p, removed, fails).Deleted?
    ensures p.entries[p.next] in c.files
    ensures TiesAreSafe(c.policy, c.files, c.latest) ==> p.entries[p.next] in c.policy.Select(c.files, c.latest)
  {
    hide RetentionPolicy.Select, PassInv, TiesAreSafe, NoDuplicates;
    SeenFiles(c, removed, p);
    if TiesAreSafe(c.policy, c.files, c.latest) {
      AnyWalkSelectsNoMore(c.policy, c.files, p.entries, p.now, c.latest);
    }
  }

  lemma UnlinkStep(c: Setting, t: Trash, i: nat, fails: bool)
    requires Inv(c, t) && Enabled(c, t, Unlink(i, fails))
    ensures Inv(c, Step(c, t, Unlink(i, fails)))
  {
    hide RetentionPolicy.Select, PassInv, Without, Total, NoDuplicates, TiesAreSafe;
    var p, e := t.passes[i], t.passes[i].entries[t.passes[i].next];
    var t' := Step(c, t, Unlink(i, fails));
    assert t'.passes[i] == AfterUnlink(c, p, t.removed, fails);
    UnlinkKeepsPass(c, p, t.removed, t'.removed, fails);
    forall k | 0 <= k < |t'.passes| ensures PassInv(c, t'.removed, t'.passes[k]) {
      if k != i {
        OthersKeepPass(c, t.removed, t'.removed, t.passes[k]);
      }
    }
    SumsUpdate(t.passes, i, t'.passes[i]);
    if AttemptOf(c, p, t.removed, fails).Deleted? {
      DeletionIsSafe(c, p, t.removed, fails);
      WithoutOneMore(c.files, t.removed, e);
    }
  }

  lemma StatStep(c: Setting, t: Trash, i: nat, fails: bool)
    requires Inv(c, t) && Enabled(c, t, Stat(i, fails))
    ensures Inv(c, Step(c, t, Stat(i, fails)))
  {
    hide PassInv, RetentionPolicy.Select, Without, Total, NoDuplicates, TiesAreSafe;
    StatKeepsPass(c, t.passes[i], t.removed, fails);
    SumsUpdate(t.passes, i, StatNext(t.passes[i], t.removed, fails));
  }

  lemma ChooseStep(c: Setting, t: Trash, i: nat, now: real)
    requires Inv(c, t) && Enabled(c, t, Choose(i, now))
    ensures Inv(c, Step(c, t, Choose(i, now)))
  {
    hide PassInv, RetentionPolicy.Select, Without, Total, NoDuplicates, TiesAreSafe;
    ChooseKeepsPass(c, t.passes[i], t.removed, now);
    SumsUpdate(t.passes, i, Step(c, t, Choose(i, now)).passes[i]);
  }

  lemma InvStep(c: Setting, t: Trash, e: Event)
    requires Inv(c, t) && Enabled(c, t, e)
    ensures Inv(c, Step(c, t, e))
  {
    hide Inv, Step, Enabled;
    match e
    case Arrive(f) => ArrivalIsEnabled(c, t, f); ArriveStep(c, t, f);
    case Begin(listing) => BeginStep(c, t, listing);
    case Stat(i, fails) => StatStep(c, t, i, fails);
    case Choose(i, now) => ChooseStep(c, t, i, now);
    case Unlink(i, fails) => UnlinkStep(c, t, i, fails);
  }

  lemma ArrivalIsEnabled(c: Setting, t: Trash, f: TrashEntry)
    requires Enabled(c, t, Arrive(f))
    ensures f in t.pending
  {
  }

  lemma {:induction false} RunKeepsInv(c: Setting, es: seq<Event>)
    requires NoDuplicates(c.files) && Run(c, es).Some?
    ensures Inv(c, Run(c, es).value)
  {
    hide Step, Enabled;
    if es == [] {
      WithoutStrangers(c.files, {});
    } else {
      hide Inv, NoDuplicates;
      RunKeepsInv(c, es[..|es| - 1]);
      InvStep(c, Run(c, es[..|es| - 1]).value, es[|es| - 1]);
    }
  }

  // ---------- what every run guarantees ----------

  /** However many passes race over however ordered listings, fail half-way or repeat up to the latest
      time, whatever files arrive, no file is deleted that one pass over all the files at that time would
      keep, in whatever order it walked them: if the ties are safe. */
  lemma PassesNeverDeleteMore(c: Setting, es: seq<Event>, walk: seq<TrashEntry>)
    requires NoDuplicates(c.files) && Run(c, es).Some?
    requires SameFiles(walk, c.files) && TiesAreSafe(c.policy, c.files, c.latest)
    ensures forall e | e in Run(c, es).value.removed :: e in c.policy.Select(walk, c.latest)
  {
    RunKeepsInv(c, es);
    hide Run, TiesAreSafe, NoDuplicates, RetentionPolicy.Select, KeptByAge;
    SelectedByAge(c.policy, c.files, c.files, c.latest);
    SelectedByAge(c.policy, c.files, walk, c.latest);
  }

  // ---------- passes that list in one order ----------

  /** Every listing follows the order of c.files. */
  ghost predicate InOneOrder(c: Setting, es: seq<Event>) {
    forall e | e in es && e.Begin? :: exists d :: e.listing == Without(c.files, d)
  }

  ghost predicate OrderedPass(c: Setting, p: Pass) {
    if p.Scanning? then Without(p.listing, p.missed) == Without(c.files, p.missed)
    else p.entries == Without(c.files, p.missed)
  }

  ghost predicate OrderInv(c: Setting, t: Trash) {
    && (forall i | 0 <= i < |t.passes| :: OrderedPass(c, t.passes[i]))
    && (forall e | e in t.removed :: e in c.policy.Select(c.files, c.latest))
  }

  lemma {:induction false} WithoutAlike(s: seq<TrashEntry>, d: set<TrashEntry>, d': set<TrashEntry>)
    requires forall e | e in s :: e in d <==> e in d'
    ensures Without(s, d) == Without(s, d')
  {
    if s != [] {
      var n := |s| - 1;
      assert s[n] in s;
      WithoutAlike(s[..n], d, d');
    }
  }

  lemma OrderedBegin(c: Setting, t: Trash, listing: seq<TrashEntry>)
    requires Enabled(c, t, Begin(listing)) && exists d :: listing == Without(c.files, d)
    ensures OrderedPass(c, Scanning(listing, 0, [], t.removed + t.pending, t.pending, true))
  {
    hide Without;
    var gone := t.removed + t.pending;
    var d :| listing == Without(c.files, d);
    WithoutMembers(c.files, d);
    WithoutMembers(c.files, gone);
    SameFilesMembers(listing, Without(c.files, gone));
    WithoutAlike(c.files, d, gone);
    WithoutTwice(c.files, gone, gone);
    assert gone + gone == gone;
  }

  lemma OrderedStat(c: Setting, p: Pass, removed: set<TrashEntry>, fails: bool)
    requires p.Scanning? && p.next < |p.listing| && OrderedPass(c, p)
    ensures OrderedPass(c, StatNext(p, removed, fails))
  {
    hide Without;
    var f := p.listing[p.next];
    WithoutTwice(p.listing, p.missed, {f});
    WithoutTwice(c.files, p.missed, {f});
  }

  lemma OrderedChoose(c: Setting, p: Pass, removed: set<TrashEntry>)
    requires p.Scanning? && p.next == |p.listing| && OrderedPass(c, p) && PassInv(c, removed, p)
    ensures p.entries == Without(c.files, p.missed)
  {
    hide Without, NoDuplicates;
    assert p.listing[..p.next] == p.listing;
  }

  lemma OrderedStep(c: Setting, t: Trash, e: Event)
    requires Inv(c, t) && OrderInv(c, t) && Enabled(c, t, e) && InOneOrder(c, [e])
    ensures OrderInv(c, Step(c, t, e))
  {
    hide RetentionPolicy.Select, OrderedPass, PassInv, Without, Total, NoDuplicates, TiesAreSafe;
    assert e in [e];
    match e
    case Arrive(f) =>
    case Begin(listing) => OrderedBegin(c, t, listing);
    case Stat(i, fails) => OrderedStat(c, t.passes[i], t.removed, fails);
    case Choose(i, now) =>
      OrderedChoose(c, t.passes[i], t.removed);
      OrderedUnlinking(c, t.passes[i], Step(c, t, e).passes[i]);
    case Unlink(i, fails) =>
      OrderedUnlinking(c, t.passes[i], Step(c, t, e).passes[i]);
      SeenFiles(c, t.removed, t.passes[i]);
      NoPassSelectsMore(c.policy, c.files, t.passes[i].missed, t.passes[i].now, c.latest);
  }

  lemma OrderedUnlinking(c: Setting, p: Pass, p': Pass)
    requires p'.Unlinking? && p'.entries == p.entries && p'.missed == p.missed
    ensures p.Unlinking? && OrderedPass(c, p) ==> p.entries == Without(c.files, p.missed)
    ensures p.entries == Without(c.files, p.missed) ==> OrderedPass(c, p')
  {
  }

  /** Passes that list in one order never delete more, ties or not. */
  lemma {:induction false} OrderedPassesNeverDeleteMore(c: Setting, es: seq<Event>)
    requires NoDuplicates(c.files) && Run(c, es).Some? && InOneOrder(c, es)
    ensures OrderInv(c, Run(c, es).value)
  {
    hide Step, Enabled, Inv, NoDuplicates, OrderInv;
    if es == [] {
      OrderedAtStart(c);
    } else {
      var n := |es| - 1;
      assert es[n] in es && forall e | e in [es[n]] :: e in es;
      OrderedPassesNeverDeleteMore(c, es[..n]);
      RunKeepsInv(c, es[..n]);
      OrderedStep(c, Run(c, es[..n]).value, es[n]);
    }
  }

  lemma OrderedAtStart(c: Setting)
    ensures OrderInv(c, Trash(c.later, {}, []))
  {
  }

  /** The passes' counters account for exactly the files and bytes that are gone. */
  lemma CountersAddUp(c: Setting, es: seq<Event>)
    requires NoDuplicates(c.files) && Run(c, es).Some?
    ensures var t := Run(c, es).value;
      && SumDeleted(t.passes) == |c.files| - |Without(c.files, t.removed)|
      && SumFreed(t.passes) == Total(c.files) - Total(Without(c.files, t.removed))
  {
    RunKeepsInv(c, es);
  }

  /** Once any pass has finished without a stat or unlink error, what is left of the files that were
      there when it began is within TTL and fits the size cap, however many other passes ran beside it. */
  lemma CleanPassMeetsThePolicy(c: Setting, es: seq<Event>, i: nat)
    requires NoDuplicates(c.files) && Run(c, es).Some?
    requires i < |Run(c, es).value.passes| && Run(c, es).value.passes[i].Finished() && Run(c, es).value.passes[i].clean
    ensures var t := Run(c, es).value;
      c.policy.Fits(Without(c.files, t.removed + t.passes[i].absent), t.passes[i].now)
  {
    RunKeepsInv(c, es);
    hide Run, Total, RetentionPolicy.Select, SumDeleted, SumFreed, TiesAreSafe, NoDuplicates, Without;
    var t := Run(c, es).value;
    CleanPassFits(c, t.removed, t.passes[i]);
  }

  lemma CleanPassFits(c: Setting, removed: set<TrashEntry>, p: Pass)
    requires PassInv(c, removed, p) && p.Finished() && p.clean
    ensures c.policy.Fits(Without(c.files, removed + p.absent), p.now)
  {
    hide Total, RetentionPolicy.Select, Without, NoDuplicates;
    var sel, gone := Entries(Selection(c, p)), removed + p.absent;
    WithoutMembers(c.files, p.missed);
    SeenFiles(c, removed, p);
    forall e | e in p.missed + sel && e in c.files ensures e in gone {
      if e !in p.missed {
        var k :| 0 <= k < |p.entries| && p.entries[k] == e;
      }
    }
    WithoutMoreIsLighter(c.files, p.missed + sel, gone);
    WithoutTwice(c.files, p.missed, sel);
    SameFilesWithout(p.entries, Without(c.files, p.missed), sel);
    TotalOfSame(Without(p.entries, sel), Without(Without(c.files, p.missed), sel));
    KeptFits(c.policy, p.entries, p.now);
    WithoutMembers(c.files, gone);
    WithoutMembers(p.entries, sel);
  }

  /** What one pass leaves fits, in any order. */
  lemma KeptFits(p: RetentionPolicy, files: seq<TrashEntry>, now: real)
    requires NoDuplicates(files)
    ensures p.Fits(Without(files, Entries(p.Select(files, now))), now)
  {
    hide Total, Without, NoDuplicates, SortedByMtime;
    var left := Without(files, Entries(p.Select(files, now)));
    LeftIsKept(p, files, now);
    SortTotal(left);
    SelectionIsLeast(p, files, now);
    SortMembers(left);
  }

  lemma TotalOfSame(a: seq<TrashEntry>, b: seq<TrashEntry>)
    requires SameFiles(a, b)
    ensures Total(a) == Total(b)
  {
    var every := (e: TrashEntry) => true;
    WeightOfSame(a, b, every);
    WeightOfAll(a, every);
    WeightOfAll(b, every);
  }

  /** CleanupReport's `kept`, as the code computes it. */
  function Kept(p: Pass): int
    requires p.Unlinking?
  {
    |p.entries| - p.tally.deleted - p.tally.alreadyGone
  }

  /** `kept` is documented as the files not selected; it is that number exactly when no unlink failed. */
  lemma KeptMeansUnselected(c: Setting, es: seq<Event>, i: nat)
    requires NoDuplicates(c.files) && Run(c, es).Some?
    requires i < |Run(c, es).value.passes| && Run(c, es).value.passes[i].Finished()
    ensures var p := Run(c, es).value.passes[i];
      && Kept(p) == |p.entries| - |Selection(c, p)| + p.tally.failed
      && (Kept(p) == |p.entries| - |Selection(c, p)| <==> p.tally.failed == 0)
  {
    RunKeepsInv(c, es);
    hide Run, Total, SumDeleted, SumFreed;
    var t := Run(c, es).value;
    var p := t.passes[i];
    assert PassInv(c, t.removed, p);
    assert p.entries[..p.next] == p.entries;
    LeftIsKept(c.policy, p.entries, p.now);
  }

  // ---------- runs that show what the conditions are for ----------

  lemma OneMore(c: Setting, es: seq<Event>, t: Trash, e: Event)
    requires Run(c, es) == Some(t) && Enabled(c, t, e)
    ensures Run(c, es + [e]) == Some(Step(c, t, e))
  {
    hide Enabled, Step;
    assert (es + [e])[..|es|] == es;
  }

  /** Nothing has been removed and pass i stands at file n of its listing. */
  ghost predicate ScanningAt(c: Setting, es: seq<Event>, i: nat, walk: seq<TrashEntry>, n: nat) {
    && Run(c, es).Some? && Run(c, es).value.removed == {} && Run(c, es).value.pending == {}
    && i < |Run(c, es).value.passes| && n <= |walk|
    && Run(c, es).value.passes[i] == Scanning(walk, n, walk[..n], {}, {}, true)
  }

  ghost predicate OthersAsIn(c: Setting, es: seq<Event>, es': seq<Event>, i: nat)
    requires Run(c, es).Some? && Run(c, es').Some?
  {
    && |Run(c, es').value.passes| == |Run(c, es).value.passes|
    && forall k | 0 <= k < |Run(c, es).value.passes| && k != i ::
         Run(c, es').value.passes[k] == Run(c, es).value.passes[k]
  }

  /** A pass that meets no stat error sees its whole listing. */
  lemma {:induction false} ScanAll(c: Setting, es: seq<Event>, i: nat, walk: seq<TrashEntry>, n: nat)
    returns (longer: seq<Event>)
    requires ScanningAt(c, es, i, walk, n)
    ensures ScanningAt(c, longer, i, walk, |walk|) && OthersAsIn(c, es, longer, i)
    decreases |walk| - n
  {
    hide Run;
    if n == |walk| {
      longer := es;
    } else {
      var e := Stat(i, false);
      OneMore(c, es, Run(c, es).value, e);
      assert walk[..n + 1] == walk[..n] + [walk[n]];
      longer := ScanAll(c, es + [e], i, walk, n + 1);
    }
  }

  /** Pass i stands before entry n of its unlink loop. */
  ghost predicate UnlinkingAt(c: Setting, es: seq<Event>, i: nat, walk: seq<TrashEntry>, now: real, n: nat) {
    && Run(c, es).Some? && i < |Run(c, es).value.passes| && n <= |walk|
    && var p := Run(c, es).value.passes[i];
      p.Unlinking? && p.entries == walk && p.now == now && p.next == n
  }

  /** A pass that meets no unlink error removes what it selected and nothing else. */
  lemma {:induction false} UnlinkAll(c: Setting, es: seq<Event>, i: nat, walk: seq<TrashEntry>, now: real, n: nat)
    returns (longer: seq<Event>)
    requires UnlinkingAt(c, es, i, walk, now, n)
    ensures UnlinkingAt(c, longer, i, walk, now, |walk|) && OthersAsIn(c, es, longer, i)
    ensures Run(c, longer).value.removed
         == Run(c, es).value.removed + set e | e in walk[n..] && e in c.policy.Select(walk, now)
    decreases |walk| - n
  {
    hide Run, RetentionPolicy.Select;
    if n == |walk| {
      longer := es;
    } else {
      var e := Unlink(i, false);
      OneMore(c, es, Run(c, es).value, e);
      assert walk[n..] == [walk[n]] + walk[n + 1..];
      longer := UnlinkAll(c, es + [e], i, walk, now, n + 1);
    }
  }

  lemma ListAndScan(c: Setting, es: seq<Event>, walk: seq<TrashEntry>) returns (longer: seq<Event>)
    requires Run(c, es).Some? && Run(c, es).value.removed == {} && Run(c, es).value.pending == {}
    requires SameFiles(walk, c.files)
    ensures var passes := Run(c, es).value.passes;
      && ScanningAt(c, longer, |passes|, walk, |walk|)
      && |Run(c, longer).value.passes| == |passes| + 1 && Run(c, longer).value.passes[..|passes|] == passes
  {
    hide Run, Without;
    WithoutStrangers(c.files, {});
    var t := Run(c, es).value;
    assert t.removed + t.pending == {};
    OneMore(c, es, t, Begin(walk));
    longer := ScanAll(c, es + [Begin(walk)], |t.passes|, walk, 0);
    assert forall k | 0 <= k < |t.passes| :: Run(c, longer).value.passes[k] == t.passes[k];
  }

  lemma ChooseAndUnlink(c: Setting, es: seq<Event>, i: nat, walk: seq<TrashEntry>, now: real)
    returns (longer: seq<Event>)
    requires Run(c, es).Some? && i < |Run(c, es).value.passes| && now <= c.latest
    requires Run(c, es).value.passes[i] == Scanning(walk, |walk|, walk, {}, {}, true)
    ensures Run(c, longer).Some? && OthersAsIn(c, es, longer, i)
    ensures Run(c, longer).value.removed == Run(c, es).value.removed + Entries(c.policy.Select(walk, now))
  {
    hide Run, RetentionPolicy.Select;
    OneMore(c, es, Run(c, es).value, Choose(i, now));
    longer := UnlinkAll(c, es + [Choose(i, now)], i, walk, now, 0);
    assert walk[0..] == walk;
    SelectedAreWalked(c.policy, walk, now);
  }

  lemma SelectedAreWalked(p: RetentionPolicy, walk: seq<TrashEntry>, now: real)
    ensures forall e | e in p.Select(walk, now) :: e in walk
  {
    hide SortedByMtime;
    var t := SortedByMtime(walk);
    SortMembers(walk);
    assert forall e | e in t[..p.Cut(t, now)] :: e in t;
  }

  /** Everything that is to arrive has arrived, and no pass has begun. */
  lemma {:induction false} ArriveAll(c: Setting, es: seq<Event>) returns (longer: seq<Event>)
    requires Run(c, es).Some? && Run(c, es).value.removed == {} && Run(c, es).value.passes == []
    ensures Run(c, longer) == Some(Trash({}, {}, []))
    decreases |Run(c, es).value.pending|
  {
    hide Run;
    var t := Run(c, es).value;
    if t.pending == {} {
      longer := es;
    } else {
      var f :| f in t.pending;
      OneMore(c, es, t, Arrive(f));
      assert t.pending - {f} < t.pending;
      longer := ArriveAll(c, es + [Arrive(f)]);
    }
  }

  /** Two passes that both scan before either unlinks delete what either of them selected. */
  lemma TwoPasses(c: Setting, walk: seq<TrashEntry>, other: seq<TrashEntry>, now: real) returns (es: seq<Event>)
    requires SameFiles(walk, c.files) && SameFiles(other, c.files) && now <= c.latest
    ensures Run(c, es).Some?
    ensures Run(c, es).value.removed == Entries(c.policy.Select(walk, now)) + Entries(c.policy.Select(other, now))
  {
    hide Run, SameFiles, RetentionPolicy.Select;
    RunOfNothing(c);
    var arrived := ArriveAll(c, []);
    var first := ListAndScan(c, arrived, walk);
    var second := ListAndScan(c, first, other);
    var passes := Run(c, first).value.passes;
    assert Run(c, second).value.passes[..1] == passes && passes[0] == Run(c, second).value.passes[0];
    assert walk[..|walk|] == walk && other[..|other|] == other;
    var third := ChooseAndUnlink(c, second, 0, walk, now);
    es := ChooseAndUnlink(c, third, 1, other, now);
  }

  /** The exact condition: racing passes, whatever arrives meanwhile, never delete what one pass at the
      latest time keeps, over whatever walk, if and only if the ties are safe then. */
  lemma NeverDeleteMoreExactlyWhenTiesAreSafe(c: Setting)
    requires NoDuplicates(c.files)
    ensures TiesAreSafe(c.policy, c.files, c.latest) <==>
      forall es, walk | Run(c, es).Some? && SameFiles(walk, c.files) ::
        Run(c, es).value.removed <= Entries(c.policy.Select(walk, c.latest))
  {
    hide Run, TiesAreSafe, NoDuplicates, RetentionPolicy.Select;
    if TiesAreSafe(c.policy, c.files, c.latest) {
      forall es, walk | Run(c, es).Some? && SameFiles(walk, c.files)
        ensures Run(c, es).value.removed <= Entries(c.policy.Select(walk, c.latest))
      {
        PassesNeverDeleteMore(c, es, walk);
      }
    } else {
      var f, walk, other := WalksDisagree(c.policy, c.files, c.latest);
      var es := TwoPasses(c, walk, other, c.latest);
      assert f in Run(c, es).value.removed && f !in Entries(c.policy.Select(other, c.latest));
    }
  }

  lemma TieKept(p: RetentionPolicy, a: TrashEntry, b: TrashEntry)
    requires a.mtime == b.mtime && p.Select([a, b], 0.0) == [a]
    ensures p.Keep([a, b], 0.0) == [b]
  {
    hide Total;
    SortOfAscending([a, b]);
    var cut := p.Cut([a, b], 0.0);
    assert |[a, b][..cut]| == cut == 1;
  }

  /** Two files of one age and a cap that one of them fits: either pass alone keeps one, together they
      delete both. */
  lemma TwoPassesDeleteBothTies() returns (c: Setting, es: seq<Event>)
    ensures var a, b := TrashEntry("a.md", 0.0, 1), TrashEntry("b.md", 0.0, 1);
      && c == Setting(RetentionPolicy(7, 1), [a, b], {}, 0.0)
      && Run(c, es).Some? && Run(c, es).value.removed == {a, b}
      && c.policy.Keep([a, b], 0.0) == [b] && c.policy.Keep([b, a], 0.0) == [a]
  {
    hide Run, RetentionPolicy.Select, RetentionPolicy.Keep;
    var a, b := TrashEntry("a.md", 0.0, 1), TrashEntry("b.md", 0.0, 1);
    c := Setting(RetentionPolicy(7, 1), [a, b], {}, 0.0);
    TiesFollowTheWalk();
    TieKept(c.policy, a, b);
    TieKept(c.policy, b, a);
    assert multiset([b, a]) == multiset([a, b]);
    es := TwoPasses(c, [a, b], [b, a], 0.0);
  }

  lemma RunOfNothing(c: Setting)
    ensures Run(c, []) == Some(Trash(c.later, {}, []))
  {
  }

  lemma HeavyFileSelected(p: RetentionPolicy, f: TrashEntry)
    requires f.size > p.maxBytes
    ensures p.Select([f], 0.0) == [f]
  {
    SortOfAscending([f]);
    TotalOfOne(f);
    assert [f][1..] == [] && [f][0..] == [f] && [f][..1] == [f];
    p.CutAfter([f], 0.0, 1);
  }

  /** A failed unlink is reachable, and then `kept` counts a file that was selected. */
  lemma KeptCountsAFailedUnlink() returns (c: Setting, es: seq<Event>)
    ensures Run(c, es).Some? && |Run(c, es).value.passes| == 1
    ensures var p := Run(c, es).value.passes[0];
      p.Finished() && p.tally.failed == 1 && Kept(p) == 1 && |p.entries| - |Selection(c, p)| == 0
  {
    hide Run, RetentionPolicy.Select;
    var f := TrashEntry("a.md", 0.0, 2);
    c := Setting(RetentionPolicy(7, 1), [f], {}, 0.0);
    RunOfNothing(c);
    HeavyFileSelected(c.policy, f);
    assert [f][..|[f]|] == [f];
    es := ListAndScan(c, [], [f]);
    OneMore(c, es, Run(c, es).value, Choose(0, 0.0));
    es := es + [Choose(0, 0.0)];
    OneMore(c, es, Run(c, es).value, Unlink(0, true));
    es := es + [Unlink(0, true)];
  }
}
