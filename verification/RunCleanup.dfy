/** One cleanup pass as the code runs it, with other passes acting at every await.

    The ghost field `past` is the run so far of the transition system in Cleanup; every action of
    this pass is recorded as its own event, and `Others` stands for any events of other passes. */
module RunCleanup {
  import opened Wrappers
  import opened Retention
  import opened RetentionTheorems
  import opened Cleanup

  datatype CleanupReport =
    CleanupReport(deleted: nat, alreadyGone: nat, kept: int, freedBytes: nat, dryRun: bool)

  lemma NextChildIsAFile(c: Setting, t: Trash, p: Pass)
    requires PassInv(c, t.removed, p) && t.pending <= p.absent && p.Scanning? && p.next < |p.listing|
    ensures p.listing[p.next] in c.files
    ensures p.listing[p.next] in Without(c.files, t.removed + t.pending) <==> p.listing[p.next] !in t.removed
  {
    hide Without, NoDuplicates;
    var f := p.listing[p.next];
    assert f in p.listing[p.next..] by { assert p.listing[p.next..][0] == f; }
    WithoutMembers(p.listing, p.missed);
    WithoutMembers(c.files, p.missed);
    SameFilesMembers(Without(p.listing, p.missed), Without(c.files, p.missed));
    WithoutMembers(c.files, t.removed + t.pending);
  }

  /** A path names one entry, so looking entries up by path is looking them up. */
  lemma PathsNameEntries(c: Setting, t: Trash, p: Pass)
    requires PassInv(c, t.removed, p) && t.pending <= p.absent && p.Unlinking? && p.next < |p.entries|
    requires forall e, f | e in c.files && f in c.files && e.path == f.path :: e == f
    ensures p.entries[p.next] in Without(c.files, t.removed + t.pending) <==> p.entries[p.next] !in t.removed
    ensures p.entries[p.next].path in (set e | e in Selection(c, p) :: e.path) <==> p.entries[p.next] in Selection(c, p)
  {
    hide Without, NoDuplicates, RetentionPolicy.Select;
    SeenFiles(c, t.removed, p);
    WithoutMembers(c.files, t.removed + t.pending);
    SelectionIsOfFiles(c.policy, p.entries, p.now);
  }

  lemma SelectionIsOfFiles(p: RetentionPolicy, files: seq<TrashEntry>, now: real)
    ensures forall e | e in p.Select(files, now) :: e in files
  {
    hide SortedByMtime;
    SortMembers(files);
    var t := SortedByMtime(files);
    assert forall e | e in t[..p.Cut(t, now)] :: e in t;
  }

  /** What is there before anything arrives. */
  lemma WithoutLater(files: seq<TrashEntry>, later: seq<TrashEntry>)
    requires NoDuplicates(files + later)
    ensures Without(files + later, Entries(later)) == files
  {
    hide Without;
    WithoutConcat(files, later, Entries(later));
    WithoutOwnEntries(later, Entries(later));
    forall e | e in files ensures e !in Entries(later) {
      var i :| 0 <= i < |files| && files[i] == e;
      assert (files + later)[i] == e;
      assert forall k | 0 <= k < |later| :: (files + later)[|files| + k] == later[k];
    }
    WithoutStrangers(files, Entries(later));
  }

  class TrashFolder {
    const policy: RetentionPolicy
    /** The directory's content, in listing order. */
    var present: seq<TrashEntry>
    ghost const c: Setting
    ghost var trash: Trash
    ghost var past: seq<Event>

    ghost predicate Valid()
      reads this
    {
      && c.policy == policy
      && NoDuplicates(c.files)
      && (forall e, f | e in c.files && f in c.files && e.path == f.path :: e == f)
      && Run(c, past) == Some(trash)
      && present == Without(c.files, trash.removed + trash.pending)
    }

    /** `later` are the files that will arrive while passes run. */
    constructor (policy: RetentionPolicy, files: seq<TrashEntry>, ghost later: seq<TrashEntry>, ghost latest: real)
      requires NoDuplicates(files + later)
      requires forall e, f | e in files + later && f in files + later && e.path == f.path :: e == f
      ensures Valid() && present == files && trash.passes == []
      ensures c == Setting(policy, files + later, Entries(later), latest)
    {
      hide Without, NoDuplicates;
      this.policy := policy;
      present := files;
      c := Setting(policy, files + later, Entries(later), latest);
      trash := Trash(Entries(later), {}, []);
      past := [];
      new;
      WithoutLater(files, later);
      assert Entries(later) == {} + Entries(later);
    }

    ghost method Record(e: Event)
      requires Run(c, past) == Some(trash) && Enabled(c, trash, e)
      modifies this`trash, this`past
      ensures trash == Step(c, old(trash), e) && past == old(past) + [e]
      ensures Run(c, past) == Some(trash)
    {
      trash := Step(c, trash, e);
      past := past + [e];
      assert past[..|past| - 1] == old(past);
    }

    /** Other passes begin, stat and unlink while pass `me` waits. */
    method Others(ghost me: nat)
      requires Valid() && me < |trash.passes|
      modifies this
      ensures Valid() && me < |trash.passes| && trash.passes[me] == old(trash.passes[me])
      ensures old(past) <= past && old(trash.removed) <= trash.removed
    {
    }

    /** Stat one listed file; a file that is gone or cannot be read is left out. */
    method StatNextChild(ghost me: nat, child: TrashEntry, entries: seq<TrashEntry>, statFails: set<string>)
      returns (entries': seq<TrashEntry>)
      requires Valid() && me < |trash.passes|
      requires var p := trash.passes[me];
        p.Scanning? && p.next < |p.listing| && p.listing[p.next] == child && p.entries == entries
      modifies this
      ensures Valid() && old(past) <= past && me < |trash.passes|
      ensures var p, p' := old(trash.passes[me]), trash.passes[me];
        && p'.Scanning? && p'.listing == p.listing && p'.next == p.next + 1 && p'.entries == entries'
        && (p.clean && statFails == {} ==> p'.clean)
      ensures entries <= entries' && old(trash.removed) <= trash.removed
      ensures child.path !in statFails ==> child in entries' || child in trash.removed
    {
      Others(me);
      hide Run;
      RunInv();
      NextChildIsAFile(c, trash, trash.passes[me]);
      entries' := if child in present && child.path !in statFails then entries + [child] else entries;
      Record(Stat(me, child.path in statFails));
    }

    ghost method SkipEntry(me: nat)
      requires Valid() && me < |trash.passes| && Enabled(c, trash, Unlink(me, false))
      requires var p := trash.passes[me]; p.entries[p.next].path !in (set e | e in Selection(c, p) :: e.path)
      modifies this`trash, this`past
      ensures Valid() && old(past) <= past && me < |trash.passes|
      ensures var p := old(trash.passes[me]);
        trash.passes[me] == Unlinking(p.entries, p.now, p.next + 1, p.tally, p.missed, p.absent, p.clean)
      ensures trash.removed == old(trash.removed)
    {
      hide Run, Inv, Without, NoDuplicates, RetentionPolicy.Select, Selection;
      RunInv();
      PathsNameEntries(c, trash, trash.passes[me]);
      Record(Unlink(me, false));
    }

    /** The last event is this pass's unlink, and `attempt` is what became of it at that moment: gone if
        somebody had removed the file before, deleted if not. */
    ghost predicate AttemptedLast(me: nat, attempt: Attempt, fails: bool)
      reads this
    {
      && past != [] && past[|past| - 1] == Unlink(me, fails)
      && var before := Run(c, past[..|past| - 1]);
         && before.Some? && Enabled(c, before.value, Unlink(me, fails))
         && attempt == AttemptOf(c, before.value.passes[me], before.value.removed, fails)
    }

    /** Unlink one selected file, telling apart deleted, already gone and failed. */
    method UnlinkEntry(ghost me: nat, entry: TrashEntry, unlinkFails: set<string>) returns (attempt: Attempt)
      requires Valid() && me < |trash.passes| && Enabled(c, trash, Unlink(me, false))
      requires var p := trash.passes[me];
        entry == p.entries[p.next] && entry.path in (set e | e in Selection(c, p) :: e.path)
      modifies this
      ensures Valid() && old(past) <= past && me < |trash.passes|
      ensures !attempt.Skip? && (attempt.Fail? <==> entry.path in unlinkFails)
      ensures var p := old(trash.passes[me]);
        trash.passes[me] == Unlinking(p.entries, p.now, p.next + 1, Tallied(p.tally, attempt, entry.size),
                                      p.missed, p.absent, p.clean && !attempt.Fail?)
      ensures !attempt.Fail? ==> entry !in present && entry in trash.removed
      ensures old(trash.removed) <= trash.removed
      ensures AttemptedLast(me, attempt, entry.path in unlinkFails)
    {
      hide Run, Inv, Without, NoDuplicates, RetentionPolicy.Select, Selection;
      Others(me);
      RunInv();
      PathsNameEntries(c, trash, trash.passes[me]);
      if entry.path in unlinkFails {
        attempt := Fail;
      } else if entry !in present {
        attempt := Gone;
      } else {
        present := Without(present, {entry});
        WithoutTwice(c.files, trash.removed + trash.pending, {entry});
        WithoutMembers(c.files, trash.removed + trash.pending + {entry});
        assert trash.removed + trash.pending + {entry} == trash.removed + {entry} + trash.pending;
        attempt := Deleted;
      }
      ghost var before := past;
      Record(Unlink(me, entry.path in unlinkFails));
      assert past[..|past| - 1] == before;
    }

    lemma RunInv()
      requires Valid()
      ensures Inv(c, trash)
    {
      RunKeepsInv(c, past);
    }

    lemma Listed(children: seq<TrashEntry>)
      requires multiset(children) == multiset(present)
      ensures forall f | f in present :: f in children
    {
      SameElements(children, present);
    }

    /** The directory yields its entries in no particular order. */
    method ListDirectory() returns (children: seq<TrashEntry>)
      ensures multiset(children) == multiset(present)
    {
      children := present;
    }

    /** Stat every child in listing order. */
    method ScanListing(ghost me: nat, children: seq<TrashEntry>, statFails: set<string>)
      returns (entries: seq<TrashEntry>)
      requires Valid() && me < |trash.passes|
      requires var p := trash.passes[me];
        p.Scanning? && p.listing == children && p.next == 0 && p.entries == [] && p.clean
      modifies this
      ensures Valid() && old(past) <= past && me < |trash.passes|
      ensures var p := trash.passes[me];
        p.Scanning? && p.listing == children && p.next == |children| && p.entries == entries
      ensures old(trash.removed) <= trash.removed
      ensures forall f | f in children && f.path !in statFails :: f in entries || f in trash.removed
      ensures statFails == {} ==> trash.passes[me].clean
    {
      hide Run, RetentionPolicy.Select, Without, NoDuplicates, Valid;
      entries := [];
      for i := 0 to |children|
        invariant Valid() && old(past) <= past && me < |trash.passes|
        invariant trash.passes[me].Scanning? && trash.passes[me].listing == children
        invariant trash.passes[me].next == i && trash.passes[me].entries == entries
        invariant old(trash.removed) <= trash.removed
        invariant forall k | 0 <= k < i && children[k].path !in statFails ::
          children[k] in entries || children[k] in trash.removed
        invariant statFails == {} ==> trash.passes[me].clean
      {
        entries := StatNextChild(me, children[i], entries, statFails);
      }
    }

    /** The unlink loop. */
    method UnlinkSelected(ghost me: nat, entries: seq<TrashEntry>, selectionPaths: set<string>,
                          unlinkFails: set<string>)
      returns (deleted: nat, alreadyGone: nat, freedBytes: nat)
      requires Valid() && me < |trash.passes|
      requires var p := trash.passes[me];
        p.Unlinking? && p.entries == entries && p.next == 0 && p.tally == Tally(0, 0, 0, 0)
        && selectionPaths == set e | e in Selection(c, p) :: e.path
      modifies this
      ensures Valid() && old(past) <= past && me < |trash.passes|
      ensures var p, p' := old(trash.passes[me]), trash.passes[me];
        && p'.Finished() && p'.entries == entries && p'.now == p.now
        && deleted == p'.tally.deleted && alreadyGone == p'.tally.alreadyGone && freedBytes == p'.tally.freedBytes
        && (p.clean && unlinkFails == {} ==> p'.clean)
      ensures old(trash.removed) <= trash.removed
      ensures forall f | f in entries && f.path in selectionPaths && f.path !in unlinkFails :: f in trash.removed
    {
      hide Run, RetentionPolicy.Select, Without, NoDuplicates;
      deleted, alreadyGone, freedBytes := 0, 0, 0;
      for i := 0 to |entries|
        invariant Valid() && old(past) <= past && me < |trash.passes|
        invariant trash.passes[me].Unlinking? && trash.passes[me].entries == entries
        invariant trash.passes[me].now == old(trash.passes[me].now) && trash.passes[me].next == i
        invariant trash.passes[me].tally.deleted == deleted
        invariant trash.passes[me].tally.alreadyGone == alreadyGone
        invariant trash.passes[me].tally.freedBytes == freedBytes
        invariant old(trash.removed) <= trash.removed
        invariant forall k | 0 <= k < i && entries[k].path in selectionPaths && entries[k].path !in unlinkFails ::
          entries[k] in trash.removed
        invariant old(trash.passes[me].clean) && unlinkFails == {} ==> trash.passes[me].clean
      {
        if entries[i].path !in selectionPaths {
          SkipEntry(me);
          continue;
        }
        var attempt := UnlinkEntry(me, entries[i], unlinkFails);
        match attempt
        case Gone => alreadyGone := alreadyGone + 1;
        case Deleted => deleted, freedBytes := deleted + 1, freedBytes + entries[i].size;
        case _ =>
      }
    }

    method RunCleanup(now: real, dryRun: bool, statFails: set<string>, unlinkFails: set<string>)
      returns (report: CleanupReport, ghost me: nat)
      requires Valid() && now <= c.latest
      modifies this
      ensures Valid() && old(past) <= past && me == |old(trash.passes)| < |trash.passes|
      ensures dryRun ==>
        && trash.passes[me].Scanning? && report == CleanupReport(0, 0, |trash.passes[me].entries|, 0, true)
        && var selection := policy.Select(trash.passes[me].entries, now);
           (report.kept == |trash.passes[me].entries| - |selection| <==> selection == [])
      ensures !dryRun ==>
        && trash.passes[me].Finished() && trash.passes[me].now == now
        && var p := trash.passes[me];
           report == CleanupReport(p.tally.deleted, p.tally.alreadyGone, Kept(p), p.tally.freedBytes, false)
      ensures forall f | f in old(present) && f.path !in statFails ::
        f in trash.passes[me].entries || f in trash.removed
      ensures !dryRun ==> forall f | f in Selection(c, trash.passes[me]) && f.path !in unlinkFails :: f in trash.removed
      ensures statFails == {} && unlinkFails == {} ==> trash.passes[me].clean
    {
      hide Run, RetentionPolicy.Select, Without, NoDuplicates;
      var children := ListDirectory();
      Listed(children);
      me := |trash.passes|;
      Record(Begin(children));
      var entries := ScanListing(me, children, statFails);
      var selection := policy.SelectForDeletion(entries, now);
      if dryRun {
        return CleanupReport(0, 0, |entries|, 0, true), me;
      }
      Record(Choose(me, now));
      var selectionPaths := set e | e in selection :: e.path;
      SelectionIsOfFiles(policy, entries, now);
      var deleted, alreadyGone, freedBytes := UnlinkSelected(me, entries, selectionPaths, unlinkFails);
      report := CleanupReport(deleted, alreadyGone, |entries| - deleted - alreadyGone, freedBytes, false);
    }
  }
}
