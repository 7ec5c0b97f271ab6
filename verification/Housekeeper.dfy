/**
 The workspace reclaimer as it runs: it reads the disk, then the API, then removes, and the
 cluster goes on between any two of its steps (platform/housekeeping/reclaim.go).
 */
module Housekeeper {
  import opened Wrappers
  import opened Names
  import opened WorkspaceMachine

  datatype Entry = Entry(name: Name, isDir: bool)

  datatype Reading = Missing | Unreadable | Entries(entries: seq<Entry>)

  datatype Failure = Scanning | Listing | Removing(name: Name)

  datatype Options = Options(dryRun: bool, maxDeletions: nat)

  /** What one run did. */
  datatype Report = Report(scanned: nat, removed: seq<Name>, skipped: nat, retained: nat)

  // ---- What a run is to do -----------------------------------------------------------

  function Workspaces(entries: seq<Entry>): seq<Name> {
    if entries == [] then []
    else
      var e := entries[|entries| - 1];
      Workspaces(entries[..|entries| - 1]) + if e.isDir && CouldBeConversation(e.name) then [e.name] else []
  }

  /** The names without a conversation, in order. */
  function Orphans(names: seq<Name>, live: set<Name>): (orphans: seq<Name>)
    ensures |orphans| <= |names|
  {
    if names == [] then []
    else
      var n := names[|names| - 1];
      Orphans(names[..|names| - 1], live) + if n in live then [] else [n]
  }

  /** As many of them as one run removes; zero is no bound. */
  function Bounded(orphans: seq<Name>, max: nat): (b: seq<Name>)
    ensures b <= orphans
  {
    if 0 < max < |orphans| then orphans[..max] else orphans
  }

  function ReportOf(names: seq<Name>, live: set<Name>, max: nat): Report {
    var orphans := Orphans(names, live);
    Report(|names|, Bounded(orphans, max), |orphans| - |Bounded(orphans, max)|, |names| - |orphans|)
  }

  /** Every name scanned is removed, kept for its conversation, or left for a later run. */
  lemma ReportAddsUp(names: seq<Name>, live: set<Name>, max: nat)
    ensures var r := ReportOf(names, live, max);
            r.scanned == |r.removed| + r.skipped + r.retained
            && (max > 0 ==> |r.removed| <= max) && (r.skipped > 0 ==> |r.removed| == max > 0)
  {
  }

  /** What one more name adds to the report. */
  lemma ReportGrows(names: seq<Name>, i: nat, live: set<Name>, max: nat)
    requires i < |names|
    ensures var r, r' := ReportOf(names[..i], live, max), ReportOf(names[..i + 1], live, max);
            if names[i] in live then r' == r.(scanned := i + 1, retained := r.retained + 1)
            else if max > 0 && |r.removed| >= max then r' == r.(scanned := i + 1, skipped := r.skipped + 1)
            else r' == r.(scanned := i + 1, removed := r.removed + [names[i]])
  {
    assert names[..i + 1][..i] == names[..i];
  }

  lemma {:induction false} OrphansAreWithoutConversation(names: seq<Name>, live: set<Name>)
    ensures forall n :: n in Orphans(names, live) <==> n in names && n !in live
  {
    if names != [] {
      var front := names[..|names| - 1];
      OrphansAreWithoutConversation(front, live);
      assert names == front + [names[|names| - 1]];
    }
  }

  lemma {:induction false} OrphansAppend(a: seq<Name>, b: seq<Name>, live: set<Name>)
    ensures Orphans(a + b, live) == Orphans(a, live) + Orphans(b, live)
  {
    if b == [] {
      assert a + b == a;
    } else {
      OrphansAppend(a, b[..|b| - 1], live);
      assert (a + b)[..|a + b| - 1] == a + b[..|b| - 1];
    }
  }

  /** What is left on a quiet claim after a run. */
  function Without(names: seq<Name>, gone: seq<Name>): seq<Name> {
    if names == [] then []
    else
      var n := names[|names| - 1];
      Without(names[..|names| - 1], gone) + if n in gone then [] else [n]
  }

  lemma {:induction false} OrphansLeft(names: seq<Name>, live: set<Name>, gone: seq<Name>)
    ensures Orphans(Without(names, gone), live) == Without(Orphans(names, live), gone)
  {
    if names != [] {
      var front, n := names[..|names| - 1], names[|names| - 1];
      OrphansLeft(front, live, gone);
      OrphansAppend(Without(front, gone), if n in gone then [] else [n], live);
      WithoutAppend(Orphans(front, live), if n in live then [] else [n], gone);
      assert Orphans([n], live) == [] + if n in live then [] else [n];
      assert Without([n], gone) == [] + if n in gone then [] else [n];
    }
  }

  lemma {:induction false} WithoutAppend(a: seq<Name>, b: seq<Name>, gone: seq<Name>)
    ensures Without(a + b, gone) == Without(a, gone) + Without(b, gone)
  {
    if b == [] {
      assert a + b == a;
    } else {
      WithoutAppend(a, b[..|b| - 1], gone);
      assert (a + b)[..|a + b| - 1] == a + b[..|b| - 1];
    }
  }

  lemma {:induction false} WithoutAll(a: seq<Name>, gone: seq<Name>)
    ensures (forall n :: n in a ==> n in gone) ==> Without(a, gone) == []
    ensures (forall n :: n in a ==> n !in gone) ==> Without(a, gone) == a
  {
    if a != [] {
      WithoutAll(a[..|a| - 1], gone);
    }
  }

  /** A run takes the first orphans and leaves the others to later runs, in the same order. */
  lemma RunLeavesTheRest(names: seq<Name>, live: set<Name>, max: nat)
    requires Distinct(Orphans(names, live))
    ensures var gone := ReportOf(names, live, max).removed;
            gone + Orphans(Without(names, gone), live) == Orphans(names, live)
  {
    var orphans := Orphans(names, live);
    OrphansLeft(names, live, Bounded(orphans, max));
    DropTaken(orphans, |Bounded(orphans, max)|);
    assert Bounded(orphans, max) == orphans[..|Bounded(orphans, max)|];
  }

  lemma DropTaken(s: seq<Name>, n: nat)
    requires Distinct(s) && n <= |s|
    ensures s[..n] + Without(s, s[..n]) == s
  {
    var a, b := s[..n], s[n..];
    assert forall x :: x in b ==> x !in a;
    TakenGoes(a, b);
    assert s == a + b;
  }

  lemma TakenGoes(a: seq<Name>, b: seq<Name>)
    requires forall x :: x in b ==> x !in a
    ensures Without(a + b, a) == b
  {
    WithoutAppend(a, b, a);
    WithoutAll(a, a);
    WithoutAll(b, a);
  }

  /** What k bounded runs over a quiet claim have removed, in order. */
  function RemovedBy(names: seq<Name>, live: set<Name>, max: nat, k: nat): seq<Name>
    decreases k
  {
    if k == 0 then []
    else
      var gone := ReportOf(names, live, max).removed;
      gone + RemovedBy(Without(names, gone), live, max, k - 1)
  }

  /** The first n names, or all. */
  function First(s: seq<Name>, n: nat): seq<Name> {
    if n < |s| then s[..n] else s
  }

  lemma FirstThenFirst(s: seq<Name>, n: nat, m: nat)
    ensures First(s, n) + First(s[|First(s, n)|..], m) == First(s, n + m)
  {
  }

  /** Bounded runs get through: k of them remove the first k times max orphans. */
  lemma {:induction false} BoundedRunsProgress(names: seq<Name>, live: set<Name>, max: nat, k: nat)
    requires max > 0 && Distinct(Orphans(names, live))
    ensures k * max >= 0 && RemovedBy(names, live, max, k) == First(Orphans(names, live), k * max)
    decreases k
  {
    if k > 0 {
      var gone, left := OneRun(names, live, max);
      BoundedRunsProgress(left, live, max, k - 1);
      Rounds(Orphans(names, live), gone, Orphans(left, live), max, k);
    }
  }

  lemma OneRun(names: seq<Name>, live: set<Name>, max: nat) returns (gone: seq<Name>, left: seq<Name>)
    requires max > 0 && Distinct(Orphans(names, live))
    ensures gone == First(Orphans(names, live), max) && gone + Orphans(left, live) == Orphans(names, live)
    ensures Distinct(Orphans(left, live))
    ensures forall k: nat :: k > 0 ==> RemovedBy(names, live, max, k) == gone + RemovedBy(left, live, max, k - 1)
  {
    gone := ReportOf(names, live, max).removed;
    left := Without(names, gone);
    RunLeavesTheRest(names, live, max);
    AfterRun(Orphans(names, live), Orphans(left, live), max);
  }

  lemma Rounds(orphans: seq<Name>, gone: seq<Name>, left: seq<Name>, max: nat, k: nat)
    requires k > 0 && gone == First(orphans, max) && gone + left == orphans
    ensures (k - 1) * max >= 0 && k * max >= 0 && gone + First(left, (k - 1) * max) == First(orphans, k * max)
  {
    assert max + (k - 1) * max == k * max;
    assert left == orphans[|gone|..];
    FirstThenFirst(orphans, max, (k - 1) * max);
  }

  lemma AfterRun(orphans: seq<Name>, left: seq<Name>, max: nat)
    requires max > 0 && Distinct(orphans) && Bounded(orphans, max) + left == orphans
    ensures Bounded(orphans, max) == First(orphans, max) && Distinct(left)
  {
    assert left == orphans[|Bounded(orphans, max)|..];
  }

  // ---- The run -----------------------------------------------------------------------

  class Housekeeper {
    const c: Config
    var s: State

    constructor (c: Config)
      ensures this.c == c && s == EMPTY && Reaches(c, s)
    {
      this.c := c;
      s := EMPTY;
      assert Run(c, []) == EMPTY;
    }

    /** What the cluster does meanwhile: any number of steps of its own. */
    method Environment()
      requires Reaches(c, s)
      modifies this
      ensures Reaches(c, s)
      ensures s == old(s).(live := s.live, used := s.used, dirs := s.dirs)
    {
      var steps: nat := *;
      while steps > 0
        invariant Reaches(c, s)
        invariant s == old(s).(live := s.live, used := s.used, dirs := s.dirs)
      {
        var name: Name := *;
        var kind: nat := *;
        var step := match kind
          case 0 => Create(name)
          case 1 => Delete(name)
          case 2 => Mount(name)
          case _ => Foreign(name);
        Take(step);
        steps := steps - 1;
      }
    }

    method Take(step: Step)
      requires Reaches(c, s)
      modifies this
      ensures s == Next(c, old(s), step) && Reaches(c, s)
    {
      ghost var _ := Go(c, s, step);
      s := Next(c, s, step);
    }

    /** os.ReadDir: entries are read one at a time while the cluster goes on. */
    method ReadDir() returns (reading: Reading)
      requires Reaches(c, s) && s.phase == Phase.Scanning && s.seen == {}
      modifies this
      ensures Reaches(c, s)
      ensures s == old(s).(live := s.live, used := s.used, dirs := s.dirs, seen := s.seen)
      ensures reading.Entries? ==>
                Distinct(Workspaces(reading.entries)) && forall n :: n in Workspaces(reading.entries) <==> n in s.seen
      ensures !reading.Entries? ==> s.seen == {}
    {
      var entries: seq<Entry> := [];
      reading := *;
      if !reading.Entries? {
        return;
      }
      var count: nat := *;
      while count > 0
        invariant Reaches(c, s)
        invariant s == old(s).(live := s.live, used := s.used, dirs := s.dirs, seen := s.seen)
        invariant Distinct(Workspaces(entries)) && forall n :: n in Workspaces(entries) <==> n in s.seen
      {
        entries := ReadEntry(entries);
        count := count - 1;
      }
      reading := Entries(entries);
    }

    method ReadEntry(before: seq<Entry>) returns (entries: seq<Entry>)
      requires Reaches(c, s) && s.phase == Phase.Scanning
      requires Distinct(Workspaces(before)) && forall n :: n in Workspaces(before) <==> n in s.seen
      modifies this
      ensures Reaches(c, s)
      ensures s == old(s).(live := s.live, used := s.used, dirs := s.dirs, seen := s.seen)
      ensures Distinct(Workspaces(entries)) && forall n :: n in Workspaces(entries) <==> n in s.seen
    {
      Environment();
      entries := before;
      var entry: Entry := *;
      if entry.name in Workspaces(before) || (entry.isDir && entry.name !in s.dirs) {
        return;
      }
      if entry.isDir {
        Take(See(entry.name));
      }
      entries := before + [entry];
      assert entries[..|before|] == before;
    }

    /** The one request for all conversations there are. */
    method ListConversations() returns (names: Option<seq<Name>>)
      requires Reaches(c, s) && s.phase == Phase.Listing && c.scanFirst
      modifies this
      ensures Reaches(c, s)
      ensures names.None? ==> s == old(s).(live := s.live, used := s.used, dirs := s.dirs)
      ensures names.Some? ==>
                s == old(s).(live := s.live, used := s.used, dirs := s.dirs, phase := Phase.Removing, listed := s.listed)
                && forall n :: n in names.value <==> n in s.listed
    {
      Environment();
      var ok: bool := *;
      if !ok {
        return None;
      }
      Take(List);
      var items := SetToSeq(s.listed);
      names := Some(items);
      Environment();
    }

    method SetToSeq(names: set<Name>) returns (items: seq<Name>)
      ensures forall n :: n in items <==> n in names
    {
      items := [];
      var left := names;
      while left != {}
        invariant left <= names && forall n :: n in items <==> n in names && n !in left
        decreases left
      {
        var n :| n in left;
        items := items + [n];
        left := left - {n};
      }
    }

    /** os.RemoveAll, which may fail with part of the tree gone. */
    method RemoveAll(name: Name) returns (ok: bool)
      requires Reaches(c, s) && s.phase == Phase.Removing && name in s.seen && name !in s.listed
      modifies this
      ensures Reaches(c, s)
      ensures s == old(s).(live := s.live, used := s.used, dirs := s.dirs, removed := old(s).removed + {name},
                harmed := s.harmed)
    {
      Environment();
      ok := *;
      Take(Remove(name, ok));
    }
  
    method Dirs(entries: seq<Entry>) returns (dirs: seq<Name>)
      ensures dirs == Workspaces(entries)
    {
      dirs := [];
      for i := 0 to |entries|
        invariant dirs == Workspaces(entries[..i])
      {
        assert entries[..i + 1][..i] == entries[..i];
        if entries[i].isDir && CouldBeConversation(entries[i].name) {
          dirs := dirs + [entries[i].name];
        }
      }
      assert entries[..|entries|] == entries;
    }

    /** Removes what was on disk before the listing and is not in it, and reports it. */
    method ReclaimWorkspaces(opts: Options) returns (rep: Report, failed: Option<Failure>, ghost names: seq<Name>)
      requires Reaches(c, s) && s.phase == Idle && c.scanFirst
      modifies this
      ensures Reaches(c, s) && s.phase == Idle
      ensures c.noReuse && c.crFirst ==> s.harmed == {}
      ensures Sorted(names) && Distinct(names) && forall n :: n in names <==> n in s.seen
      ensures failed.None? ==> rep == ReportOf(names, s.listed, opts.maxDeletions)
      ensures forall n :: n in rep.removed ==> n in s.seen && n !in s.listed
      ensures opts.dryRun ==> s.removed == {}
      ensures failed.None? && !opts.dryRun ==> forall n :: n in s.removed <==> n in rep.removed
    {
      Take(Begin);
      rep, failed, names := Sweep(opts);
      Take(Stop);
      if c.noReuse && c.crFirst {
        ReachedIsUnharmed(c, s);
      }
    }

    method Sweep(opts: Options) returns (rep: Report, failed: Option<Failure>, ghost names: seq<Name>)
      requires Reaches(c, s) && s.phase == Phase.Scanning && c.scanFirst && s.removed == {} && s.seen == {}
      modifies this
      ensures Reaches(c, s)
      ensures Sorted(names) && Distinct(names) && forall n :: n in names <==> n in s.seen
      ensures failed.None? ==> rep == ReportOf(names, s.listed, opts.maxDeletions)
      ensures forall n :: n in rep.removed ==> n in s.seen && n !in s.listed
      ensures opts.dryRun ==> s.removed == {}
      ensures failed.None? && !opts.dryRun ==> forall n :: n in s.removed <==> n in rep.removed
    {
      rep, failed, names := Report(0, [], 0, 0), None, [];
      var reading := ReadDir();
      match reading {
        case Missing =>
        case Unreadable =>
          failed := Some(Failure.Scanning);
        case Entries(entries) =>
          var dirs := Dirs(entries);
          SortLists(dirs);
          names := Sort(dirs);
          if |dirs| == 0 {
            assert names == [];
          } else {
            rep, failed := ListAndRemove(Sort(dirs), opts);
          }
      }
    }

    method ListAndRemove(names: seq<Name>, opts: Options) returns (rep: Report, failed: Option<Failure>)
      requires Reaches(c, s) && s.phase == Phase.Scanning && c.scanFirst && s.removed == {}
      requires forall n :: n in names <==> n in s.seen
      modifies this
      ensures Reaches(c, s) && s.seen == old(s.seen)
      ensures failed.None? ==> rep == ReportOf(names, s.listed, opts.maxDeletions)
      ensures forall n :: n in rep.removed ==> n in names && n !in s.listed
      ensures opts.dryRun ==> s.removed == {}
      ensures failed.None? && !opts.dryRun ==> forall n :: n in s.removed <==> n in rep.removed
    {
      rep, failed := Report(|names|, [], 0, 0), None;
      Take(EndScan);
      var convs := ListConversations();
      if convs.None? {
        failed := Some(Failure.Listing);
      } else {
        rep, failed := RemoveOrphans(names, convs.value, opts);
      }
    }

    method RemoveOrphans(names: seq<Name>, convs: seq<Name>, opts: Options) returns (rep: Report, failed: Option<Failure>)
      requires Reaches(c, s) && s.phase == Phase.Removing && s.removed == {}
      requires forall n :: n in names <==> n in s.seen
      requires forall n :: n in convs <==> n in s.listed
      modifies this
      ensures Reaches(c, s) && s.phase == Phase.Removing && s.seen == old(s.seen) && s.listed == old(s.listed)
      ensures failed.None? ==> rep == ReportOf(names, s.listed, opts.maxDeletions)
      ensures forall n :: n in rep.removed ==> n in names && n !in s.listed
      ensures opts.dryRun ==> s.removed == {}
      ensures failed.None? && !opts.dryRun ==> forall n :: n in s.removed <==> n in rep.removed
    {
      rep, failed := Report(|names|, [], 0, 0), None;
      var live := LiveNames(convs);
      assert live == s.listed;
      for i := 0 to |names|
        invariant Reaches(c, s) && s.phase == Phase.Removing && s.seen == old(s.seen) && s.listed == live
        invariant rep == ReportOf(names[..i], live, opts.maxDeletions).(scanned := |names|)
        invariant s.removed == if opts.dryRun then {} else set n | n in rep.removed
      {
        ReportGrows(names, i, live, opts.maxDeletions);
        if names[i] in live {
          rep := rep.(retained := rep.retained + 1);
        } else if opts.maxDeletions > 0 && |rep.removed| >= opts.maxDeletions {
          rep := rep.(skipped := rep.skipped + 1);
        } else {
          if !opts.dryRun {
            var ok := RemoveAll(names[i]);
            if !ok {
              OrphansAreWithoutConversation(names[..i], live);
              failed := Some(Failure.Removing(names[i]));
              return;
            }
          }
          rep := rep.(removed := rep.removed + [names[i]]);
        }
      }
      assert names[..|names|] == names;
      OrphansAreWithoutConversation(names, live);
    }

    method LiveNames(convs: seq<Name>) returns (live: set<Name>)
      ensures live == set n | n in convs
    {
      live := {};
      for i := 0 to |convs|
        invariant live == set n | n in convs[..i]
      {
        live := live + {convs[i]};
      }
      assert convs[..|convs|] == convs;
    }
  }
}
