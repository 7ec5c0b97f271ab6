/**
 The transcript reclaimer as it runs, sessions going on meanwhile
 (platform/housekeeping/reclaim.go).
 */
module SessionKeeper {
  import opened Wrappers
  import opened Names
  import opened SessionMachine

  const SUFFIX: string := ".jsonl"

  datatype Info = Info(modTime: nat, size: nat)

  datatype Failure = Scanning | Listing | Removing(name: string)

  datatype Options = Options(dryRun: bool, maxDeletions: nat)

  datatype Report = Report(scanned: nat, removed: seq<string>, skipped: nat, retained: nat, bytesFreed: nat)

  predicate IsTranscript(name: string) {
    |name| >= |SUFFIX| && name[|name| - |SUFFIX|..] == SUFFIX
  }

  /** The session a transcript's name stands for. */
  function SessionOf(name: string): Session {
    if IsTranscript(name) then name[..|name| - |SUFFIX|] else name
  }

  lemma SessionNamesFile(a: string, b: string)
    requires IsTranscript(a) && IsTranscript(b) && SessionOf(a) == SessionOf(b)
    ensures a == b
  {
    assert a == SessionOf(a) + SUFFIX && b == SessionOf(b) + SUFFIX;
  }

  // ---- What a run is to do -----------------------------------------------------------

  /** Neither referred to nor young. */
  predicate Stale(name: string, files: map<string, Info>, listed: set<Session>, cutoff: int)
    requires name in files
  {
    SessionOf(name) !in listed && files[name].modTime < cutoff
  }

  function StaleNames(names: seq<string>, files: map<string, Info>, listed: set<Session>, cutoff: int): (r: seq<string>)
    requires forall n :: n in names ==> n in files
    ensures |r| <= |names|
  {
    if names == [] then []
    else
      var n := names[|names| - 1];
      StaleNames(names[..|names| - 1], files, listed, cutoff) + if Stale(n, files, listed, cutoff) then [n] else []
  }

  lemma {:induction false} StaleNamesAreStale(names: seq<string>, files: map<string, Info>, listed: set<Session>,
                                              cutoff: int)
    requires forall n :: n in names ==> n in files
    ensures forall n :: n in StaleNames(names, files, listed, cutoff)
                        <==> n in names && Stale(n, files, listed, cutoff)
  {
    if names != [] {
      var front := names[..|names| - 1];
      StaleNamesAreStale(front, files, listed, cutoff);
      assert names == front + [names[|names| - 1]];
    }
  }

  function Bounded(names: seq<string>, max: nat): (b: seq<string>)
    ensures b <= names
  {
    if 0 < max < |names| then names[..max] else names
  }

  function Bytes(names: seq<string>, files: map<string, Info>): nat
    requires forall n :: n in names ==> n in files
  {
    if names == [] then 0 else Bytes(names[..|names| - 1], files) + files[names[|names| - 1]].size
  }

  /** The report with one more file in it. */
  function Grown(r: Report, name: string, info: Info, stale: bool, max: nat): Report {
    if !stale then r.(scanned := r.scanned + 1, retained := r.retained + 1)
    else if max > 0 && |r.removed| >= max then r.(scanned := r.scanned + 1, skipped := r.skipped + 1)
    else r.(scanned := r.scanned + 1, removed := r.removed + [name], bytesFreed := r.bytesFreed + info.size)
  }

  function ReportOf(names: seq<string>, files: map<string, Info>, listed: set<Session>, cutoff: int, max: nat): Report
    requires forall n :: n in names ==> n in files
  {
    if names == [] then Report(0, [], 0, 0, 0)
    else
      var n := names[|names| - 1];
      Grown(ReportOf(names[..|names| - 1], files, listed, cutoff, max), n, files[n], Stale(n, files, listed, cutoff), max)
  }

  /** A report says: the first stale files up to the bound are gone, the other stale ones are
      left for a later run, all others kept, and the bytes freed are those of the files gone. */
  lemma {:induction false} ReportMeans(names: seq<string>, files: map<string, Info>, listed: set<Session>,
                                       cutoff: int, max: nat)
    requires forall n :: n in names ==> n in files
    ensures var r := ReportOf(names, files, listed, cutoff, max);
            var stale := StaleNames(names, files, listed, cutoff);
            r.removed == Bounded(stale, max) && r.skipped == |stale| - |r.removed|
            && r.retained == |names| - |stale| && r.scanned == |names|
            && (forall n :: n in r.removed ==> n in files) && r.bytesFreed == Bytes(r.removed, files)
  {
    if names != [] {
      var front, n := names[..|names| - 1], names[|names| - 1];
      ReportMeans(front, files, listed, cutoff, max);
      if Stale(n, files, listed, cutoff) {
        var stale := StaleNames(front, files, listed, cutoff);
        BoundedGrows(stale, n, max);
        assert (stale + [n])[..|stale|] == stale;
      }
    }
  }

  lemma BoundedGrows(names: seq<string>, n: string, max: nat)
    ensures Bounded(names + [n], max)
            == if max > 0 && |Bounded(names, max)| >= max then Bounded(names, max) else names + [n]
    ensures (max > 0 && |Bounded(names, max)| >= max) || Bounded(names, max) == names
  {
    if 0 < max <= |names| {
      assert (names + [n])[..max] == names[..max];
    }
  }

  function Sessions(names: seq<string>): set<Session> {
    set n | n in names :: SessionOf(n)
  }

  lemma SessionsGrow(names: seq<string>, n: string)
    ensures Sessions(names + [n]) == Sessions(names) + {SessionOf(n)}
  {
    assert n in names + [n];
    assert forall m :: m in names + [n] <==> m in names || m == n;
  }

  // ---- The run -----------------------------------------------------------------------

  /** The cluster's steps, and time. */
  predicate Outside(step: Step) {
    step.Tick? || step.Start? || step.Resume? || step.Write? || step.Done? || step.Drop?
  }

  /** What the cluster cannot touch. */
  predicate Ours(s: State, t: State) {
    t.phase == s.phase && t.seen == s.seen && t.listed == s.listed && t.listedAt == s.listedAt
    && t.cutoff == s.cutoff && t.removed == s.removed
  }

  class SessionKeeper {
    const c: Config
    var s: State

    constructor (c: Config)
      ensures this.c == c && s == EMPTY && Reaches(c, s)
    {
      this.c := c;
      s := EMPTY;
      assert Run(c, []) == EMPTY;
    }

    method Take(step: Step)
      requires Reaches(c, s)
      modifies this
      ensures s == Next(c, old(s), step) && Reaches(c, s)
    {
      ghost var _ := Go(c, s, step);
      s := Next(c, s, step);
    }

    method Environment()
      requires Reaches(c, s)
      modifies this
      ensures Reaches(c, s) && Ours(old(s), s)
    {
      var steps: nat := *;
      while steps > 0
        invariant Reaches(c, s) && Ours(old(s), s)
      {
        var step: Step := *;
        if Outside(step) {
          Take(step);
        }
        steps := steps - 1;
      }
    }

    /** The entries whose names are transcripts', each with what its file said when asked. */
    method ScanFiles() returns (ok: bool, names: seq<string>, files: map<string, Info>)
      requires Reaches(c, s) && s.phase == Phase.Scanning && s.seen == map[]
      modifies this
      ensures Reaches(c, s) && Ours(old(s).(seen := s.seen), s)
      ensures Distinct(names) && forall n :: n in names <==> n in files
      ensures forall n :: n in names ==>
                IsTranscript(n) && SessionOf(n) in s.seen && s.seen[SessionOf(n)] == files[n].modTime
    {
      names, files := [], map[];
      ok := *;
      var count: nat := *;
      while ok && count > 0
        invariant Reaches(c, s) && Ours(old(s).(seen := s.seen), s)
        invariant Distinct(names) && forall n :: n in names <==> n in files
        invariant forall n :: n in names ==>
                    IsTranscript(n) && SessionOf(n) in s.seen && s.seen[SessionOf(n)] == files[n].modTime
      {
        names, files := StatFile(names, files);
        count := count - 1;
      }
    }

    method StatFile(names0: seq<string>, files0: map<string, Info>) returns (names: seq<string>, files: map<string, Info>)
      requires Reaches(c, s) && s.phase == Phase.Scanning
      requires Distinct(names0) && forall n :: n in names0 <==> n in files0
      requires forall n :: n in names0 ==>
                 IsTranscript(n) && SessionOf(n) in s.seen && s.seen[SessionOf(n)] == files0[n].modTime
      modifies this
      ensures Reaches(c, s) && Ours(old(s).(seen := s.seen), s)
      ensures Distinct(names) && forall n :: n in names <==> n in files
      ensures forall n :: n in names ==>
                IsTranscript(n) && SessionOf(n) in s.seen && s.seen[SessionOf(n)] == files[n].modTime
    {
      names, files := names0, files0;
      Environment();
      var name: string := *;
      var size: nat := *;
      if name in names || !IsTranscript(name) || SessionOf(name) !in s.files {
        return;
      }
      ghost var seen := s.seen;
      Take(See(SessionOf(name)));
      files := files[name := Info(s.seen[SessionOf(name)], size)];
      names := names + [name];
      forall n | n in names
        ensures IsTranscript(n) && SessionOf(n) in s.seen && s.seen[SessionOf(n)] == files[n].modTime
      {
        if n != name && SessionOf(n) == SessionOf(name) {
          SessionNamesFile(n, name);
        }
      }
    }

    method ReclaimSessions(opts: Options) returns (rep: Report, failed: Option<Failure>,
                                                   ghost names: seq<string>, ghost files: map<string, Info>)
      requires Reaches(c, s) && s.phase == Idle
      modifies this
      ensures Reaches(c, s) && s.phase == Idle
      ensures c.maxRun + c.lag <= c.grace ==> s.harmed == {}
      ensures Sorted(names) && Distinct(names) && forall n :: n in names <==> n in files
      ensures forall n :: n in names ==> SessionOf(n) in s.seen && s.seen[SessionOf(n)] == files[n].modTime
      ensures failed.None? ==> rep == ReportOf(names, files, s.listed, s.cutoff, opts.maxDeletions)
      ensures opts.dryRun ==> s.removed == {}
      ensures failed.None? && !opts.dryRun ==> s.removed == Sessions(rep.removed)
    {
      rep, failed := Report(0, [], 0, 0, 0), None;
      Take(Begin);
      var ok, found, infos := ScanFiles();
      SortLists(found);
      names, files := Sort(found), infos;
      if !ok {
        failed := Some(Failure.Scanning);
      } else if |found| > 0 {
        rep, failed := ListAndRemove(Sort(found), infos, opts);
      }
      Take(Stop);
      if c.maxRun + c.lag <= c.grace {
        SafeExactlyWhen(c);
      }
    }

    method ListAndRemove(names: seq<string>, files: map<string, Info>, opts: Options)
      returns (rep: Report, failed: Option<Failure>)
      requires Reaches(c, s) && s.phase == Phase.Scanning && s.removed == {} && Distinct(names)
      requires forall n :: n in names <==> n in files
      requires forall n :: n in names ==>
                 IsTranscript(n) && SessionOf(n) in s.seen && s.seen[SessionOf(n)] == files[n].modTime
      modifies this
      ensures Reaches(c, s) && s.seen == old(s.seen)
      ensures failed.None? ==> rep == ReportOf(names, files, s.listed, s.cutoff, opts.maxDeletions)
      ensures opts.dryRun ==> s.removed == {}
      ensures failed.None? && !opts.dryRun ==> s.removed == Sessions(rep.removed)
    {
      rep, failed := Report(|names|, [], 0, 0, 0), None;
      var listable := ListReferenced();
      if !listable {
        failed := Some(Failure.Listing);
        return;
      }
      var referenced := s.listed;
      FixCutoff();
      rep, failed := RemoveStale(names, files, referenced, s.cutoff, opts);
    }

    /** Asks which sessions are referenced, once the scan is over; the answer may fail to come. */
    method ListReferenced() returns (listable: bool)
      requires Reaches(c, s) && s.phase == Phase.Scanning
      modifies this
      ensures Reaches(c, s) && s.seen == old(s.seen) && s.removed == old(s.removed)
      ensures listable ==> s.phase == Phase.Listed
    {
      Take(EndScan);
      Environment();
      listable := *;
      if listable {
        Take(List);
      }
    }

    /** Reads the clock, and fixes how old a transcript must be. */
    method FixCutoff()
      requires Reaches(c, s) && s.phase == Phase.Listed
      modifies this
      ensures Reaches(c, s) && s.phase == Phase.Removing
      ensures s.seen == old(s.seen) && s.listed == old(s.listed) && s.removed == old(s.removed)
    {
      Environment();
      Take(Clock);
    }

    /** os.Remove, where a file already gone counts as removed. */
    method Unlink(name: string) returns (ok: bool)
      requires Reaches(c, s) && s.phase == Phase.Removing && Orphan(s, SessionOf(name))
      modifies this
      ensures Reaches(c, s) && s.phase == Phase.Removing && Ours(old(s).(removed := s.removed), s)
      ensures s.removed == old(s.removed) + if ok then {SessionOf(name)} else {}
    {
      Environment();
      ok := *;
      if ok {
        Take(Remove(SessionOf(name)));
      }
    }

    method RemoveStale(names: seq<string>, files: map<string, Info>, referenced: set<Session>, cutoff: int, opts: Options)
      returns (rep: Report, failed: Option<Failure>)
      requires Reaches(c, s) && s.phase == Phase.Removing && s.removed == {} && Distinct(names)
      requires referenced == s.listed && cutoff == s.cutoff
      requires forall n :: n in names <==> n in files
      requires forall n :: n in names ==>
                 IsTranscript(n) && SessionOf(n) in s.seen && s.seen[SessionOf(n)] == files[n].modTime
      modifies this
      ensures Reaches(c, s) && s.phase == Phase.Removing && Ours(old(s).(removed := s.removed), s)
      ensures failed.None? ==> rep == ReportOf(names, files, referenced, cutoff, opts.maxDeletions)
      ensures opts.dryRun ==> s.removed == {}
      ensures failed.None? && !opts.dryRun ==> s.removed == Sessions(rep.removed)
    {
      rep, failed := Report(0, [], 0, 0, 0), None;
      for i := 0 to |names|
        invariant Reaches(c, s) && s.phase == Phase.Removing && Ours(old(s).(removed := s.removed), s)
        invariant rep == ReportOf(names[..i], files, referenced, cutoff, opts.maxDeletions)
        invariant s.removed == if opts.dryRun then {} else Sessions(rep.removed)
      {
        assert names[..i + 1][..i] == names[..i];
        var ok: bool;
        rep, ok := Judge(rep, names[i], files[names[i]], Stale(names[i], files, referenced, cutoff), opts);
        if !ok {
          rep := rep.(scanned := |names|);
          failed := Some(Failure.Removing(names[i]));
          return;
        }
      }
      assert names[..|names|] == names;
    }

    method Judge(rep0: Report, name: string, info: Info, stale: bool, opts: Options) returns (rep: Report, ok: bool)
      requires Reaches(c, s) && s.phase == Phase.Removing && (stale ==> Orphan(s, SessionOf(name)))
      requires s.removed == if opts.dryRun then {} else Sessions(rep0.removed)
      modifies this
      ensures Reaches(c, s) && s.phase == Phase.Removing && Ours(old(s).(removed := s.removed), s)
      ensures ok ==> rep == Grown(rep0, name, info, stale, opts.maxDeletions)
      ensures ok ==> s.removed == if opts.dryRun then {} else Sessions(rep.removed)
      ensures opts.dryRun ==> s.removed == {}
    {
      rep, ok := rep0.(scanned := rep0.scanned + 1), true;
      if !stale {
        rep := rep.(retained := rep.retained + 1);
      } else if opts.maxDeletions > 0 && |rep.removed| >= opts.maxDeletions {
        rep := rep.(skipped := rep.skipped + 1);
      } else {
        if !opts.dryRun {
          ok := Unlink(name);
          if !ok {
            return;
          }
        }
        SessionsGrow(rep.removed, name);
        rep := rep.(removed := rep.removed + [name], bytesFreed := rep.bytesFreed + info.size);
      }
    }
  }
}
