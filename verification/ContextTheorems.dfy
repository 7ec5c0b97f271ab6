/**
 The promises of the context-sync sidecar, over every run of ContextMachine: every interleaving
 of agent, ticks and work requests, with a crash possible between any two steps.
 */
module ContextTheorems {
  import opened Wrappers
  import opened ContextMachine
  import opened ContextInvariant
  import opened ContextFidelity
  import opened ContextMemory

  ghost predicate Reaches(c: Config, s: State) {
    exists run :: Run(c, EMPTY, run) == Some(s)
  }

  lemma ReachedStructure(c: Config, s: State)
    requires Reaches(c, s)
    ensures Structure(c, s)
  {
    var run :| Run(c, EMPTY, run) == Some(s);
    StructureRun(c, EMPTY, run, s);
  }

  lemma ReachedKept(c: Config, s: State)
    requires Reaches(c, s) && c.fine
    ensures Kept(c, s)
  {
    var run :| Run(c, EMPTY, run) == Some(s);
    KeptRun(c, EMPTY, run, s);
  }

  lemma ReachedRecalls(c: Config, s: State)
    requires Reaches(c, s) && c.fine && c.cleanStart
    ensures Recalls(c, s)
  {
    var run :| Run(c, EMPTY, run) == Some(s);
    RecallsRun(c, EMPTY, run, s);
  }

  lemma RunAppend(c: Config, s: State, run: seq<Step>, a: Step)
    requires Run(c, s, run).Some?
    ensures Run(c, s, run + [a]) == Next(c, Run(c, s, run).value, a)
  {
    assert (run + [a])[..|run + [a]| - 1] == run;
  }

  // ---- crash safety ---------------------------------------------------------------

  /** Whatever happened, a crash at this point included, `current` is absent or names a
      generation all of whose files and metadata were written, and which is as it was then. */
  lemma CurrentIsWhole(c: Config, s: State)
    requires Reaches(c, s) && s.current.Some?
    ensures s.current.value in s.gens && s.current.value in s.sealed
    ensures Whole(s.inodes, s.gens[s.current.value], s.sealed[s.current.value])
    ensures CurrentFiles(s.gens, s.current) == s.gens[s.current.value].files
  {
    ReachedStructure(c, s);
  }

  /** Numbers and seals only grow. */
  ghost predicate Grows(s: State, t: State) {
    && s.highest <= t.highest && s.doomed <= t.doomed
    && (forall g :: g in s.sealed ==> g in t.sealed && t.sealed[g] == s.sealed[g])
  }

  lemma OutsideGrows(c: Config, s: State, a: Step, t: State)
    requires AgentStep(a) || ContractStep(a) || RestoreStep(a) || a.Finish? || a.Abort? || a.Crash?
    requires Next(c, s, a) == Some(t)
    ensures Grows(s, t)
  {
  }

  lemma ScanGrows(s: State, a: Step, t: State)
    requires ScanStep(a) && !a.Begin? && ScanNext(s, a) == Some(t)
    ensures Grows(s, t)
  {
  }

  lemma FillGrows(s: State, a: Step, t: State)
    requires FillStep(a) && FillNext(s, a) == Some(t)
    ensures Grows(s, t)
  {
  }

  lemma CommitGrows(c: Config, s: State, a: Step, t: State)
    requires CommitStep(a) && CommitNext(c, s, a) == Some(t)
    requires a.WriteMeta? ==> s.pc.next !in s.sealed
    ensures Grows(s, t)
  {
  }

  lemma PruneGrows(s: State, a: Step, t: State)
    requires PruneStep(a) && PruneNext(s, a) == Some(t)
    ensures Grows(s, t)
  {
  }

  lemma BegunGrows(s: State)
    requires s.pc.Scanning?
    ensures Grows(s, Begun(s, s.highest + 1))
  {
  }

  lemma BeginGrows(s: State, t: State)
    requires Numbered(s.gens.Keys, s.sealed.Keys, s.doomed, s.highest) && BeginNext(s) == Some(t)
    ensures Grows(s, t)
  {
    BeginsNext(s, t);
    BegunGrows(s);
  }

  lemma ScanStepGrows(s: State, a: Step, t: State)
    requires Numbered(s.gens.Keys, s.sealed.Keys, s.doomed, s.highest)
    requires ScanStep(a) && ScanNext(s, a) == Some(t)
    ensures Grows(s, t)
  {
    if a.Begin? {
      BeginGrows(s, t);
    } else {
      ScanGrows(s, a, t);
    }
  }

  lemma StepGrows(c: Config, s: State, a: Step, t: State)
    requires Numbered(s.gens.Keys, s.sealed.Keys, s.doomed, s.highest)
    requires s.pc.Copying? && s.pc.stage == Files ==> s.pc.next !in s.sealed
    requires Next(c, s, a) == Some(t)
    ensures Grows(s, t)
  {
    if ScanStep(a) {
      ScanStepGrows(s, a, t);
    } else if CommitStep(a) {
      CommitGrows(c, s, a, t);
    } else if PruneStep(a) {
      PruneGrows(s, a, t);
    } else if FillStep(a) {
      FillGrows(s, a, t);
    } else {
      OutsideGrows(c, s, a, t);
    }
  }

  /** Nothing that happens later, no write of the agent, restore, checkpoint or crash, changes a
      byte, an mtime or the file list of a finished generation; only a prune may remove it. */
  lemma FinishedGenerationsNeverChange(c: Config, s: State, run: seq<Step>, t: State)
    requires Structure(c, s) && Run(c, s, run) == Some(t)
    ensures Grows(s, t)
    ensures forall g :: g in s.sealed && g in t.gens && g !in t.doomed ==>
              Whole(t.inodes, t.gens[g], s.sealed[g]) && Disjoint(t.live, t.gens[g].files)
    decreases |run|
  {
    StructureRun(c, s, run, t);
    if run != [] {
      var front := run[..|run| - 1];
      var u := Run(c, s, front).value;
      StructureRun(c, s, front, u);
      FinishedGenerationsNeverChange(c, s, front, u);
      StepGrows(c, u, run[|run| - 1], t);
    }
  }

  /** A checkpoint that starts writing takes a number no generation, whole, partial or pruned,
      of this or any earlier pod ever had, so a partial directory is never written again. */
  lemma NewNumberIsUnused(c: Config, s: State)
    requires Reaches(c, s) && s.pc.Scanning? && s.pc.todo == {} && s.pc.seen != s.last
    ensures BeginNext(s) == Some(Begun(s, s.highest + 1))
    ensures forall g :: g in s.gens || g in s.sealed || g in s.doomed ==> g <= s.highest
  {
    ReachedStructure(c, s);
    BeginsNext(s, BeginNext(s).value);
  }

  /** A link shares an inode of the finished current generation, never of a partial one. */
  lemma LinksComeFromCurrent(c: Config, s: State, p: Path, t: State)
    requires Reaches(c, s) && LinkNext(s, p) == Some(t)
    ensures s.current.Some? && s.current.value in s.sealed && p in s.sealed[s.current.value]
    ensures s.inodes[t.gens[t.pc.next].files[p]] == s.sealed[s.current.value][p]
  {
    ReachedStructure(c, s);
    var cur := s.gens[s.current.value];
    assert Whole(s.inodes, cur, s.sealed[s.current.value]);
    assert p in View(s.inodes, cur.files);
  }

  /** A checkpoint that returns without error leaves at most max(1, Retain) generations, and
      `current` names the newest of them. */
  lemma RetainHolds(c: Config, s: State, t: State)
    requires Reaches(c, s) && FinishNext(s) == Some(t)
    ensures |t.gens| <= Keep(c.retain)
    ensures t.current.Some? && t.current.value in t.gens && forall g :: g in t.gens ==> g <= t.current.value
  {
    ReachedStructure(c, s);
    assert s.gens.Keys - {} == s.gens.Keys;
    assert |t.gens.Keys| == |t.gens|;
  }

  // ---- incremental copies ---------------------------------------------------------

  /** An incremental generation taken of a tree that did not change since the job began holds
      what a full copy of that tree would hold, whatever earlier checkpoints copied mid-write. */
  lemma IncrementalIsFull(c: Config, s: State, t: State)
    requires c.fine && Reaches(c, s) && FinishNext(s) == Some(t) && s.calm
    ensures Durable(t) && t.last == Stamps(t.inodes, t.live)
  {
    ReachedKept(c, s);
    FidelityFinish(c, s, t);
  }

  /** What a link of p would share is what the live file held under the scanned stamp. */
  ghost predicate SharesWhatWasLive(s: State, p: Path)
    requires BetweenFiles(s, p)
  {
    var files := CurrentFiles(s.gens, s.current);
    && p in files && files[p] in s.inodes && (p, s.pc.m[p].mtime) in s.ver
    && s.inodes[files[p]].data == s.ver[(p, s.pc.m[p].mtime)]
  }

  /** A file torn by a write during its copy is never linked onward: what a link shares is the
      content the live file had under the scanned stamp. */
  lemma TornIsNeverLinked(c: Config, s: State, p: Path, t: State)
    requires c.fine && Reaches(c, s) && LinkNext(s, p) == Some(t)
    ensures SharesWhatWasLive(s, p)
    ensures t.gens[t.pc.next].files[p] == CurrentFiles(s.gens, s.current)[p] && t.inodes == s.inodes
  {
    ReachedKept(c, s);
  }

  // ---- completions ----------------------------------------------------------------

  /** When a completion whose checkpoint reported no error is about to be forwarded, `current`
      holds exactly the live files, which the serial runtime has not touched since it reported. */
  ghost predicate CompletionsDurable(c: Config) {
    forall s :: Reaches(c, s) && s.phase == Reporting(Ready(true)) ==> Durable(s)
  }

  lemma CompletionIsDurable(c: Config, s: State)
    requires c.fine && c.cleanStart && Reaches(c, s) && s.phase == Reporting(Ready(true))
    ensures Durable(s)
  {
    ReachedRecalls(c, s);
  }

  // Runs are built over any predicate that holds at the start and is kept by every step.

  ghost predicate Inductive(c: Config, reach: State -> bool) {
    && reach(EMPTY)
    && forall s, a, t :: reach(s) && Next(c, s, a) == Some(t) ==> reach(t)
  }

  lemma ReachesIsInductive(c: Config)
    ensures Inductive(c, s => Reaches(c, s))
  {
    assert Run(c, EMPTY, []) == Some(EMPTY);
    forall s, a, t | Reaches(c, s) && Next(c, s, a) == Some(t)
      ensures Reaches(c, t)
    {
      var run :| Run(c, EMPTY, run) == Some(s);
      RunAppend(c, EMPTY, run, a);
      assert Run(c, EMPTY, run + [a]) == Some(t);
    }
  }

  lemma Agent(c: Config, reach: State -> bool, s: State, a: Step) returns (t: State)
    requires Inductive(c, reach) && reach(s) && AgentStep(a) && AgentNext(c, s, a).Some?
    ensures AgentNext(c, s, a) == Some(t) && reach(t)
  {
    t := AgentNext(c, s, a).value;
    assert Next(c, s, a) == Some(t);
  }

  lemma Contract(c: Config, reach: State -> bool, s: State, a: Step) returns (t: State)
    requires Inductive(c, reach) && reach(s) && ContractStep(a) && ContractNext(s, a).Some?
    ensures ContractNext(s, a) == Some(t) && reach(t)
  {
    t := ContractNext(s, a).value;
    assert Next(c, s, a) == Some(t);
  }

  lemma Scan(c: Config, reach: State -> bool, s: State, a: Step) returns (t: State)
    requires Inductive(c, reach) && reach(s) && ScanStep(a) && ScanNext(s, a).Some?
    ensures ScanNext(s, a) == Some(t) && reach(t)
  {
    t := ScanNext(s, a).value;
    assert Next(c, s, a) == Some(t);
  }

  lemma Fill(c: Config, reach: State -> bool, s: State, a: Step) returns (t: State)
    requires Inductive(c, reach) && reach(s) && FillStep(a) && FillNext(s, a).Some?
    ensures FillNext(s, a) == Some(t) && reach(t)
  {
    t := FillNext(s, a).value;
    assert Next(c, s, a) == Some(t);
  }

  /** From the last file in place to the rename: the new generation is current, and the older
      ones beyond Retain are left to remove. */
  lemma Commit(c: Config, reach: State -> bool, s: State) returns (t: State)
    requires Inductive(c, reach) && reach(s)
    requires s.pc.Copying? && s.pc.todo == {} && s.pc.fd == None && s.pc.stage == Files && s.pc.next in s.gens
    ensures reach(t) && t == s.(gens := t.gens, sealed := t.sealed, tmp := None, current := Some(s.pc.next), pc := t.pc)
    ensures t.gens == s.gens[s.pc.next := Gen(s.gens[s.pc.next].files, Some(Meta(|s.pc.m|, s.pc.written, s.pc.quiesced)))]
    ensures t.sealed == s.sealed[s.pc.next := View(s.inodes, s.gens[s.pc.next].files)]
    ensures t.pc == Pruning(s.pc.job, s.pc.m, Victims(t.gens.Keys, c.retain, Some(s.pc.next)))
  {
    var u := WriteMetaNext(s).value;
    assert Next(c, s, WriteMeta) == Some(u);
    t := LinkAndRename(c, reach, u);
  }

  lemma LinkAndRename(c: Config, reach: State -> bool, s: State) returns (t: State)
    requires Inductive(c, reach) && reach(s) && s.pc.Copying? && s.pc.stage == MetaWritten
    ensures reach(t) && t == s.(tmp := None, current := Some(s.pc.next), pc := t.pc)
    ensures t.pc == Pruning(s.pc.job, s.pc.m, Victims(s.gens.Keys, c.retain, Some(s.pc.next)))
  {
    var u := SymlinkNext(s).value;
    assert Next(c, s, Symlink) == Some(u);
    t := RenameNext(c, u).value;
    assert Next(c, u, Rename) == Some(t);
  }

  lemma RemoveVictim(c: Config, reach: State -> bool, s: State, g: nat) returns (t: State)
    requires Inductive(c, reach) && reach(s) && s.pc.Pruning? && s.pc.victims <= {g} && g in s.gens
    ensures reach(t) && t == s.(pc := s.pc.(victims := {}), gens := t.gens, doomed := t.doomed)
    ensures t.gens == if s.pc.victims == {} then s.gens else s.gens - {g}
  {
    t := s;
    if s.pc.victims != {} {
      assert s.pc.victims == {g};
      t := RemoveDirNext(s, g).value;
      assert Next(c, s, RemoveDir(g)) == Some(t);
      assert t.pc.victims == {};
    }
  }

  lemma RemoveAndFinish(c: Config, reach: State -> bool, s: State, g: nat) returns (t: State)
    requires Inductive(c, reach) && reach(s) && s.pc.Pruning? && s.pc.victims <= {g} && g in s.gens
    ensures reach(t)
    ensures t == EndJob(s, s.pc.job, true).(last := s.pc.m, gens := t.gens, doomed := t.doomed)
    ensures t.gens == if s.pc.victims == {} then s.gens else s.gens - {g}
  {
    var u := RemoveVictim(c, reach, s, g);
    t := FinishNext(u).value;
    assert Next(c, u, Finish) == Some(t);
  }

  /** A pod on an empty volume whose agent has its first unit. */
  const WORKING := EMPTY.(restored := true, inflight := true, handed := true)

  lemma RestoreNothing(c: Config, reach: State -> bool, s: State) returns (t: State)
    requires Inductive(c, reach) && reach(s) && s.phase == Asking && !s.restored && s.pc == Idle
    requires s.current == None && (c.cleanStart ==> s.live == map[])
    ensures reach(t) && t == s.(restored := true, last := Stamps(s.inodes, s.live))
  {
    var u := RestoreBeginNext(c, s).value;
    assert Next(c, s, RestoreBegin) == Some(u);
    assert u.pc == Restoring({});
    t := RestoreEndNext(u).value;
    assert Next(c, u, RestoreEnd) == Some(t);
  }

  lemma WorkingIsReached(c: Config, reach: State -> bool)
    requires Inductive(c, reach)
    ensures reach(WORKING)
  {
    var s := Contract(c, reach, EMPTY, Ask);
    s := RestoreNothing(c, reach, s);
    assert Stamps(map[], map[]) == map[];
    s := Contract(c, reach, s, HandOut);
  }

  // A coarse clock: a file is rewritten, longer, under the mtime it had, while it is copied.

  const OLD: Bytes := [1]
  const NEW: Bytes := [2, 3]
  const MIX: Bytes := [1, 3]
  const FILE: Path := "f"

  lemma FileIsWritten(c: Config, reach: State -> bool, s: State) returns (t: State)
    requires Inductive(c, reach) && reach(s) && AgentMay(c, s) && s.inodes == map[] && s.live == map[]
    requires s.ver == map[] && s.pairs == {}
    ensures reach(t)
    ensures t == s.(inodes := map[1 := File(OLD, 5)], live := map[FILE := 1], calm := false,
                    ver := map[(FILE, 5) := OLD], pairs := {(FILE, Stamp(1, 5))})
  {
    assert Base(FILE) == FILE;
    t := Agent(c, reach, s, Put(FILE, 1, OLD, 5));
  }

  lemma FileIsScanned(c: Config, reach: State -> bool, s: State) returns (t: State)
    requires Inductive(c, reach) && reach(s) && s.pc == Idle && s.gens == map[] && s.last == map[]
    requires s.live == map[FILE := 1] && 1 in s.inodes && s.inodes[1] == File(OLD, 5)
    ensures reach(t)
    ensures t == s.(gens := map[1 := Gen(map[], None)], highest := 1, calm := true,
                    pc := Copying(Interval, map[FILE := Stamp(1, 5)], 1, {FILE}, None, !s.inflight, 0, Files))
  {
    t := Scan(c, reach, s, Start(Interval));
    t := Scan(c, reach, t, Visit(FILE));
    assert t.pc.todo == {} && t.pc.seen == map[FILE := Stamp(1, 5)] && FILE !in t.last;
    assert t.pc.seen.Keys == {FILE} && t.gens.Keys == {};
    t := Scan(c, reach, t, Begin);
  }

  lemma CopyIsOpen(c: Config, reach: State -> bool) returns (s: State)
    requires Inductive(c, reach)
    ensures reach(s) && s.phase == Free && s.handed && s.live == map[FILE := 1] && s.sealed == map[]
    ensures s.inodes == map[1 := File(OLD, 5), 2 := File([], 0)]
    ensures s.pairs == {(FILE, Stamp(1, 5))} && s.ver == map[(FILE, 5) := OLD]
    ensures s.gens == map[1 := Gen(map[FILE := 2], None)] && s.current == None
    ensures s.pc == Copying(Interval, map[FILE := Stamp(1, 5)], 1, {FILE},
                            Some(Fd(FILE, 1, 5, 2, 0)), false, 0, Files)
  {
    WorkingIsReached(c, reach);
    s := FileIsWritten(c, reach, WORKING);
    s := FileIsScanned(c, reach, s);
    s := Fill(c, reach, s, Open(FILE, 2, 0));
  }

  lemma CopyIsTorn(c: Config, reach: State -> bool) returns (s: State)
    requires Inductive(c, reach) && !c.fine
    ensures reach(s) && s.phase == Free && s.handed && s.live == map[FILE := 1]
    ensures s.inodes == map[1 := File(NEW, 5), 2 := File(MIX, 5)] && s.ver == map[(FILE, 5) := NEW]
    ensures s.gens == map[1 := Gen(map[FILE := 2], None)] && s.current == None
    ensures s.pc == Copying(Interval, map[FILE := Stamp(1, 5)], 1, {}, None, false, 2, Files)
  {
    s := CopyIsOpen(c, reach);
    s := Fill(c, reach, s, Read(1, 0));
    assert s.inodes[2].data == OLD;
    s := RewrittenUnderTheCopy(c, reach, s);
  }

  lemma RewrittenUnderTheCopy(c: Config, reach: State -> bool, s: State) returns (t: State)
    requires Inductive(c, reach) && reach(s) && !c.fine && s.phase == Free && s.live == map[FILE := 1]
    requires s.inodes == map[1 := File(OLD, 5), 2 := File(OLD, 0)]
    requires s.pairs == {(FILE, Stamp(1, 5))} && s.ver == map[(FILE, 5) := OLD]
    requires s.pc == Copying(Interval, map[FILE := Stamp(1, 5)], 1, {FILE}, Some(Fd(FILE, 1, 5, 2, 1)), false, 0, Files)
    ensures reach(t)
    ensures t == s.(inodes := t.inodes, ver := t.ver, pairs := t.pairs, calm := false, pc := t.pc)
    ensures t.inodes == map[1 := File(NEW, 5), 2 := File(MIX, 5)] && t.ver == map[(FILE, 5) := NEW]
    ensures t.pc == Copying(Interval, map[FILE := Stamp(1, 5)], 1, {}, None, false, 2, Files)
  {
    t := Agent(c, reach, s, Write(FILE, NEW, 5));
    t := TornIsClosed(c, reach, t, 5, false);
  }

  /** One byte was copied before the rewrite; the rest comes from what was written since. */
  lemma TornIsClosed(c: Config, reach: State -> bool, s: State, mtime: int, quiesced: bool) returns (t: State)
    requires Inductive(c, reach) && reach(s)
    requires s.inodes == map[1 := File(NEW, mtime), 2 := File(OLD, 0)]
    requires s.pc == Copying(Interval, map[FILE := Stamp(1, 5)], 1, {FILE}, Some(Fd(FILE, 1, 5, 2, 1)), quiesced, 0, Files)
    ensures reach(t) && t == s.(inodes := t.inodes, pc := t.pc)
    ensures t.inodes == map[1 := File(NEW, mtime), 2 := File(MIX, 5)]
    ensures t.pc == Copying(Interval, map[FILE := Stamp(1, 5)], 1, {}, None, quiesced, 2, Files)
  {
    t := Fill(c, reach, s, Read(1, 0));
    assert t.inodes[2].data == MIX;
    t := Fill(c, reach, t, Close);
    assert t.pc.todo == {};
  }

  lemma TornCopyIsCurrent(c: Config, reach: State -> bool) returns (s: State)
    requires Inductive(c, reach) && !c.fine
    ensures reach(s) && s.phase == Free && s.handed && s.live == map[FILE := 1] && s.pc == Idle
    ensures s.inodes == map[1 := File(NEW, 5), 2 := File(MIX, 5)] && s.ver == map[(FILE, 5) := NEW]
    ensures s.gens.Keys == {1} && s.gens[1].files == map[FILE := 2] && s.current == Some(1)
    ensures s.last == map[FILE := Stamp(1, 5)]
  {
    s := CopyIsTorn(c, reach);
    s := Commit(c, reach, s);
    VictimsSpare({1}, c.retain, 1);
    assert s.pc.victims == {};
    s := RemoveAndFinish(c, reach, s, 1);
  }

  lemma TornCopyIsScanned(c: Config, reach: State -> bool) returns (s: State)
    requires Inductive(c, reach) && !c.fine
    ensures reach(s) && s.live == map[FILE := 1] && s.calm && s.phase == Reporting(Running)
    ensures s.inodes == map[1 := File(NEW, 5), 2 := File(MIX, 5)] && s.ver == map[(FILE, 5) := NEW]
    ensures s.gens.Keys == {1, 2} && s.gens[1].files == map[FILE := 2] && s.current == Some(1)
    ensures s.gens[2] == Gen(map[], None)
    ensures s.pc == Copying(WorkDone, map[FILE := Stamp(2, 5)], 2, {FILE}, None, true, 0, Files)
  {
    s := TornCopyIsCurrent(c, reach);
    s := Contract(c, reach, s, Report);
    s := Contract(c, reach, s, MarkDone);
    s := Scan(c, reach, s, Start(WorkDone));
    s := Scan(c, reach, s, Visit(FILE));
    assert s.pc.todo == {} && s.pc.seen[FILE] != s.last[FILE];
    s := Scan(c, reach, s, Begin);
  }

  lemma TornCopyIsLinkable(s: State)
    requires s.current == Some(1) && 1 in s.gens && s.gens[1].files == map[FILE := 2] && 2 in s.gens
    requires s.inodes == map[1 := File(NEW, 5), 2 := File(MIX, 5)] && s.ver == map[(FILE, 5) := NEW]
    requires s.pc == Copying(WorkDone, map[FILE := Stamp(2, 5)], 2, {FILE}, None, true, 0, Files)
    ensures LinkNext(s, FILE).Some? && !SharesWhatWasLive(s, FILE)
  {
    assert StampOf(s.inodes[2]) == Stamp(2, 5);
  }

  lemma TornCopyIsLinked(c: Config, reach: State -> bool) returns (s: State)
    requires Inductive(c, reach) && !c.fine
    ensures reach(s) && s.live == map[FILE := 1] && s.calm && s.phase == Reporting(Running)
    ensures s.inodes == map[1 := File(NEW, 5), 2 := File(MIX, 5)] && s.ver == map[(FILE, 5) := NEW]
    ensures s.gens.Keys == {1, 2} && s.gens[2] == Gen(map[FILE := 2], None) && s.current == Some(1)
    ensures s.pc == Copying(WorkDone, map[FILE := Stamp(2, 5)], 2, {}, None, true, 0, Files)
  {
    s := TornCopyIsScanned(c, reach);
    TornCopyIsLinkable(s);
    s := Fill(c, reach, s, Link(FILE));
    assert s.pc.todo == {};
  }

  lemma TornCopyIsPruned(c: Config, reach: State -> bool) returns (s: State)
    requires Inductive(c, reach) && !c.fine
    ensures reach(s) && s.live == map[FILE := 1] && s.calm && s.phase == Reporting(Running)
    ensures s.inodes == map[1 := File(NEW, 5), 2 := File(MIX, 5)]
    ensures 2 in s.gens && s.gens[2].files == map[FILE := 2] && s.current == Some(2)
    ensures s.pc == Pruning(WorkDone, map[FILE := Stamp(2, 5)], {})
  {
    s := TornCopyIsLinked(c, reach);
    s := Commit(c, reach, s);
    VictimsSpare({1, 2}, c.retain, 2);
    assert s.gens.Keys == {1, 2};
    s := RemoveVictim(c, reach, s, 1);
  }

  lemma TornIsNotDurable(s: State)
    requires s.live == map[FILE := 1] && s.inodes == map[1 := File(NEW, 5), 2 := File(MIX, 5)]
    requires s.current == Some(2) && 2 in s.gens && s.gens[2].files == map[FILE := 2]
    ensures !Durable(s)
  {
    assert View(s.inodes, CurrentFiles(s.gens, s.current))[FILE] == File(MIX, 5);
    assert View(s.inodes, s.live)[FILE] == File(NEW, 5);
  }

  lemma CoarseClockFails(c: Config, reach: State -> bool) returns (s: State, t: State)
    requires Inductive(c, reach) && !c.fine
    ensures reach(s) && s.calm && FinishNext(s) == Some(t)
    ensures reach(t) && t.phase == Reporting(Ready(true)) && !Durable(t)
  {
    s := TornCopyIsPruned(c, reach);
    t := FinishNext(s).value;
    assert Next(c, s, Finish) == Some(t);
    TornIsNotDurable(t);
  }

  /** A checkpoint of a tree that stayed calm ends with that tree in `current`. */
  ghost predicate IncrementalsFull(c: Config) {
    forall s, t :: Reaches(c, s) && s.calm && FinishNext(s) == Some(t) ==> Durable(t)
  }

  /** Incremental copies are as good as full ones in every run exactly when no change of a live
      file repeats an mtime its path had; how a restore started does not matter. */
  lemma IncrementalExactlyWhen(c: Config)
    ensures IncrementalsFull(c) <==> c.fine
  {
    if c.fine {
      forall s, t | Reaches(c, s) && s.calm && FinishNext(s) == Some(t)
        ensures Durable(t)
      {
        IncrementalIsFull(c, s, t);
      }
    } else {
      ReachesIsInductive(c);
      var s, t := CoarseClockFails(c, u => Reaches(c, u));
      assert Reaches(c, s) && s.calm && FinishNext(s) == Some(t) && !Durable(t);
    }
  }

  /** No link shares a torn file. */
  ghost predicate LinksShareWhatWasLive(c: Config) {
    forall s, p :: Reaches(c, s) && LinkNext(s, p).Some? ==> SharesWhatWasLive(s, p)
  }

  lemma LinksExactlyWhen(c: Config)
    ensures LinksShareWhatWasLive(c) <==> c.fine
  {
    if c.fine {
      forall s, p | Reaches(c, s) && LinkNext(s, p).Some?
        ensures SharesWhatWasLive(s, p)
      {
        TornIsNeverLinked(c, s, p, LinkNext(s, p).value);
      }
    } else {
      ReachesIsInductive(c);
      var s := TornCopyIsScanned(c, u => Reaches(c, u));
      TornCopyIsLinkable(s);
      assert Reaches(c, s);
    }
  }

  // A restore that does not start clean: a file the agent left before its first unit is taken
  // into the remembered manifest without ever being copied.

  lemma FileIsRemembered(c: Config, reach: State -> bool) returns (s: State)
    requires Inductive(c, reach) && !c.cleanStart
    ensures reach(s) && s.phase == Asking && s.restored && s.pc == Idle && s.current == None
    ensures s.live == map[FILE := 1] && s.inodes == map[1 := File(OLD, 5)] && s.last == map[FILE := Stamp(1, 5)]
  {
    s := FileIsWritten(c, reach, EMPTY);
    s := Contract(c, reach, s, Ask);
    s := RestoreNothing(c, reach, s);
  }

  lemma DirtyStartFails(c: Config, reach: State -> bool) returns (s: State)
    requires Inductive(c, reach) && !c.cleanStart
    ensures reach(s) && s.phase == Reporting(Ready(true)) && !Durable(s)
  {
    s := FileIsRemembered(c, reach);
    s := Contract(c, reach, s, HandOut);
    s := Contract(c, reach, s, Report);
    s := Contract(c, reach, s, MarkDone);
    s := SkipScan(c, reach, s);
    assert FILE in View(s.inodes, s.live) && FILE !in View(s.inodes, map[]);
  }

  lemma SkipScan(c: Config, reach: State -> bool, s: State) returns (t: State)
    requires Inductive(c, reach) && reach(s) && s.pc == Idle && s.phase == Reporting(Marked)
    requires s.live == map[FILE := 1] && 1 in s.inodes && s.last == map[FILE := StampOf(s.inodes[1])]
    ensures reach(t) && t == s.(phase := Reporting(Ready(true)), calm := true)
  {
    t := Scan(c, reach, s, Start(WorkDone));
    t := Scan(c, reach, t, Visit(FILE));
    assert t.pc.todo == {} && t.pc.seen == t.last;
    t := Scan(c, reach, t, Skip);
  }

  /** Completions are durable in every run exactly when no change of a live file repeats an mtime
      its path had, and every restore finds only files that are in `current`. */
  lemma DurableExactlyWhen(c: Config)
    ensures CompletionsDurable(c) <==> c.fine && c.cleanStart
  {
    if c.fine && c.cleanStart {
      forall s | Reaches(c, s) && s.phase == Reporting(Ready(true))
        ensures Durable(s)
      {
        CompletionIsDurable(c, s);
      }
    } else {
      ReachesIsInductive(c);
      var reach := s => Reaches(c, s);
      var s: State;
      if !c.fine {
        var _, t := CoarseClockFails(c, reach);
        s := t;
      } else {
        s := DirtyStartFails(c, reach);
      }
      assert Reaches(c, s);
    }
  }
}
