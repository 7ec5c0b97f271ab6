/**
 Restoring: a pod whose agent writes nothing writes nothing to the volume either, its restore
 brings back what `current` held, and no unit is handed out before that.
 */
module ContextRestore {
  import opened Wrappers
  import opened ContextMachine
  import opened ContextInvariant
  import opened ContextFidelity
  import opened ContextMemory
  import opened ContextTheorems

  // ---- a pod whose agent writes nothing -------------------------------------------

  /** Outside a restore: nothing live and nothing remembered before it, afterwards the tree
      `current` holds, remembered exactly. */
  ghost predicate QuietMemory(t: State) {
    if !t.restored then t.live == map[] && t.last == map[]
    else Durable(t) && t.last == Stamps(t.inodes, t.live)
  }

  ghost predicate QuietJob(t: State) {
    match t.pc
    case Idle => QuietMemory(t)
    case Restoring(_) => !t.restored && RestoringOk(t)
    case Scanning(_, todo, seen) => QuietMemory(t) && ExactScan(t.inodes, t.live, todo, seen)
    case Copying(_, _, _, _, _, _, _, _) => false
    case Pruning(_, _, _) => false
  }

  /** The volume is as it was in s. */
  ghost predicate VolumeUntouched(s: State, t: State) {
    t.gens == s.gens && t.current == s.current && SameOn(s.inodes, t.inodes, CurrentFiles(s.gens, s.current))
  }

  lemma QuietContract(t: State, a: Step, u: State)
    requires QuietJob(t) && ContractStep(a) && ContractNext(t, a) == Some(u)
    ensures QuietJob(u) && u.gens == t.gens && u.current == t.current && u.inodes == t.inodes
  {
  }

  lemma RestoringBegins(c: Config, t: State, u: State)
    requires Volume(t) && QuietJob(t) && RestoreBeginNext(c, t) == Some(u)
    ensures QuietJob(u)
  {
    forall p | p in CurrentFiles(t.gens, t.current)
      ensures !IsMeta(p)
    {
      assert NoMeta(t.gens[t.current.value].files.Keys);
    }
  }

  lemma RestoringIsOver(t: State, u: State)
    requires Volume(t) && t.pc.Restoring? && RestoringOk(t) && RestoreEndNext(t) == Some(u)
    ensures QuietJob(u)
  {
    CurrentClosed(t);
    RestoredTree(t);
    assert Durable(u);
  }

  lemma QuietScanIsRemembered(t: State)
    requires Closed(t.inodes, t.live) && t.pc.Scanning? && QuietJob(t) && t.pc.todo == {}
    ensures t.pc.seen == t.last
  {
    ExactScanIsStamps(t);
    assert Stamps(t.inodes, map[]) == map[];
  }

  lemma QuietVisit(t: State, p: Path, u: State)
    requires QuietJob(t) && VisitNext(t, p) == Some(u)
    ensures QuietJob(u)
  {
  }

  lemma QuietStart(t: State, job: Job, u: State)
    requires QuietJob(t) && StartNext(t, job) == Some(u)
    ensures QuietJob(u)
  {
  }

  lemma QuietSkip(t: State, u: State)
    requires QuietJob(t) && SkipNext(t) == Some(u)
    ensures QuietJob(u)
  {
  }

  lemma ScanLeavesVolume(t: State, a: Step, u: State)
    requires ScanStep(a) && !a.Begin? && ScanNext(t, a) == Some(u)
    ensures u.gens == t.gens && u.current == t.current && u.inodes == t.inodes
  {
  }

  lemma QuietNeverBegins(t: State)
    requires Closed(t.inodes, t.live) && QuietJob(t)
    ensures BeginNext(t).None?
  {
    if t.pc.Scanning? && t.pc.todo == {} {
      QuietScanIsRemembered(t);
    }
  }

  lemma QuietScan(t: State, a: Step, u: State)
    requires Volume(t) && QuietJob(t) && ScanStep(a) && ScanNext(t, a) == Some(u)
    ensures QuietJob(u) && u.gens == t.gens && u.current == t.current && u.inodes == t.inodes
  {
    QuietNeverBegins(t);
    ScanLeavesVolume(t, a, u);
    match a
    case Start(job) => QuietStart(t, job, u);
    case Visit(p) => QuietVisit(t, p, u);
    case Skip => QuietSkip(t, u);
  }

  lemma CurrentSame(t: State)
    requires Volume(t)
    ensures SameOn(t.inodes, t.inodes, CurrentFiles(t.gens, t.current))
  {
    CurrentClosed(t);
  }

  lemma QuietRestore(c: Config, t: State, a: Step, u: State)
    requires Volume(t) && QuietJob(t) && RestoreStep(a) && RestoreNext(c, t, a) == Some(u)
    ensures QuietJob(u) && u.gens == t.gens && u.current == t.current
    ensures SameOn(t.inodes, u.inodes, CurrentFiles(t.gens, t.current))
  {
    match a
    case RestoreBegin => RestoringBegins(c, t, u); CurrentSame(t);
    case RestoreFile(p, ino) => CurrentClosed(t); RestoringGoesOn(t, p, ino, u, CurrentFiles(t.gens, t.current));
    case RestoreEnd => RestoringIsOver(t, u); CurrentSame(t);
  }

  lemma QuietStep(c: Config, t: State, a: Step, u: State)
    requires Volume(t) && QuietJob(t) && !AgentStep(a) && Next(c, t, a) == Some(u)
    ensures QuietJob(u) && VolumeUntouched(t, u)
  {
    if RestoreStep(a) {
      QuietRestore(c, t, a, u);
    } else {
      CurrentSame(t);
      if ContractStep(a) {
        QuietContract(t, a, u);
      } else if ScanStep(a) {
        QuietScan(t, a, u);
      }
    }
  }

  ghost predicate AgentWritesNothing(run: seq<Step>) {
    forall i :: 0 <= i < |run| ==> !AgentStep(run[i])
  }

  lemma QuietRun(c: Config, s: State, run: seq<Step>, t: State)
    requires Structure(c, s) && QuietJob(s) && AgentWritesNothing(run) && Run(c, s, run) == Some(t)
    ensures QuietJob(t) && VolumeUntouched(s, t)
    decreases |run|
  {
    if run == [] {
      CurrentSame(s);
    } else {
      var front := run[..|run| - 1];
      var u := Run(c, s, front).value;
      QuietRun(c, s, front, u);
      StructureRun(c, s, front, u);
      QuietStep(c, u, run[|run| - 1], t);
    }
  }

  lemma ViewSame(before: map<Ino, File>, after: map<Ino, File>, files: map<Path, Ino>)
    requires SameOn(before, after, files)
    ensures View(before, files) == View(after, files)
  {
  }

  /** A pod that starts with an empty live tree and whose agent writes nothing never moves
      `current` and never writes a generation, through any restore, tick, unit, shutdown
      checkpoint or crash; until a restore begins its live tree is empty, and after one it is
      what `current` held, file for file, with the sizes and mtimes the remembered manifest
      states, so that every later checkpoint is skipped. */
  lemma QuietPodWritesNothing(c: Config, s: State, run: seq<Step>, t: State)
    requires Structure(c, s) && AgentWritesNothing(run) && Run(c, Reboot(s), run) == Some(t)
    ensures t.gens == s.gens && t.current == s.current
    ensures View(t.inodes, CurrentFiles(t.gens, t.current)) == View(s.inodes, CurrentFiles(s.gens, s.current))
    ensures !t.restored && !t.pc.Restoring? ==> t.live == map[]
    ensures t.restored ==> View(t.inodes, t.live) == View(s.inodes, CurrentFiles(s.gens, s.current))
                           && t.last == Stamps(t.inodes, t.live)
    ensures !t.pc.Copying? && !t.pc.Pruning?
  {
    StructureCrash(c, s);
    QuietRun(c, Reboot(s), run, t);
    ViewSame(s.inodes, t.inodes, CurrentFiles(s.gens, s.current));
  }

  lemma StampsOfView(inodes: map<Ino, File>, files: map<Path, Ino>, others: map<Ino, File>, live: map<Path, Ino>)
    requires View(inodes, files) == View(others, live)
    ensures Stamps(inodes, files) == Stamps(others, live)
  {
    var a, b := Stamps(inodes, files), Stamps(others, live);
    assert a.Keys == View(inodes, files).Keys && b.Keys == View(others, live).Keys;
    forall p | p in a
      ensures a[p] == b[p]
    {
      assert View(inodes, files)[p] == View(others, live)[p];
    }
  }

  /** The round trip: the tree as it stood when `current` held it comes back in the next pod,
      with the same paths, contents, sizes and mtimes, so the manifest remembered there is the
      manifest of the old tree. */
  lemma RestoreReproduces(c: Config, s: State, run: seq<Step>, t: State)
    requires Structure(c, s) && Durable(s)
    requires AgentWritesNothing(run) && Run(c, Reboot(s), run) == Some(t) && t.restored
    ensures View(t.inodes, t.live) == View(s.inodes, s.live)
    ensures t.last == Stamps(s.inodes, s.live)
  {
    QuietPodWritesNothing(c, s, run, t);
    StampsOfView(t.inodes, t.live, s.inodes, s.live);
  }

  // ---- the order of restore and work ----------------------------------------------

  ghost predicate RestoredInThisPod(run: seq<Step>) {
    exists j :: 0 <= j < |run| && run[j].RestoreEnd? && forall k :: j < k < |run| ==> !run[k].Crash?
  }

  lemma RestoredOnlyByRestore(c: Config, run: seq<Step>, t: State)
    requires Run(c, EMPTY, run) == Some(t) && t.restored
    ensures RestoredInThisPod(run)
    decreases |run|
  {
    var front, a := run[..|run| - 1], run[|run| - 1];
    var u := Run(c, EMPTY, front).value;
    if a.RestoreEnd? {
      assert run[|run| - 1].RestoreEnd?;
    } else {
      RestoredStays(c, u, a, t);
      RestoredOnlyByRestore(c, front, u);
      var j :| 0 <= j < |front| && front[j].RestoreEnd? && forall k :: j < k < |front| ==> !front[k].Crash?;
      assert run[j].RestoreEnd?;
      forall k | j < k < |run|
        ensures !run[k].Crash?
      {
        assert k < |front| ==> run[k] == front[k];
      }
    }
  }

  lemma RestoredStays(c: Config, s: State, a: Step, t: State)
    requires Next(c, s, a) == Some(t) && t.restored && !a.RestoreEnd?
    ensures s.restored && !a.Crash?
  {
    if FillStep(a) {
      RestoredStaysFilling(s, a, t);
    } else if AgentStep(a) {
      RestoredStaysWriting(c, s, a, t);
    }
  }

  lemma RestoredStaysFilling(s: State, a: Step, t: State)
    requires FillStep(a) && FillNext(s, a) == Some(t)
    ensures t.restored == s.restored
  {
  }

  lemma RestoredStaysWriting(c: Config, s: State, a: Step, t: State)
    requires AgentStep(a) && AgentNext(c, s, a) == Some(t)
    ensures t.restored == s.restored
  {
  }

  /** Every hand-out of a unit comes after a restore that succeeded in the same pod. */
  lemma NoWorkBeforeRestore(c: Config, run: seq<Step>, i: nat)
    requires i < |run| && run[i].HandOut? && Run(c, EMPTY, run[..i + 1]).Some?
    ensures RestoredInThisPod(run[..i])
  {
    assert run[..i + 1][..i] == run[..i];
    RestoredOnlyByRestore(c, run[..i], Run(c, EMPTY, run[..i]).value);
  }
}
