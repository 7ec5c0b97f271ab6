/**
 What the sidecar remembers, when besides a fine clock every restore starts clean: the manifest
 remembered from the last checkpoint or restore describes files `current` holds, so a scan that
 finds nothing new finds a tree that is durable already, and so does a completion.
 */
module ContextMemory {
  import opened Wrappers
  import opened ContextMachine
  import opened ContextInvariant
  import opened ContextFidelity

  /** The remembered manifest: an entry still true of the live tree is in `current`, and once a
      restore happened `current` has no other file. */
  ghost predicate Remembered(s: State) {
    var files := CurrentFiles(s.gens, s.current);
    Remembers(s.inodes, s.live, files, s.last) && (s.restored ==> files.Keys <= s.last.Keys)
  }

  ghost predicate RestoringOk(s: State)
    requires s.pc.Restoring?
  {
    var files := CurrentFiles(s.gens, s.current);
    && s.live.Keys <= files.Keys
    && (forall p :: p in files && p !in s.pc.left ==>
          p in s.live && s.live[p] in s.inodes && files[p] in s.inodes
          && s.inodes[s.live[p]] == s.inodes[files[p]])
  }

  ghost predicate JobMemory(s: State) {
    match s.pc
    case Idle => Remembered(s)
    case Restoring(_) => RestoringOk(s)
    case Scanning(_, _, _) => Remembered(s)
    case Copying(_, _, _, _, _, _, _, _) => Remembered(s)
    case Pruning(_, _, _) => true
  }

  /** A completion about to be forwarded without error: the tree is in `current`, and nothing has
      begun that could move either. */
  ghost predicate ReadyMemory(s: State) {
    s.phase == Reporting(Ready(true)) ==>
      && Durable(s) && s.last == Stamps(s.inodes, s.live)
      && (s.pc.Idle? || (s.pc.Scanning? && s.calm))
  }

  ghost predicate Memory(s: State) {
    JobMemory(s) && ReadyMemory(s)
  }

  ghost predicate Recalls(c: Config, s: State) {
    c.cleanStart && Kept(c, s) && Memory(s)
  }

  // ---- the agent, the work contract and restore -----------------------------------

  lemma MemoryAgent(c: Config, s: State, a: Step, t: State)
    requires Recalls(c, s) && AgentStep(a) && AgentNext(c, s, a) == Some(t)
    ensures Memory(t)
  {
    AgentIsFree(c, s, a, t);
    AgentIsFresh(c, s, a, t);
    if !s.pc.Pruning? {
      MemoryFresh(s, t);
    }
  }

  lemma MemoryFresh(s: State, t: State)
    requires Volume(s) && FreshChange(s, t) && Known(s.last, s.ver) && Remembered(s)
    ensures Remembered(t)
  {
    CurrentUntouched(s, t);
    FreshKeepsRemembers(s, t, CurrentFiles(s.gens, s.current), s.last);
  }

  lemma MemoryFlags(s: State, t: State)
    requires Memory(s)
    requires t == s.(phase := t.phase, inflight := t.inflight, handed := t.handed)
    requires t.phase == Reporting(Ready(true)) ==> s.phase == Reporting(Ready(true))
    ensures Memory(t)
  {
  }

  lemma MemoryContract(c: Config, s: State, a: Step, t: State)
    requires Recalls(c, s) && ContractStep(a) && ContractNext(s, a) == Some(t)
    ensures Memory(t)
  {
    ContractFlags(s, a, t);
    MemoryFlags(s, t);
  }

  lemma MemoryRestoreBegin(c: Config, s: State, t: State)
    requires Recalls(c, s) && RestoreBeginNext(c, s) == Some(t)
    ensures Memory(t)
  {
    forall p | p in CurrentFiles(s.gens, s.current)
      ensures !IsMeta(p)
    {
      assert NoMeta(s.gens[s.current.value].files.Keys);
    }
  }

  lemma RestoringGoesOn(s: State, p: Path, ino: Ino, t: State, files: map<Path, Ino>)
    requires files == CurrentFiles(s.gens, s.current) && Closed(s.inodes, files) && Disjoint(s.live, files)
    requires Injective(s.live) && Closed(s.inodes, s.live)
    requires s.pc.Restoring? && RestoringOk(s) && RestoreFileNext(s, p, ino) == Some(t)
    ensures RestoringOk(t) && SameOn(s.inodes, t.inodes, files)
  {
  }

  lemma MemoryRestoreFile(c: Config, s: State, p: Path, ino: Ino, t: State)
    requires Recalls(c, s) && RestoreFileNext(s, p, ino) == Some(t)
    ensures Memory(t)
  {
    CurrentClosed(s);
    RestoringGoesOn(s, p, ino, t, CurrentFiles(s.gens, s.current));
  }

  /** A restore that is over, begun in a clean tree, leaves the tree `current` holds. */
  lemma RestoredTree(s: State)
    requires Closed(s.inodes, s.live) && Closed(s.inodes, CurrentFiles(s.gens, s.current))
    requires s.pc == Restoring({}) && RestoringOk(s)
    ensures Durable(s)
  {
    var files := CurrentFiles(s.gens, s.current);
    assert files.Keys == s.live.Keys;
  }

  lemma MemoryRestoreEnd(c: Config, s: State, t: State)
    requires Recalls(c, s) && RestoreEndNext(s) == Some(t)
    ensures Memory(t) && Durable(t)
  {
    CurrentClosed(s);
    RestoredTree(s);
    DurableRemembered(s, t);
  }

  lemma DurableRemembered(s: State, t: State)
    requires Durable(s) && HeldLive(s.inodes, s.live, s.ver)
    requires t == s.(pc := Idle, restored := true, last := Stamps(s.inodes, s.live))
    ensures Remembered(t)
  {
    var files := CurrentFiles(s.gens, s.current);
    assert View(s.inodes, files).Keys == files.Keys && View(s.inodes, s.live).Keys == s.live.Keys;
    forall p | p in s.live
      ensures p in files && s.inodes[files[p]] == s.inodes[s.live[p]]
    {
      assert View(s.inodes, files)[p] == View(s.inodes, s.live)[p];
    }
  }

  lemma MemoryRestore(c: Config, s: State, a: Step, t: State)
    requires Recalls(c, s) && RestoreStep(a) && RestoreNext(c, s, a) == Some(t)
    ensures Memory(t)
  {
    match a
    case RestoreBegin => MemoryRestoreBegin(c, s, t);
    case RestoreFile(p, ino) => MemoryRestoreFile(c, s, p, ino, t);
    case RestoreEnd => MemoryRestoreEnd(c, s, t);
  }

  // ---- a checkpoint ---------------------------------------------------------------

  lemma MemorySkip(c: Config, s: State, t: State)
    requires Recalls(c, s) && SkipNext(s) == Some(t)
    ensures Memory(t)
  {
    if s.pc.job == WorkDone {
      ExactScanIsStamps(s);
      RememberedIsDurable(s, CurrentFiles(s.gens, s.current), s.last);
    }
  }

  /** Ready to forward, and scanning: the scan will find what is remembered. */
  lemma ReadyFindsNothing(c: Config, s: State)
    requires Recalls(c, s) && s.pc.Scanning? && s.pc.todo == {} && s.pc.seen != s.last
    ensures s.phase != Reporting(Ready(true))
  {
    if s.phase == Reporting(Ready(true)) {
      ExactScanIsStamps(s);
    }
  }

  lemma MemoryBegin(c: Config, s: State, t: State)
    requires Recalls(c, s) && BeginNext(s) == Some(t)
    ensures Memory(t)
  {
    BeginsNext(s, t);
    BegunKeepsRest(c, s, t);
    ReadyFindsNothing(c, s);
  }

  lemma MemoryScan(c: Config, s: State, a: Step, t: State)
    requires Recalls(c, s) && ScanStep(a) && ScanNext(s, a) == Some(t)
    ensures Memory(t)
  {
    if a.Begin? {
      MemoryBegin(c, s, t);
    } else if a.Skip? {
      MemorySkip(c, s, t);
    }
  }

  lemma MemoryAside(s: State, t: State)
    requires Memory(s) && s.pc.Copying? && t.pc.Copying? && Aside(s, t)
    ensures Memory(t)
  {
  }

  lemma VanishAside(s: State, p: Path, t: State)
    requires Volume(s) && VanishNext(s, p) == Some(t)
    ensures Aside(s, t) && s.pc.Copying? && t.pc.Copying?
  {
    CurrentClosed(s);
  }

  lemma ReadAside(c: Config, s: State, n: nat, now: int, t: State)
    requires Structure(c, s) && ReadNext(s, n, now) == Some(t)
    ensures Aside(s, t) && s.pc.Copying? && t.pc.Copying?
  {
    DstAside(c, s, t.inodes[s.pc.fd.value.dst], t);
  }

  lemma CloseAside(c: Config, s: State, t: State)
    requires Structure(c, s) && CloseNext(s) == Some(t)
    ensures Aside(s, t) && s.pc.Copying? && t.pc.Copying?
  {
    DstAside(c, s, t.inodes[s.pc.fd.value.dst], t);
  }

  lemma FillAside(c: Config, s: State, a: Step, t: State)
    requires Structure(c, s) && FillStep(a) && FillNext(s, a) == Some(t)
    ensures Aside(s, t) && s.pc.Copying? && t.pc.Copying?
  {
    match a
    case Link(p) => LinkAside(c, s, p, t);
    case Open(p, dst, now) => OpenAside(c, s, p, dst, now, t);
    case Vanish(p) => VanishAside(s, p, t);
    case Read(n, now) => ReadAside(c, s, n, now, t);
    case Close => CloseAside(c, s, t);
  }

  lemma MemoryCommit(c: Config, s: State, a: Step, t: State)
    requires Recalls(c, s) && CommitStep(a) && CommitNext(c, s, a) == Some(t)
    ensures Memory(t)
  {
    match a
    case WriteMeta =>
      WriteMetaAside(s, t);
      MemoryAside(s, t);
    case Symlink =>
      CurrentClosed(s);
      MemoryAside(s, t);
    case Rename =>
  }

  lemma MemoryFinish(c: Config, s: State, t: State)
    requires Recalls(c, s) && FinishNext(s) == Some(t)
    ensures Memory(t)
  {
    FidelityFinish(c, s, t);
  }

  lemma MemoryAbort(c: Config, s: State, t: State)
    requires Recalls(c, s) && AbortNext(s) == Some(t)
    ensures Memory(t)
  {
  }

  // ---- every step, every run ------------------------------------------------------

  lemma MemoryStep(c: Config, s: State, a: Step, t: State)
    requires Recalls(c, s) && Next(c, s, a) == Some(t)
    ensures Memory(t)
  {
    if AgentStep(a) {
      MemoryAgent(c, s, a, t);
    } else if ContractStep(a) {
      MemoryContract(c, s, a, t);
    } else if RestoreStep(a) {
      MemoryRestore(c, s, a, t);
    } else if ScanStep(a) {
      MemoryScan(c, s, a, t);
    } else if FillStep(a) {
      FillAside(c, s, a, t);
      MemoryAside(s, t);
    } else if CommitStep(a) {
      MemoryCommit(c, s, a, t);
    } else if PruneStep(a) {
      PruneSparesCurrent(c, s, a, t);
    } else if a.Finish? {
      MemoryFinish(c, s, t);
    } else if a.Abort? {
      MemoryAbort(c, s, t);
    }
  }

  lemma RecallsRun(c: Config, s: State, run: seq<Step>, t: State)
    requires Recalls(c, s) && Run(c, s, run) == Some(t)
    ensures Recalls(c, t)
    decreases |run|
  {
    if run != [] {
      var u := Run(c, s, run[..|run| - 1]).value;
      RecallsRun(c, s, run[..|run| - 1], u);
      KeptStep(c, u, run[|run| - 1], t);
      MemoryStep(c, u, run[|run| - 1], t);
    }
  }
}
