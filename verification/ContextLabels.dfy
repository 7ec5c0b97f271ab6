/**
 The quiesced label of a generation: what it promises, and exactly when it is true. A generation
 is torn when a file of it does not hold what its live path held under the mtime it carries.
 */
module ContextLabels {
  import opened Wrappers
  import opened ContextMachine
  import opened ContextInvariant
  import opened ContextFidelity
  import opened ContextTheorems
  import opened ContextRestore

  // ---- a copy at a work boundary --------------------------------------------------

  /** From the completion mark to the end of its checkpoint no unit counts as inflight. */
  ghost predicate Labelled(s: State) {
    && (s.phase == Reporting(Marked) || s.phase == Reporting(Running) ==> !s.inflight)
    && (s.pc.Scanning? && s.pc.job == WorkDone ==> s.phase == Reporting(Running))
    && (s.pc.Copying? && s.pc.job == WorkDone ==> s.phase == Reporting(Running) && s.pc.quiesced)
    && (s.pc.Pruning? && s.pc.job == WorkDone ==> s.phase == Reporting(Running))
  }

  lemma LabelledStep(c: Config, s: State, a: Step, t: State)
    requires Labelled(s) && Next(c, s, a) == Some(t)
    ensures Labelled(t)
  {
    if AgentStep(a) {
      LabelledAgent(c, s, a, t);
    } else if ContractStep(a) || RestoreStep(a) {
      LabelledProxy(c, s, a, t);
    } else if ScanStep(a) {
      LabelledScan(s, a, t);
    } else if FillStep(a) {
      LabelledFill(s, a, t);
    } else {
      LabelledCommit(c, s, a, t);
    }
  }

  lemma LabelledAgent(c: Config, s: State, a: Step, t: State)
    requires Labelled(s) && AgentStep(a) && AgentNext(c, s, a) == Some(t)
    ensures Labelled(t)
  {
  }

  lemma LabelledProxy(c: Config, s: State, a: Step, t: State)
    requires Labelled(s) && (ContractStep(a) || RestoreStep(a)) && Next(c, s, a) == Some(t)
    ensures Labelled(t)
  {
  }

  lemma LabelledScan(s: State, a: Step, t: State)
    requires Labelled(s) && ScanStep(a) && ScanNext(s, a) == Some(t)
    ensures Labelled(t)
  {
  }

  lemma LabelledFill(s: State, a: Step, t: State)
    requires Labelled(s) && FillStep(a) && FillNext(s, a) == Some(t)
    ensures Labelled(t)
  {
  }

  lemma LabelledCommit(c: Config, s: State, a: Step, t: State)
    requires Labelled(s) && !AgentStep(a) && !ContractStep(a) && !RestoreStep(a) && !ScanStep(a) && !FillStep(a)
    requires Next(c, s, a) == Some(t)
    ensures Labelled(t)
  {
  }

  lemma LabelledRun(c: Config, run: seq<Step>, t: State)
    requires Run(c, EMPTY, run) == Some(t)
    ensures Labelled(t)
    decreases |run|
  {
    if run != [] {
      var u := Run(c, EMPTY, run[..|run| - 1]).value;
      LabelledRun(c, run[..|run| - 1], u);
      LabelledStep(c, u, run[|run| - 1], t);
    }
  }

  /** A generation taken at a work boundary says so. Under a fine clock it then holds the tree as
      the finished run left it, file for file, and its manifest is that of the tree. */
  lemma BoundaryCopiesAreLabelled(c: Config, s: State, t: State)
    requires Reaches(c, s) && s.pc.Copying? && s.pc.job == WorkDone && WriteMetaNext(s) == Some(t)
    ensures t.gens[s.pc.next].meta == Some(Meta(|s.pc.m|, s.pc.written, true))
    ensures c.fine ==> s.calm && s.pc.m == Stamps(s.inodes, s.live)
    ensures c.fine ==> View(s.inodes, s.gens[s.pc.next].files) == View(s.inodes, s.live)
  {
    var run :| Run(c, EMPTY, run) == Some(s);
    LabelledRun(c, run, s);
    if c.fine {
      ReachedKept(c, s);
      FilledIsTree(c, s);
    }
  }

  lemma FilledIsTree(c: Config, s: State)
    requires Kept(c, s) && s.pc.Copying? && s.pc.todo == {} && s.pc.fd == None && s.calm
    ensures s.pc.next in s.gens && View(s.inodes, s.gens[s.pc.next].files) == View(s.inodes, s.live)
  {
    assert s.pc.m - s.pc.todo == s.pc.m;
    FilledFiles(c, s);
    ManifestIsTree(s.inodes, s.live, s.gens[s.pc.next].files, s.pc.m, s.ver);
  }

  lemma FilledFiles(c: Config, s: State)
    requires Kept(c, s) && s.pc.Copying? && s.pc.fd == None && s.pc.m - s.pc.todo == s.pc.m
    ensures s.pc.next in s.gens && s.gens[s.pc.next].files.Keys <= s.pc.m.Keys
    ensures Closed(s.inodes, s.live) && Faithful(s.inodes, s.live, s.gens[s.pc.next].files, s.ver)
    ensures Remembers(s.inodes, s.live, s.gens[s.pc.next].files, s.pc.m)
  {
  }

  // ---- a copy nothing disturbs ----------------------------------------------------

  /** The copy in progress: its source is the live file, as it was opened. */
  ghost predicate FdStill(fd: Fd, inodes: map<Ino, File>, live: map<Path, Ino>) {
    && fd.path in live && live[fd.path] == fd.src && fd.src in inodes && fd.dst in inodes
    && inodes[fd.src].mtime == fd.mtime && fd.off <= |inodes[fd.src].data|
    && inodes[fd.dst].data == inodes[fd.src].data[..fd.off]
  }

  ghost predicate FilledStill(inodes: map<Ino, File>, live: map<Path, Ino>, next: map<Path, Ino>, fd: Option<Fd>,
                              ver: map<(Path, int), Bytes>) {
    && HeldLive(inodes, WithoutFd(next, fd), ver)
    && (fd.Some? ==> FdStill(fd.value, inodes, live))
  }

  /** A generation that will be labelled quiesced holds no torn file so far. */
  ghost predicate Still(s: State) {
    s.pc.Copying? && s.pc.quiesced ==>
      s.pc.next in s.gens && FilledStill(s.inodes, s.live, s.gens[s.pc.next].files, s.pc.fd, s.ver)
  }

  lemma StillLink(c: Config, s: State, p: Path, t: State)
    requires Kept(c, s) && Still(s) && LinkNext(s, p) == Some(t)
    ensures Still(t)
  {
    var cur := CurrentFiles(s.gens, s.current);
    AddFileKeys(s.gens, s.pc.next, p, cur[p]);
    LinkHeld(c, s, p, t);
    if s.pc.quiesced {
      assert WithoutFd(s.gens[s.pc.next].files, None) == s.gens[s.pc.next].files;
    }
  }

  lemma LinkHeld(c: Config, s: State, p: Path, t: State)
    requires Kept(c, s) && LinkNext(s, p) == Some(t)
    ensures SharesWhatWasLive(s, p)
    ensures s.inodes[CurrentFiles(s.gens, s.current)[p]].mtime == s.pc.m[p].mtime
  {
  }

  lemma OpenedStill(inodes: map<Ino, File>, live: map<Path, Ino>, next: map<Path, Ino>, p: Path, dst: Ino, now: int,
                    ver: map<(Path, int), Bytes>)
    requires HeldLive(inodes, next, ver) && dst !in inodes && p in live && live[p] in inodes
    ensures FilledStill(inodes[dst := File([], now)], live, next[p := dst],
                        Some(Fd(p, live[p], inodes[live[p]].mtime, dst, 0)), ver)
  {
    assert WithoutFd(next[p := dst], Some(Fd(p, live[p], inodes[live[p]].mtime, dst, 0))) == next - {p};
  }

  lemma StillOpen(c: Config, s: State, p: Path, dst: Ino, now: int, t: State)
    requires Still(s) && OpenNext(s, p, dst, now) == Some(t)
    ensures Still(t)
  {
    AddFileKeys(s.gens, s.pc.next, p, dst);
    if s.pc.quiesced {
      assert WithoutFd(s.gens[s.pc.next].files, None) == s.gens[s.pc.next].files;
      OpenedStill(s.inodes, s.live, s.gens[s.pc.next].files, p, dst, now, s.ver);
    }
  }

  lemma ReadStill(inodes: map<Ino, File>, live: map<Path, Ino>, next: map<Path, Ino>, fd: Fd,
                  ver: map<(Path, int), Bytes>, n: nat, now: int)
    requires FilledStill(inodes, live, next, Some(fd), ver) && OnlyAt(next, fd.dst, fd.path) && fd.src != fd.dst
    requires fd.off + n <= |inodes[fd.src].data|
    ensures var chunk := inodes[fd.src].data[fd.off..fd.off + n];
            FilledStill(inodes[fd.dst := File(inodes[fd.dst].data + chunk, now)], live, next,
                        Some(fd.(off := fd.off + n)), ver)
  {
    var src := inodes[fd.src].data;
    assert src[..fd.off] + src[fd.off..fd.off + n] == src[..fd.off + n];
  }

  lemma StillRead(c: Config, s: State, n: nat, now: int, t: State)
    requires Structure(c, s) && Still(s) && ReadNext(s, n, now) == Some(t)
    ensures Still(t)
  {
    DstIsApart(c, s);
    if s.pc.quiesced {
      ReadStill(s.inodes, s.live, s.gens[s.pc.next].files, s.pc.fd.value, s.ver, n, now);
    }
  }

  lemma ClosedStill(inodes: map<Ino, File>, live: map<Path, Ino>, next: map<Path, Ino>, fd: Fd,
                    ver: map<(Path, int), Bytes>)
    requires FilledStill(inodes, live, next, Some(fd), ver) && OnlyAt(next, fd.dst, fd.path) && fd.src != fd.dst
    requires HeldLive(inodes, live, ver) && fd.path in next && next[fd.path] == fd.dst
    requires fd.off >= |inodes[fd.src].data|
    ensures FilledStill(inodes[fd.dst := File(inodes[fd.dst].data, fd.mtime)], live, next, None, ver)
  {
    assert inodes[fd.src].data[..fd.off] == inodes[fd.src].data;
    var others := WithoutFd(next, Some(fd));
    forall p | p in next && p != fd.path
      ensures p in others && others[p] == next[p] && next[p] != fd.dst
    {
    }
  }

  lemma StillClose(c: Config, s: State, t: State)
    requires Structure(c, s) && HeldLive(s.inodes, s.live, s.ver) && Still(s) && CloseNext(s) == Some(t)
    ensures Still(t)
  {
    DstIsApart(c, s);
    if s.pc.quiesced {
      ClosedStill(s.inodes, s.live, s.gens[s.pc.next].files, s.pc.fd.value, s.ver);
    }
  }

  lemma StillFill(c: Config, s: State, a: Step, t: State)
    requires Kept(c, s) && Still(s) && FillStep(a) && FillNext(s, a) == Some(t)
    ensures Still(t)
  {
    match a
    case Link(p) => StillLink(c, s, p, t);
    case Open(p, dst, now) => StillOpen(c, s, p, dst, now, t);
    case Vanish(p) =>
    case Read(n, now) => StillRead(c, s, n, now, t);
    case Close => StillClose(c, s, t);
  }

  lemma StillBegin(s: State, t: State)
    requires BeginNext(s) == Some(t)
    ensures Still(t)
  {
    assert WithoutFd(map[], None) == map[];
    assert t.pc.next in t.gens && t.gens[t.pc.next].files == map[];
  }

  lemma StillAgent(c: Config, s: State, a: Step, t: State)
    requires c.still && AgentStep(a) && AgentNext(c, s, a) == Some(t)
    ensures Still(t)
  {
  }

  lemma StillContract(s: State, a: Step, t: State)
    requires Still(s) && ContractStep(a) && ContractNext(s, a) == Some(t)
    ensures Still(t)
  {
  }

  lemma StillRestore(c: Config, s: State, a: Step, t: State)
    requires RestoreStep(a) && RestoreNext(c, s, a) == Some(t)
    ensures Still(t)
  {
  }

  lemma StillScan(s: State, a: Step, t: State)
    requires ScanStep(a) && ScanNext(s, a) == Some(t)
    ensures Still(t)
  {
    if a.Begin? {
      StillBegin(s, t);
    }
  }

  lemma StillCommit(c: Config, s: State, a: Step, t: State)
    requires Still(s) && !AgentStep(a) && !ContractStep(a) && !RestoreStep(a) && !ScanStep(a) && !FillStep(a)
    requires Next(c, s, a) == Some(t)
    ensures Still(t)
  {
  }

  lemma StillStep(c: Config, s: State, a: Step, t: State)
    requires c.still && Kept(c, s) && Still(s) && Next(c, s, a) == Some(t)
    ensures Still(t)
  {
    if AgentStep(a) {
      StillAgent(c, s, a, t);
    } else if ContractStep(a) {
      StillContract(s, a, t);
    } else if RestoreStep(a) {
      StillRestore(c, s, a, t);
    } else if ScanStep(a) {
      StillScan(s, a, t);
    } else if FillStep(a) {
      StillFill(c, s, a, t);
    } else {
      StillCommit(c, s, a, t);
    }
  }

  lemma StillRun(c: Config, run: seq<Step>, t: State)
    requires c.fine && c.still && Run(c, EMPTY, run) == Some(t)
    ensures Kept(c, t) && Still(t)
    decreases |run|
  {
    if run != [] {
      var u := Run(c, EMPTY, run[..|run| - 1]).value;
      StillRun(c, run[..|run| - 1], u);
      KeptStep(c, u, run[|run| - 1], t);
      StillStep(c, u, run[|run| - 1], t);
    }
  }

  // ---- where the label goes wrong -------------------------------------------------

  /** The step at which a generation is finished and its quiesced label written. */
  ghost predicate SealsLabelled(s: State) {
    s.pc.Copying? && s.pc.quiesced && s.pc.next in s.gens && WriteMetaNext(s).Some?
  }

  lemma FirstUnitDone(c: Config, reach: State -> bool) returns (s: State)
    requires Inductive(c, reach)
    ensures reach(s) && s == WORKING.(inflight := false, calm := true)
  {
    WorkingIsReached(c, reach);
    s := Contract(c, reach, WORKING, Report);
    s := Contract(c, reach, s, MarkDone);
    s := Scan(c, reach, s, Start(WorkDone));
    assert s.pc.todo == {};
    s := Scan(c, reach, s, Skip);
    s := Contract(c, reach, s, Forward);
  }

  lemma LabelledTooEarly(c: Config, reach: State -> bool) returns (s: State)
    requires Inductive(c, reach)
    ensures reach(s) && s.phase == Free && s.restored && s.live == map[FILE := 1]
    ensures s.inodes == map[1 := File(OLD, 5)] && s.ver == map[(FILE, 5) := OLD]
    ensures s.gens == map[1 := Gen(map[], None)] && s.current == None && s.pairs == {(FILE, Stamp(1, 5))}
    ensures s.pc == Copying(Interval, map[FILE := Stamp(1, 5)], 1, {FILE}, None, true, 0, Files)
  {
    s := FirstUnitDone(c, reach);
    s := FileIsWritten(c, reach, s);
    s := FileIsScanned(c, reach, s);
  }

  /** An interval checkpoint asks whether a unit is inflight before it copies: a unit handed out
      after that question tears a file, and the generation is about to be labelled quiesced. */
  lemma HandedOutTooEarly(c: Config, reach: State -> bool) returns (s: State)
    requires Inductive(c, reach)
    ensures reach(s) && s.phase == Free && s.live == map[FILE := 1] && s.current == None
    ensures s.inodes == map[1 := File(OLD, 5), 2 := File(OLD, 0)] && s.ver == map[(FILE, 5) := OLD]
    ensures s.gens == map[1 := Gen(map[FILE := 2], None)] && s.pairs == {(FILE, Stamp(1, 5))}
    ensures s.pc == Copying(Interval, map[FILE := Stamp(1, 5)], 1, {FILE}, Some(Fd(FILE, 1, 5, 2, 1)), true, 0, Files)
  {
    s := LabelledTooEarly(c, reach);
    s := Contract(c, reach, s, Ask);
    s := Contract(c, reach, s, HandOut);
    s := Fill(c, reach, s, Open(FILE, 2, 0));
    s := Fill(c, reach, s, Read(1, 0));
    assert s.inodes[2].data == OLD;
  }

  lemma TornIsSealed(c: Config, reach: State -> bool) returns (s: State)
    requires Inductive(c, reach) && !c.still
    ensures reach(s) && SealsLabelled(s) && s.current == None && s.live == map[FILE := 1]
    ensures s.inodes == map[1 := File(NEW, 6), 2 := File(MIX, 5)] && s.gens == map[1 := Gen(map[FILE := 2], None)]
    ensures s.ver == map[(FILE, 5) := OLD, (FILE, 6) := NEW]
    ensures s.pc == Copying(Interval, map[FILE := Stamp(1, 5)], 1, {}, None, true, 2, Files)
  {
    s := HandedOutTooEarly(c, reach);
    s := Agent(c, reach, s, Write(FILE, NEW, 6));
    s := TornIsClosed(c, reach, s, 6, true);
  }

  /** The generation is labelled quiesced, and holds a file that is partly what the agent wrote
      before and partly what it wrote after the question. */
  lemma IntervalLabelCanLie(c: Config, reach: State -> bool) returns (s: State)
    requires Inductive(c, reach) && !c.still
    ensures reach(s) && s.current == Some(1) && 1 in s.gens
    ensures s.gens[1].meta == Some(Meta(1, 2, true)) && s.gens[1].files == map[FILE := 2]
    ensures s.inodes == map[1 := File(NEW, 6), 2 := File(MIX, 5)] && s.live == map[FILE := 1]
    ensures s.ver == map[(FILE, 5) := OLD, (FILE, 6) := NEW]
  {
    s := TornIsSealed(c, reach);
    s := Commit(c, reach, s);
  }

  lemma TornIsNotHeld(s: State, files: map<Path, Ino>)
    requires files == map[FILE := 2] && 2 in s.inodes && s.inodes[2] == File(MIX, 5)
    requires (FILE, 5) in s.ver && s.ver[(FILE, 5)] != MIX
    ensures !HeldLive(s.inodes, files, s.ver)
  {
    assert FILE in files;
  }

  /** No generation is labelled quiesced with a torn file in it. */
  ghost predicate LabelsTrue(c: Config) {
    forall s :: Reaches(c, s) && SealsLabelled(s) ==> HeldLive(s.inodes, s.gens[s.pc.next].files, s.ver)
  }

  lemma StillLabelsTrue(c: Config, s: State)
    requires c.fine && c.still && Reaches(c, s) && SealsLabelled(s)
    ensures HeldLive(s.inodes, s.gens[s.pc.next].files, s.ver)
  {
    var run :| Run(c, EMPTY, run) == Some(s);
    StillRun(c, run, s);
    assert WithoutFd(s.gens[s.pc.next].files, None) == s.gens[s.pc.next].files;
  }

  lemma SomeLabelLies(c: Config, reach: State -> bool) returns (s: State)
    requires Inductive(c, reach) && !(c.fine && c.still)
    ensures reach(s) && SealsLabelled(s) && !HeldLive(s.inodes, s.gens[s.pc.next].files, s.ver)
  {
    if !c.still {
      s := TornIsSealed(c, reach);
      assert OLD[0] != MIX[0] || |OLD| != |MIX|;
    } else {
      s := TornCopyIsLinked(c, reach);
      assert NEW[0] != MIX[0];
    }
    TornIsNotHeld(s, s.gens[s.pc.next].files);
  }

  /** The quiesced label is true of every generation in every run exactly when no change of a live
      file repeats an mtime its path had, and the agent takes no step, with or without a unit in
      hand, while a generation that will be labelled is filling. */
  lemma LabelTrueExactlyWhen(c: Config)
    ensures LabelsTrue(c) <==> c.fine && c.still
  {
    if c.fine && c.still {
      forall s | Reaches(c, s) && SealsLabelled(s)
        ensures HeldLive(s.inodes, s.gens[s.pc.next].files, s.ver)
      {
        StillLabelsTrue(c, s);
      }
    } else {
      ReachesIsInductive(c);
      var s := SomeLabelLies(c, u => Reaches(c, u));
      assert Reaches(c, s);
    }
  }

  // ---- every labelled generation was sealed so ------------------------------------

  /** Generation g was sealed, with its label, by step i of the run, holding these files. */
  ghost predicate SealedAt(c: Config, run: seq<Step>, i: nat, g: nat, files: map<Path, File>) {
    i < |run| && run[i].WriteMeta?
    && var before := Run(c, EMPTY, run[..i]);
       before.Some? && SealsLabelled(before.value) && before.value.pc.next == g
       && View(before.value.inodes, before.value.gens[g].files) == files
  }

  /** A label is there. */
  ghost predicate HasLabel(gens: map<nat, Gen>, g: nat) {
    g in gens && gens[g].meta.Some? && gens[g].meta.value.quiesced
  }

  lemma ScanLabelsNothing(s: State, a: Step, t: State, g: nat)
    requires ScanStep(a) && ScanNext(s, a) == Some(t) && HasLabel(t.gens, g)
    ensures HasLabel(s.gens, g)
  {
  }

  lemma FillLabelsNothing(s: State, a: Step, t: State, g: nat)
    requires FillStep(a) && FillNext(s, a) == Some(t) && HasLabel(t.gens, g)
    ensures HasLabel(s.gens, g)
  {
  }

  lemma AgentLabelsNothing(c: Config, s: State, a: Step, t: State)
    requires AgentStep(a) && AgentNext(c, s, a) == Some(t)
    ensures t.gens == s.gens
  {
  }

  lemma ContractLabelsNothing(s: State, a: Step, t: State)
    requires ContractStep(a) && ContractNext(s, a) == Some(t)
    ensures t.gens == s.gens
  {
  }

  lemma RestoreLabelsNothing(c: Config, s: State, a: Step, t: State)
    requires RestoreStep(a) && RestoreNext(c, s, a) == Some(t)
    ensures t.gens == s.gens
  {
  }

  lemma EndLabelsNothing(c: Config, s: State, a: Step, t: State)
    requires (a.Finish? || a.Abort? || a.Crash?) && Next(c, s, a) == Some(t)
    ensures t.gens == s.gens
  {
  }

  lemma PruneLabelsNothing(s: State, a: Step, t: State, g: nat)
    requires PruneStep(a) && PruneNext(s, a) == Some(t) && HasLabel(t.gens, g)
    ensures HasLabel(s.gens, g)
  {
  }

  lemma RestLabelsNothing(c: Config, s: State, a: Step, t: State, g: nat)
    requires !ScanStep(a) && !FillStep(a) && !CommitStep(a) && Next(c, s, a) == Some(t) && HasLabel(t.gens, g)
    ensures HasLabel(s.gens, g)
  {
    if AgentStep(a) {
      AgentLabelsNothing(c, s, a, t);
    } else if ContractStep(a) {
      ContractLabelsNothing(s, a, t);
    } else if RestoreStep(a) {
      RestoreLabelsNothing(c, s, a, t);
    } else if PruneStep(a) {
      PruneLabelsNothing(s, a, t, g);
    } else {
      EndLabelsNothing(c, s, a, t);
    }
  }

  lemma CommitLabels(c: Config, s: State, a: Step, t: State, g: nat)
    requires CommitStep(a) && CommitNext(c, s, a) == Some(t) && HasLabel(t.gens, g) && !HasLabel(s.gens, g)
    ensures WriteMetaNext(s) == Some(t) && a.WriteMeta?
  {
  }

  lemma JobLabelsNothing(s: State, a: Step, t: State, g: nat)
    requires (ScanStep(a) && ScanNext(s, a) == Some(t)) || (FillStep(a) && FillNext(s, a) == Some(t))
    requires HasLabel(t.gens, g)
    ensures HasLabel(s.gens, g)
  {
    if ScanStep(a) {
      ScanLabelsNothing(s, a, t, g);
    } else {
      FillLabelsNothing(s, a, t, g);
    }
  }

  lemma OnlyCommitLabels(c: Config, s: State, a: Step, t: State, g: nat)
    requires Next(c, s, a) == Some(t) && !CommitStep(a) && HasLabel(t.gens, g)
    ensures HasLabel(s.gens, g)
  {
    if ScanStep(a) || FillStep(a) {
      JobLabelsNothing(s, a, t, g);
    } else {
      RestLabelsNothing(c, s, a, t, g);
    }
  }

  lemma LabelIsNew(c: Config, s: State, a: Step, t: State, g: nat)
    requires Next(c, s, a) == Some(t) && HasLabel(t.gens, g) && !HasLabel(s.gens, g)
    ensures WriteMetaNext(s) == Some(t) && a.WriteMeta?
  {
    if CommitStep(a) {
      CommitLabels(c, s, a, t, g);
    } else {
      OnlyCommitLabels(c, s, a, t, g);
    }
  }

  lemma MetaLabels(s: State, t: State, g: nat)
    requires WriteMetaNext(s) == Some(t) && HasLabel(t.gens, g) && !HasLabel(s.gens, g)
    ensures SealsLabelled(s) && g == s.pc.next
    ensures g in t.sealed && t.sealed[g] == View(s.inodes, s.gens[g].files)
  {
  }

  lemma ShapedGrows(c: Config, s: State, a: Step, t: State)
    requires Structure(c, s) && Next(c, s, a) == Some(t)
    ensures Grows(s, t)
  {
    StepGrows(c, s, a, t);
  }

  lemma SealStays(c: Config, run: seq<Step>, u: State, s: State, g: nat)
    requires run != [] && Run(c, EMPTY, run[..|run| - 1]) == Some(u) && Run(c, EMPTY, run) == Some(s) && g in u.sealed
    ensures g in s.sealed && s.sealed[g] == u.sealed[g]
  {
    StructureRun(c, EMPTY, run[..|run| - 1], u);
    ShapedGrows(c, u, run[|run| - 1], s);
  }

  lemma SealedEarlier(c: Config, run: seq<Step>, i: nat, g: nat, files: map<Path, File>)
    requires run != [] && SealedAt(c, run[..|run| - 1], i, g, files)
    ensures SealedAt(c, run, i, g, files)
  {
    assert run[..i] == run[..|run| - 1][..i];
  }

  lemma SealedLast(c: Config, run: seq<Step>, u: State, s: State, g: nat)
    requires run != [] && Run(c, EMPTY, run[..|run| - 1]) == Some(u) && Next(c, u, run[|run| - 1]) == Some(s)
    requires HasLabel(s.gens, g) && !HasLabel(u.gens, g)
    ensures g in s.sealed && SealedAt(c, run, |run| - 1, g, s.sealed[g])
  {
    LabelIsNew(c, u, run[|run| - 1], s, g);
    MetaLabels(u, s, g);
  }

  lemma LabelOrigin(c: Config, run: seq<Step>, s: State, g: nat) returns (i: nat)
    requires Run(c, EMPTY, run) == Some(s) && HasLabel(s.gens, g)
    ensures g in s.sealed && SealedAt(c, run, i, g, s.sealed[g])
    decreases |run|
  {
    var u := Run(c, EMPTY, run[..|run| - 1]).value;
    if HasLabel(u.gens, g) {
      i := LabelOrigin(c, run[..|run| - 1], u, g);
      SealStays(c, run, u, s, g);
      SealedEarlier(c, run, i, g, u.sealed[g]);
    } else {
      SealedLast(c, run, u, s, g);
      i := |run| - 1;
    }
  }

  /** A generation that says it is quiesced, wherever a run has come to since: it holds what it
      held when the label was written, and then no file of it was torn. */
  lemma LabelledIsUntorn(c: Config, s: State, g: nat) returns (u: State)
    requires c.fine && c.still && Reaches(c, s) && HasLabel(s.gens, g) && g !in s.doomed
    ensures Reaches(c, u) && g in u.gens && HeldLive(u.inodes, u.gens[g].files, u.ver)
    ensures View(u.inodes, u.gens[g].files) == View(s.inodes, s.gens[g].files)
  {
    var run :| Run(c, EMPTY, run) == Some(s);
    var i := LabelOrigin(c, run, s, g);
    u := Run(c, EMPTY, run[..i]).value;
    StillLabelsTrue(c, u);
    ReachedStructure(c, s);
    assert Whole(s.inodes, s.gens[g], s.sealed[g]);
  }
}
