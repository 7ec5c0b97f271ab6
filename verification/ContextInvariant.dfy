/**
 What every step of the sidecar keeps, whatever the environment does: the shape of the volume,
 the separation of the live tree from every generation, the contents of every finished
 generation, the numbering of generations, and where `current` may point.
 */
module ContextInvariant {
  import opened Wrappers
  import opened ContextMachine

  ghost predicate Closed(inodes: map<Ino, File>, files: map<Path, Ino>) {
    forall p :: p in files ==> files[p] in inodes
  }

  ghost predicate AllClosed(inodes: map<Ino, File>, gens: map<nat, Gen>) {
    forall g :: g in gens ==> Closed(inodes, gens[g].files)
  }

  ghost predicate Injective(files: map<Path, Ino>) {
    forall p, q :: p in files && q in files && files[p] == files[q] ==> p == q
  }

  /** No inode is both in `files` and in `others`. */
  ghost predicate Disjoint(files: map<Path, Ino>, others: map<Path, Ino>) {
    forall p, q :: p in files && q in others ==> files[p] != others[q]
  }

  /** No inode is shared between the live tree and any generation. */
  ghost predicate Apart(live: map<Path, Ino>, gens: map<nat, Gen>) {
    forall g :: g in gens ==> Disjoint(live, gens[g].files)
  }

  /** A generation is whole: its metadata is there and every file is as it was when the
      metadata was written. */
  ghost predicate Whole(inodes: map<Ino, File>, gen: Gen, was: map<Path, File>) {
    gen.meta.Some? && View(inodes, gen.files) == was
  }

  /** Every finished generation no prune has touched is whole. */
  ghost predicate Intact(inodes: map<Ino, File>, gens: map<nat, Gen>,
                         sealed: map<nat, map<Path, File>>, doomed: set<nat>) {
    forall g :: g in gens && g in sealed && g !in doomed ==> Whole(inodes, gens[g], sealed[g])
  }

  /** `current` is absent or names a finished generation no prune has touched. */
  ghost predicate CurrentSealed(gens: map<nat, Gen>, current: Option<nat>,
                                sealed: map<nat, map<Path, File>>, doomed: set<nat>) {
    current.Some? ==> current.value in gens && current.value in sealed && current.value !in doomed
  }

  /** `highest` is the highest number ever used, and that generation is still there. */
  ghost predicate Numbered(gens: set<nat>, sealed: set<nat>, doomed: set<nat>, highest: nat) {
    && (forall g :: g in gens ==> 1 <= g <= highest)
    && (forall g :: g in sealed ==> g <= highest)
    && (forall g :: g in doomed ==> g <= highest)
    && (if gens == {} then highest == 0 else highest in gens)
  }

  ghost predicate NoMeta(paths: set<Path>) {
    forall p :: p in paths ==> !IsMeta(p)
  }

  ghost predicate GensNoMeta(gens: map<nat, Gen>) {
    forall g :: g in gens ==> NoMeta(gens[g].files.Keys)
  }

  /** The file being written is in the new generation only, under its own name. */
  ghost predicate Exclusive(dst: Ino, path: Path, next: nat, live: map<Path, Ino>, gens: map<nat, Gen>) {
    && (forall p :: p in live ==> live[p] != dst)
    && (forall g, p :: g in gens && p in gens[g].files && gens[g].files[p] == dst ==> g == next && p == path)
  }

  ghost predicate FdOk(fd: Fd, inodes: map<Ino, File>, live: map<Path, Ino>, gens: map<nat, Gen>,
                       next: nat, todo: set<Path>)
    requires next in gens
  {
    && fd.src in inodes && fd.dst in inodes && fd.src != fd.dst && fd.path in todo
    && fd.path in gens[next].files && gens[next].files[fd.path] == fd.dst
    && Exclusive(fd.dst, fd.path, next, live, gens)
    && |inodes[fd.dst].data| == fd.off
  }

  ghost predicate CopyOk(s: State)
    requires s.pc.Copying?
  {
    && s.pc.next in s.gens && s.pc.next == s.highest && s.current != Some(s.pc.next)
    && s.pc.next !in s.doomed
    && s.gens[s.pc.next].files.Keys <= s.pc.m.Keys && s.pc.todo <= s.pc.m.Keys
    && NoMeta(s.pc.m.Keys)
    && (s.pc.stage == Files ==> s.pc.next !in s.sealed)
    && (s.pc.stage != Files ==> s.pc.todo == {} && s.pc.fd == None && s.pc.next in s.sealed)
    && (s.pc.fd.Some? ==> FdOk(s.pc.fd.value, s.inodes, s.live, s.gens, s.pc.next, s.pc.todo))
  }

  ghost predicate PcOk(c: Config, s: State) {
    match s.pc
    case Idle => true
    case Restoring(left) =>
      s.phase == Asking && !s.restored && left <= CurrentFiles(s.gens, s.current).Keys && NoMeta(left)
    case Scanning(_, _, seen) => NoMeta(seen.Keys)
    case Copying(_, _, _, _, _, _, _, _) => CopyOk(s)
    case Pruning(_, m, victims) =>
      && s.current == Some(s.highest) && s.highest !in victims
      && |s.gens.Keys - victims| <= Keep(c.retain)
      && NoMeta(m.Keys)
  }

  ghost predicate IsWorkDone(pc: Pc) {
    (pc.Scanning? || pc.Copying? || pc.Pruning?) && pc.job == WorkDone
  }

  ghost predicate PhaseOk(s: State) {
    && (s.phase == Reporting(Running) <==> IsWorkDone(s.pc))
    && (s.handed ==> s.restored)
    && (s.phase.Reporting? ==> s.handed)
  }

  ghost predicate Volume(s: State) {
    && Closed(s.inodes, s.live) && AllClosed(s.inodes, s.gens)
    && Injective(s.live) && Apart(s.live, s.gens)
    && Intact(s.inodes, s.gens, s.sealed, s.doomed)
    && CurrentSealed(s.gens, s.current, s.sealed, s.doomed)
    && Numbered(s.gens.Keys, s.sealed.Keys, s.doomed, s.highest)
    && NoMeta(s.live.Keys) && GensNoMeta(s.gens)
  }

  ghost predicate Structure(c: Config, s: State) {
    Volume(s) && PcOk(c, s) && PhaseOk(s)
  }

  // ---- framing --------------------------------------------------------------------

  /** The two inode tables agree on the inodes of these files. */
  ghost predicate SameOn(before: map<Ino, File>, after: map<Ino, File>, files: map<Path, Ino>) {
    forall p :: p in files ==> files[p] in before && files[p] in after && before[files[p]] == after[files[p]]
  }

  ghost predicate SameOnGens(before: map<Ino, File>, after: map<Ino, File>, gens: map<nat, Gen>) {
    forall g :: g in gens ==> SameOn(before, after, gens[g].files)
  }

  lemma IntactFrame(before: map<Ino, File>, after: map<Ino, File>, gens: map<nat, Gen>,
                    sealed: map<nat, map<Path, File>>, doomed: set<nat>)
    requires Intact(before, gens, sealed, doomed) && SameOnGens(before, after, gens)
    ensures Intact(after, gens, sealed, doomed) && AllClosed(after, gens)
  {
    forall g | g in gens
      ensures View(before, gens[g].files) == View(after, gens[g].files)
    {
      assert SameOn(before, after, gens[g].files);
    }
    forall g | g in gens
      ensures Closed(after, gens[g].files)
    {
      assert SameOn(before, after, gens[g].files);
    }
  }

  // ---- the agent ------------------------------------------------------------------

  /** What an agent step may do to the tree: only inodes of the live tree change, and what is
      live afterwards is as before, or moved, or new. */
  ghost predicate TreeChange(s: State, t: State) {
    && s.inodes.Keys <= t.inodes.Keys
    && (forall i :: i in s.inodes && t.inodes[i] != s.inodes[i] ==> i in s.live.Values)
    && (forall p :: p in t.live ==> t.live[p] in t.inodes && (t.live[p] in s.live.Values || t.live[p] !in s.inodes))
    && Injective(t.live) && NoMeta(t.live.Keys)
    && t == s.(inodes := t.inodes, live := t.live, ver := t.ver, pairs := t.pairs, calm := false)
  }

  lemma AgentChangesTree(c: Config, s: State, a: Step, t: State)
    requires Closed(s.inodes, s.live) && Injective(s.live) && NoMeta(s.live.Keys)
    requires AgentStep(a) && AgentNext(c, s, a) == Some(t)
    ensures TreeChange(s, t) && s.phase == Free
  {
    match a
    case Write(p, data, tm) => WriteChangesTree(c, s, p, data, tm, t);
    case Put(p, ino, data, tm) => PutChangesTree(c, s, p, ino, data, tm, t);
    case Delete(p) =>
    case Move(p, q) => MoveChangesTree(c, s, p, q, t);
  }

  lemma WriteChangesTree(c: Config, s: State, p: Path, data: Bytes, tm: int, t: State)
    requires Closed(s.inodes, s.live) && Injective(s.live) && NoMeta(s.live.Keys)
    requires WriteNext(c, s, p, data, tm) == Some(t)
    ensures TreeChange(s, t)
  {
  }

  lemma PutChangesTree(c: Config, s: State, p: Path, ino: Ino, data: Bytes, tm: int, t: State)
    requires Closed(s.inodes, s.live) && Injective(s.live) && NoMeta(s.live.Keys)
    requires PutNext(c, s, p, ino, data, tm) == Some(t)
    ensures TreeChange(s, t)
  {
  }

  lemma MoveChangesTree(c: Config, s: State, p: Path, q: Path, t: State)
    requires Closed(s.inodes, s.live) && Injective(s.live) && NoMeta(s.live.Keys)
    requires MoveNext(c, s, p, q) == Some(t)
    ensures TreeChange(s, t)
  {
    assert s.live[p] in s.live.Values;
  }

  lemma StructureAgent(c: Config, s: State, a: Step, t: State)
    requires Structure(c, s) && AgentStep(a) && AgentNext(c, s, a) == Some(t)
    ensures Structure(c, t)
  {
    AgentChangesTree(c, s, a, t);
    TreeChangeKeepsStructure(c, s, t);
  }

  lemma TreeChangeKeepsStructure(c: Config, s: State, t: State)
    requires Structure(c, s) && TreeChange(s, t)
    ensures Structure(c, t)
  {
    TreeChangeKeepsVolume(s, t);
    if s.pc.Copying? && s.pc.fd.Some? {
      TreeChangeKeepsFd(s, t);
    }
  }

  lemma TreeChangeKeepsVolume(s: State, t: State)
    requires Volume(s) && TreeChange(s, t)
    ensures Volume(t)
  {
    forall g | g in s.gens
      ensures SameOn(s.inodes, t.inodes, s.gens[g].files) && Disjoint(t.live, t.gens[g].files)
    {
      assert Closed(s.inodes, s.gens[g].files) && Disjoint(s.live, s.gens[g].files);
    }
    IntactFrame(s.inodes, t.inodes, s.gens, s.sealed, s.doomed);
  }

  lemma TreeChangeKeepsFd(s: State, t: State)
    requires Volume(s) && TreeChange(s, t) && s.pc.Copying? && s.pc.fd.Some? && CopyOk(s)
    ensures CopyOk(t)
  {
    var fd := s.pc.fd.value;
    assert fd.dst !in s.live.Values;
  }

  // ---- restore --------------------------------------------------------------------

  lemma RestoredFileVolume(s: State, p: Path, ino: Ino, t: State)
    requires Volume(s) && !IsMeta(p) && p in CurrentFiles(s.gens, s.current)
    requires RestoreFileNext(s, p, ino) == Some(t)
    ensures Volume(t)
  {
    forall g | g in s.gens
      ensures SameOn(s.inodes, t.inodes, s.gens[g].files) && Disjoint(t.live, t.gens[g].files)
    {
      assert Closed(s.inodes, s.gens[g].files) && Disjoint(s.live, s.gens[g].files);
    }
    IntactFrame(s.inodes, t.inodes, s.gens, s.sealed, s.doomed);
    forall q | q in t.live
      ensures t.live[q] in t.inodes && !IsMeta(q)
    {
    }
  }

  lemma StructureRestoreFile(c: Config, s: State, p: Path, ino: Ino, t: State)
    requires Structure(c, s) && RestoreFileNext(s, p, ino) == Some(t)
    ensures Structure(c, t)
  {
    RestoredFileVolume(s, p, ino, t);
  }

  /** The steps of the work contract move the phase and two flags. */
  lemma StructureFlags(c: Config, s: State, t: State)
    requires Structure(c, s)
    requires t == s.(phase := t.phase, inflight := t.inflight, handed := t.handed)
    requires PhaseOk(t) && (s.pc.Restoring? ==> t.phase == Asking)
    ensures Structure(c, t)
  {
  }

  lemma StructureContract(c: Config, s: State, a: Step, t: State)
    requires Structure(c, s) && ContractStep(a) && ContractNext(s, a) == Some(t)
    ensures Structure(c, t)
  {
    ContractFlags(s, a, t);
    StructureFlags(c, s, t);
  }

  lemma ContractFlags(s: State, a: Step, t: State)
    requires PhaseOk(s) && (s.pc.Restoring? ==> s.phase == Asking && !s.restored)
    requires ContractStep(a) && ContractNext(s, a) == Some(t)
    ensures t == s.(phase := t.phase, inflight := t.inflight, handed := t.handed)
    ensures PhaseOk(t) && (s.pc.Restoring? ==> t.phase == Asking)
  {
  }

  lemma StructureRestoreBegin(c: Config, s: State, t: State)
    requires Structure(c, s) && RestoreBeginNext(c, s) == Some(t)
    ensures Structure(c, t)
  {
  }

  lemma StructureRestoreEnd(c: Config, s: State, t: State)
    requires Structure(c, s) && RestoreEndNext(s) == Some(t)
    ensures Structure(c, t)
  {
  }

  lemma StructureRestore(c: Config, s: State, a: Step, t: State)
    requires Structure(c, s) && RestoreStep(a) && RestoreNext(c, s, a) == Some(t)
    ensures Structure(c, t)
  {
    match a
    case RestoreBegin => StructureRestoreBegin(c, s, t);
    case RestoreFile(p, ino) => StructureRestoreFile(c, s, p, ino, t);
    case RestoreEnd => StructureRestoreEnd(c, s, t);
  }

  // ---- scanning -------------------------------------------------------------------

  /** The numbers in use and the next one. */
  lemma NextNumberIsHighest(gens: set<nat>, sealed: set<nat>, doomed: set<nat>, highest: nat)
    requires Numbered(gens, sealed, doomed, highest)
    ensures NextNumber(gens) == highest + 1
    ensures Numbered(gens + {highest + 1}, sealed, doomed, highest + 1)
  {
  }

  lemma NewDirectory(s: State, n: nat, t: State)
    requires Volume(s) && n == s.highest + 1
    requires t.gens == s.gens[n := Gen(map[], None)] && t.highest == n
    requires t.inodes == s.inodes && t.live == s.live && t.current == s.current
    requires t.sealed == s.sealed && t.doomed == s.doomed
    ensures Volume(t)
  {
    NextNumberIsHighest(s.gens.Keys, s.sealed.Keys, s.doomed, s.highest);
    assert t.gens.Keys == s.gens.Keys + {n};
    forall g | g in t.gens
      ensures Closed(t.inodes, t.gens[g].files) && Disjoint(t.live, t.gens[g].files)
              && NoMeta(t.gens[g].files.Keys)
    {
      if g != n {
        assert t.gens[g] == s.gens[g];
      }
    }
    forall g | g in t.gens && g in t.sealed && g !in t.doomed
      ensures Whole(t.inodes, t.gens[g], t.sealed[g])
    {
      assert t.gens[g] == s.gens[g];
    }
  }

  lemma BeginsNext(s: State, t: State)
    requires Numbered(s.gens.Keys, s.sealed.Keys, s.doomed, s.highest) && BeginNext(s) == Some(t)
    ensures t == Begun(s, s.highest + 1)
  {
    NextNumberIsHighest(s.gens.Keys, s.sealed.Keys, s.doomed, s.highest);
  }

  lemma StructureBegun(c: Config, s: State)
    requires Structure(c, s) && s.pc.Scanning?
    ensures Structure(c, Begun(s, s.highest + 1))
  {
    NewDirectory(s, s.highest + 1, Begun(s, s.highest + 1));
  }

  lemma StructureEndJob(c: Config, s: State, ok: bool)
    requires Structure(c, s) && (s.pc.Scanning? || s.pc.Copying? || s.pc.Pruning?)
    ensures Structure(c, EndJob(s, s.pc.job, ok))
  {
  }

  lemma StructureBegin(c: Config, s: State, t: State)
    requires Structure(c, s) && BeginNext(s) == Some(t)
    ensures Structure(c, t)
  {
    BeginsNext(s, t);
    StructureBegun(c, s);
  }

  lemma StructureScan(c: Config, s: State, a: Step, t: State)
    requires Structure(c, s) && ScanStep(a) && ScanNext(s, a) == Some(t)
    ensures Structure(c, t)
  {
    if a.Begin? {
      StructureBegin(c, s, t);
    } else if a.Skip? {
      StructureEndJob(c, s, true);
    }
  }

  // ---- copying --------------------------------------------------------------------

  lemma AddFileKeys(gens: map<nat, Gen>, next: nat, p: Path, ino: Ino)
    requires next in gens
    ensures var after := AddFile(gens, next, p, ino);
            && after.Keys == gens.Keys
            && (forall g :: g in gens && g != next ==> after[g] == gens[g])
            && after[next].files == gens[next].files[p := ino]
  {
  }

  /** Adding a file that no live path shares to an unfinished generation. */
  lemma NextGrows(s: State, next: nat, p: Path, ino: Ino)
    requires Volume(s) && next in s.gens && next !in s.sealed && s.current != Some(next)
    requires ino in s.inodes && !IsMeta(p) && forall q :: q in s.live ==> s.live[q] != ino
    ensures Volume(s.(gens := AddFile(s.gens, next, p, ino)))
  {
    var t := s.(gens := AddFile(s.gens, next, p, ino));
    AddFileKeys(s.gens, next, p, ino);
    forall g | g in t.gens
      ensures Closed(t.inodes, t.gens[g].files) && Disjoint(t.live, t.gens[g].files) && NoMeta(t.gens[g].files.Keys)
    {
      assert Closed(s.inodes, s.gens[g].files) && Disjoint(s.live, s.gens[g].files) && NoMeta(s.gens[g].files.Keys);
    }
    forall g | g in t.gens && g in t.sealed && g !in t.doomed
      ensures Whole(t.inodes, t.gens[g], t.sealed[g])
    {
      assert Whole(s.inodes, s.gens[g], s.sealed[g]);
    }
  }

  lemma StructureLink(c: Config, s: State, p: Path, t: State)
    requires Structure(c, s) && LinkNext(s, p) == Some(t)
    ensures Structure(c, t)
  {
    var cur := s.gens[s.current.value].files;
    AddFileKeys(s.gens, s.pc.next, p, cur[p]);
    assert Closed(s.inodes, cur) && Disjoint(s.live, cur) && NoMeta(cur.Keys);
    NextGrows(s, s.pc.next, p, cur[p]);
  }

  /** A table that differs only in inodes outside the live tree and outside every generation. */
  lemma VolumeUnderNewInodes(s: State, inodes: map<Ino, File>)
    requires Volume(s) && Closed(inodes, s.live) && SameOnGens(s.inodes, inodes, s.gens)
    ensures Volume(s.(inodes := inodes))
  {
    IntactFrame(s.inodes, inodes, s.gens, s.sealed, s.doomed);
  }

  lemma NewFileVolume(s: State, dst: Ino, now: int)
    requires Volume(s) && dst !in s.inodes
    ensures Volume(s.(inodes := s.inodes[dst := File([], now)]))
  {
    var after := s.inodes[dst := File([], now)];
    forall g | g in s.gens
      ensures SameOn(s.inodes, after, s.gens[g].files)
    {
      assert Closed(s.inodes, s.gens[g].files);
    }
    VolumeUnderNewInodes(s, after);
  }

  lemma NewFileExclusive(s: State, dst: Ino, p: Path, next: nat)
    requires Closed(s.inodes, s.live) && AllClosed(s.inodes, s.gens) && next in s.gens && dst !in s.inodes
    ensures Exclusive(dst, p, next, s.live, AddFile(s.gens, next, p, dst))
  {
    var gens := AddFile(s.gens, next, p, dst);
    AddFileKeys(s.gens, next, p, dst);
    forall g, q | g in gens && q in gens[g].files && gens[g].files[q] == dst
      ensures g == next && q == p
    {
      assert Closed(s.inodes, s.gens[g].files);
    }
  }

  lemma StructureOpen(c: Config, s: State, p: Path, dst: Ino, now: int, t: State)
    requires Structure(c, s) && OpenNext(s, p, dst, now) == Some(t)
    ensures Structure(c, t)
  {
    var u := s.(inodes := s.inodes[dst := File([], now)]);
    NewFileVolume(s, dst, now);
    NextGrows(u, s.pc.next, p, dst);
    AddFileKeys(s.gens, s.pc.next, p, dst);
    NewFileExclusive(s, dst, p, s.pc.next);
  }

  lemma StructureVanish(c: Config, s: State, p: Path, t: State)
    requires Structure(c, s) && VanishNext(s, p) == Some(t)
    ensures Structure(c, t)
  {
  }

  /** Writing the file being copied touches the unfinished generation alone. */
  lemma WritingDst(s: State, f: File)
    requires Volume(s) && s.pc.Copying? && CopyOk(s) && s.pc.fd.Some?
    ensures Volume(s.(inodes := s.inodes[s.pc.fd.value.dst := f]))
  {
    var fd := s.pc.fd.value;
    var t := s.(inodes := s.inodes[fd.dst := f]);
    forall g | g in s.gens
      ensures Closed(t.inodes, s.gens[g].files)
    {
      assert Closed(s.inodes, s.gens[g].files);
    }
    forall g | g in t.gens && g in t.sealed && g !in t.doomed
      ensures Whole(t.inodes, t.gens[g], t.sealed[g])
    {
      assert Whole(s.inodes, s.gens[g], s.sealed[g]);
      assert g != s.pc.next;
      assert View(s.inodes, s.gens[g].files) == View(t.inodes, s.gens[g].files);
    }
  }

  lemma StructureRead(c: Config, s: State, n: nat, now: int, t: State)
    requires Structure(c, s) && ReadNext(s, n, now) == Some(t)
    ensures Structure(c, t)
  {
    var fd := s.pc.fd.value;
    WritingDst(s, t.inodes[fd.dst]);
  }

  lemma StructureClose(c: Config, s: State, t: State)
    requires Structure(c, s) && CloseNext(s) == Some(t)
    ensures Structure(c, t)
  {
    var fd := s.pc.fd.value;
    WritingDst(s, t.inodes[fd.dst]);
  }

  // ---- commit ---------------------------------------------------------------------

  lemma SealedVolume(s: State, n: nat, meta: Meta, t: State)
    requires Volume(s) && n in s.gens && n !in s.sealed && n !in s.doomed && n <= s.highest
    requires t.gens == s.gens[n := s.gens[n].(meta := Some(meta))]
    requires t.sealed == s.sealed[n := View(s.inodes, s.gens[n].files)]
    requires t.inodes == s.inodes && t.live == s.live && t.current == s.current
    requires t.doomed == s.doomed && t.highest == s.highest
    ensures Volume(t)
  {
    assert t.gens.Keys == s.gens.Keys && t.sealed.Keys == s.sealed.Keys + {n};
    forall g | g in t.gens
      ensures t.gens[g].files == s.gens[g].files
      ensures Closed(t.inodes, t.gens[g].files) && Disjoint(t.live, t.gens[g].files) && NoMeta(t.gens[g].files.Keys)
    {
      assert Closed(s.inodes, s.gens[g].files) && Disjoint(s.live, s.gens[g].files) && NoMeta(s.gens[g].files.Keys);
    }
    forall g | g in t.gens && g in t.sealed && g !in t.doomed
      ensures Whole(t.inodes, t.gens[g], t.sealed[g])
    {
      assert g != n ==> Whole(s.inodes, s.gens[g], s.sealed[g]);
    }
  }

  lemma StructureWriteMeta(c: Config, s: State, t: State)
    requires Structure(c, s) && WriteMetaNext(s) == Some(t)
    ensures Structure(c, t)
  {
    SealedVolume(s, s.pc.next, t.gens[s.pc.next].meta.value, t);
  }

  lemma OldestSize(s: set<nat>, n: int)
    requires n <= |s|
    ensures |s - Oldest(s, n)| == if n <= 0 then |s| else |s| - n
    decreases s
  {
    if n > 0 {
      var m := Min(s);
      OldestSize(s - {m}, n - 1);
      assert s - Oldest(s, n) == (s - {m}) - Oldest(s - {m}, n - 1);
    } else {
      assert s - Oldest(s, n) == s;
    }
  }

  lemma OldestLeavesHighest(s: set<nat>, n: int, h: nat)
    requires n < |s| && h in s && forall x :: x in s ==> x <= h
    ensures h !in Oldest(s, n)
    decreases s
  {
    if n > 0 {
      var m := Min(s);
      assert m == h ==> s == {h};
      if m != h {
        OldestLeavesHighest(s - {m}, n - 1, h);
      }
    }
  }

  /** After the victims are gone at most Keep(retain) generations are left, the highest among them. */
  lemma VictimsSpare(s: set<nat>, retain: int, h: nat)
    requires h in s && forall x :: x in s ==> x <= h
    ensures h !in Victims(s, retain, Some(h)) && Victims(s, retain, Some(h)) <= s
    ensures |s - Victims(s, retain, Some(h))| <= Keep(retain)
  {
    var n := |s| - Keep(retain);
    OldestLeavesHighest(s, n, h);
    OldestSize(s, n);
    assert Oldest(s, n) - {h} == Oldest(s, n);
  }

  lemma StructureRename(c: Config, s: State, t: State)
    requires Structure(c, s) && RenameNext(c, s) == Some(t)
    ensures Structure(c, t)
  {
    VictimsSpare(s.gens.Keys, c.retain, s.pc.next);
  }

  lemma EntryGone(s: State, g: nat, e: Option<Path>, t: State)
    requires Volume(s) && g != s.highest && g <= s.highest && s.current != Some(g)
    requires RemoveEntryNext(s, g, e) == Some(t)
    ensures Volume(t)
  {
    assert t.gens.Keys == s.gens.Keys;
    forall h | h in t.gens
      ensures Closed(t.inodes, t.gens[h].files) && Disjoint(t.live, t.gens[h].files) && NoMeta(t.gens[h].files.Keys)
    {
      assert Closed(s.inodes, s.gens[h].files) && Disjoint(s.live, s.gens[h].files) && NoMeta(s.gens[h].files.Keys);
    }
    forall h | h in t.gens && h in t.sealed && h !in t.doomed
      ensures Whole(t.inodes, t.gens[h], t.sealed[h])
    {
      assert Whole(s.inodes, s.gens[h], s.sealed[h]);
    }
  }

  lemma StructureRemoveEntry(c: Config, s: State, g: nat, e: Option<Path>, t: State)
    requires Structure(c, s) && RemoveEntryNext(s, g, e) == Some(t)
    ensures Structure(c, t)
  {
    EntryGone(s, g, e, t);
    assert t.gens.Keys == s.gens.Keys;
  }

  lemma DirectoryGone(s: State, g: nat, t: State)
    requires Volume(s) && s.highest in s.gens && g != s.highest && g <= s.highest && s.current != Some(g)
    requires t.gens == s.gens - {g} && t.doomed == s.doomed + {g}
    requires t.inodes == s.inodes && t.live == s.live && t.current == s.current
    requires t.sealed == s.sealed && t.highest == s.highest
    ensures Volume(t)
  {
    assert t.gens.Keys == s.gens.Keys - {g};
    forall h | h in t.gens
      ensures t.gens[h] == s.gens[h]
      ensures Closed(t.inodes, t.gens[h].files) && Disjoint(t.live, t.gens[h].files) && NoMeta(t.gens[h].files.Keys)
    {
      assert Closed(s.inodes, s.gens[h].files) && Disjoint(s.live, s.gens[h].files) && NoMeta(s.gens[h].files.Keys);
    }
    assert s.highest in t.gens;
  }

  lemma FewerLeft(gens: set<nat>, victims: set<nat>, g: nat)
    ensures |(gens - {g}) - (victims - {g})| <= |gens - victims|
  {
    assert (gens - {g}) - (victims - {g}) <= gens - victims;
    SubsetSize((gens - {g}) - (victims - {g}), gens - victims);
  }

  lemma StructureRemoveDir(c: Config, s: State, g: nat, t: State)
    requires Structure(c, s) && RemoveDirNext(s, g) == Some(t)
    ensures Structure(c, t)
  {
    DirectoryGone(s, g, t);
    FewerLeft(s.gens.Keys, s.pc.victims, g);
    assert t.gens.Keys == s.gens.Keys - {g};
  }

  lemma SubsetSize(a: set<nat>, b: set<nat>)
    requires a <= b
    ensures |a| <= |b|
  {
    if a != {} {
      var x :| x in a;
      SubsetSize(a - {x}, b - {x});
    }
  }

  lemma StructureSymlink(c: Config, s: State, t: State)
    requires Structure(c, s) && SymlinkNext(s) == Some(t)
    ensures Structure(c, t)
  {
  }

  lemma StructureCrash(c: Config, s: State)
    requires Structure(c, s)
    ensures Structure(c, Reboot(s))
  {
  }

  // ---- every step, every run ------------------------------------------------------

  lemma StructureFill(c: Config, s: State, a: Step, t: State)
    requires Structure(c, s) && FillStep(a) && FillNext(s, a) == Some(t)
    ensures Structure(c, t)
  {
    match a
    case Link(p) => StructureLink(c, s, p, t);
    case Open(p, dst, now) => StructureOpen(c, s, p, dst, now, t);
    case Vanish(p) => StructureVanish(c, s, p, t);
    case Read(n, now) => StructureRead(c, s, n, now, t);
    case Close => StructureClose(c, s, t);
  }

  lemma StructureCommit(c: Config, s: State, a: Step, t: State)
    requires Structure(c, s) && CommitStep(a) && CommitNext(c, s, a) == Some(t)
    ensures Structure(c, t)
  {
    match a
    case WriteMeta => StructureWriteMeta(c, s, t);
    case Symlink => StructureSymlink(c, s, t);
    case Rename => StructureRename(c, s, t);
  }

  lemma StructurePrune(c: Config, s: State, a: Step, t: State)
    requires Structure(c, s) && PruneStep(a) && PruneNext(s, a) == Some(t)
    ensures Structure(c, t)
  {
    match a
    case RemoveEntry(g, e) => StructureRemoveEntry(c, s, g, e, t);
    case RemoveDir(g) => StructureRemoveDir(c, s, g, t);
  }

  lemma StructureStep(c: Config, s: State, a: Step, t: State)
    requires Structure(c, s) && Next(c, s, a) == Some(t)
    ensures Structure(c, t)
  {
    if AgentStep(a) {
      StructureAgent(c, s, a, t);
    } else if ContractStep(a) {
      StructureContract(c, s, a, t);
    } else if RestoreStep(a) {
      StructureRestore(c, s, a, t);
    } else if ScanStep(a) {
      StructureScan(c, s, a, t);
    } else if FillStep(a) {
      StructureFill(c, s, a, t);
    } else if CommitStep(a) {
      StructureCommit(c, s, a, t);
    } else if PruneStep(a) {
      StructurePrune(c, s, a, t);
    } else if a.Finish? {
      StructureFinish(c, s, t);
    } else if a.Abort? {
      StructureEndJob(c, s, false);
    } else {
      StructureCrash(c, s);
    }
  }

  lemma StructureFinish(c: Config, s: State, t: State)
    requires Structure(c, s) && FinishNext(s) == Some(t)
    ensures Structure(c, t)
  {
    StructureEndJob(c, s, true);
  }

  lemma StructureRun(c: Config, s: State, run: seq<Step>, t: State)
    requires Structure(c, s) && Run(c, s, run) == Some(t)
    ensures Structure(c, t)
    decreases |run|
  {
    if run != [] {
      var u := Run(c, s, run[..|run| - 1]).value;
      StructureRun(c, s, run[..|run| - 1], u);
      StructureStep(c, u, run[|run| - 1], t);
    }
  }
}
