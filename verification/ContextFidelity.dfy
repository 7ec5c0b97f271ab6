/**
 What the sidecar's checkpoints hold when every change of a live file gives an mtime its path
 never had: an incremental generation agrees with the live tree wherever the two carry the same
 stamp, so a link shares what the live file held under the scanned stamp, and a checkpoint of a
 tree that did not change ends with that tree in `current`.
 */
module ContextFidelity {
  import opened Wrappers
  import opened ContextMachine
  import opened ContextInvariant

  /** Every file here holds what its live path held under the mtime the file carries. */
  ghost predicate HeldLive(inodes: map<Ino, File>, files: map<Path, Ino>, ver: map<(Path, int), Bytes>) {
    forall p :: p in files ==>
      files[p] in inodes && (p, inodes[files[p]].mtime) in ver
      && ver[(p, inodes[files[p]].mtime)] == inodes[files[p]].data
  }

  ghost predicate Known(m: Manifest, ver: map<(Path, int), Bytes>) {
    forall p :: p in m ==> (p, m[p].mtime) in ver
  }

  /** A copy and the live file never carry the same mtime with different contents. */
  ghost predicate Faithful(inodes: map<Ino, File>, live: map<Path, Ino>, files: map<Path, Ino>,
                           ver: map<(Path, int), Bytes>) {
    forall p :: p in files ==>
      && files[p] in inodes && (p, inodes[files[p]].mtime) in ver
      && (p in live && live[p] in inodes && inodes[live[p]].mtime == inodes[files[p]].mtime ==>
            inodes[live[p]].data == inodes[files[p]].data)
  }

  /** Every entry that still describes the live file has a copy with that mtime. */
  ghost predicate Remembers(inodes: map<Ino, File>, live: map<Path, Ino>, files: map<Path, Ino>, m: Manifest) {
    forall p :: p in m && p in live && live[p] in inodes && StampOf(inodes[live[p]]) == m[p] ==>
      p in files && files[p] in inodes && inodes[files[p]].mtime == m[p].mtime
  }

  /** A copy that carries the mtime of a scanned entry holds what the live file held then. */
  ghost predicate CleanLinks(inodes: map<Ino, File>, files: map<Path, Ino>, m: Manifest,
                             ver: map<(Path, int), Bytes>) {
    forall p :: p in m && p in files && files[p] in inodes && inodes[files[p]].mtime == m[p].mtime
                && (p, m[p].mtime) in ver ==>
      inodes[files[p]].data == ver[(p, m[p].mtime)]
  }

  /** The scan so far of a tree that did not change since it began. */
  ghost predicate ExactScan(inodes: map<Ino, File>, live: map<Path, Ino>, todo: set<Path>, seen: Manifest) {
    && (forall p :: p in seen ==> p in live && live[p] in inodes && seen[p] == StampOf(inodes[live[p]]))
    && live.Keys <= todo + seen.Keys
  }

  /** The copy in progress: what was copied is a prefix of the live file for as long as that
      file carries the mtime the copy will be given. */
  ghost predicate FdFaithful(fd: Fd, inodes: map<Ino, File>, live: map<Path, Ino>,
                             ver: map<(Path, int), Bytes>, m: Manifest) {
    && fd.path in m && fd.src in inodes && fd.dst in inodes && (fd.path, fd.mtime) in ver
    && (fd.path in live && live[fd.path] in inodes && inodes[live[fd.path]].mtime == fd.mtime ==>
          && live[fd.path] == fd.src && fd.off <= |inodes[fd.src].data|
          && inodes[fd.dst].data == inodes[fd.src].data[..fd.off])
    && (fd.path in live && live[fd.path] in inodes && inodes[live[fd.path]].mtime == m[fd.path].mtime ==>
          fd.mtime == m[fd.path].mtime)
  }

  function WithoutFd(files: map<Path, Ino>, fd: Option<Fd>): map<Path, Ino> {
    if fd.Some? then files - {fd.value.path} else files
  }

  /** `current` holds exactly the live files: the same paths, contents and mtimes. */
  ghost predicate Durable(s: State) {
    && Closed(s.inodes, s.live) && Closed(s.inodes, CurrentFiles(s.gens, s.current))
    && View(s.inodes, CurrentFiles(s.gens, s.current)) == View(s.inodes, s.live)
  }

  ghost predicate ScanningOk(s: State)
    requires s.pc.Scanning?
  {
    var files := CurrentFiles(s.gens, s.current);
    && Known(s.pc.seen, s.ver) && CleanLinks(s.inodes, files, s.pc.seen, s.ver)
    && (s.calm ==> ExactScan(s.inodes, s.live, s.pc.todo, s.pc.seen))
  }

  /** The new generation so far: the files done, and the one in progress. */
  ghost predicate Filled(inodes: map<Ino, File>, live: map<Path, Ino>, next: map<Path, Ino>, m: Manifest,
                         todo: set<Path>, fd: Option<Fd>, ver: map<(Path, int), Bytes>) {
    && Faithful(inodes, live, WithoutFd(next, fd), ver)
    && Remembers(inodes, live, next, m - todo)
    && (fd.Some? ==> FdFaithful(fd.value, inodes, live, ver, m))
  }

  ghost predicate CopyingOk(s: State)
    requires s.pc.Copying?
  {
    && s.pc.next in s.gens
    && Known(s.pc.m, s.ver) && CleanLinks(s.inodes, CurrentFiles(s.gens, s.current), s.pc.m, s.ver)
    && Filled(s.inodes, s.live, s.gens[s.pc.next].files, s.pc.m, s.pc.todo, s.pc.fd, s.ver)
    && (s.calm ==> s.pc.m == Stamps(s.inodes, s.live))
  }

  ghost predicate PruningOk(s: State)
    requires s.pc.Pruning?
  {
    var files := CurrentFiles(s.gens, s.current);
    && Known(s.pc.m, s.ver)
    && Remembers(s.inodes, s.live, files, s.pc.m) && files.Keys <= s.pc.m.Keys
    && (s.calm ==> s.pc.m == Stamps(s.inodes, s.live))
  }

  ghost predicate JobFidelity(s: State) {
    match s.pc
    case Idle => true
    case Restoring(_) => true
    case Scanning(_, _, _) => ScanningOk(s)
    case Copying(_, _, _, _, _, _, _, _) => CopyingOk(s)
    case Pruning(_, _, _) => PruningOk(s)
  }

  ghost predicate Fidelity(s: State) {
    && HeldLive(s.inodes, s.live, s.ver) && Known(s.last, s.ver)
    && Faithful(s.inodes, s.live, CurrentFiles(s.gens, s.current), s.ver)
    && JobFidelity(s) && (s.phase == Reporting(Running) ==> s.calm)
  }

  ghost predicate Kept(c: Config, s: State) {
    c.fine && Structure(c, s) && Fidelity(s)
  }

  // ---- the agent ------------------------------------------------------------------

  /** An agent step under a fine clock: what is live afterwards is as it was, or carries an mtime
      its path never had. */
  ghost predicate FreshChange(s: State, t: State) {
    && TreeChange(s, t)
    && (forall k :: k in s.ver ==> k in t.ver && t.ver[k] == s.ver[k])
    && HeldLive(t.inodes, t.live, t.ver)
    && (forall p :: p in t.live ==>
          || (p in s.live && t.live[p] == s.live[p] && t.live[p] in s.inodes
              && t.inodes[t.live[p]] == s.inodes[t.live[p]])
          || (t.live[p] in t.inodes && (p, t.inodes[t.live[p]].mtime) !in s.ver))
  }

  lemma AgentIsFresh(c: Config, s: State, a: Step, t: State)
    requires c.fine && Volume(s) && HeldLive(s.inodes, s.live, s.ver)
    requires AgentStep(a) && AgentNext(c, s, a) == Some(t)
    ensures FreshChange(s, t)
  {
    AgentChangesTree(c, s, a, t);
    match a
    case Write(p, data, tm) => WriteIsFresh(c, s, p, data, tm, t);
    case Put(p, ino, data, tm) => PutIsFresh(c, s, p, ino, data, tm, t);
    case Delete(p) =>
    case Move(p, q) => MoveIsFresh(c, s, p, q, t);
  }

  lemma WriteIsFresh(c: Config, s: State, p: Path, data: Bytes, tm: int, t: State)
    requires c.fine && Injective(s.live) && HeldLive(s.inodes, s.live, s.ver)
    requires WriteNext(c, s, p, data, tm) == Some(t) && TreeChange(s, t)
    ensures FreshChange(s, t)
  {
  }

  lemma PutIsFresh(c: Config, s: State, p: Path, ino: Ino, data: Bytes, tm: int, t: State)
    requires c.fine && HeldLive(s.inodes, s.live, s.ver)
    requires PutNext(c, s, p, ino, data, tm) == Some(t) && TreeChange(s, t)
    ensures FreshChange(s, t)
  {
  }

  lemma MoveIsFresh(c: Config, s: State, p: Path, q: Path, t: State)
    requires c.fine && HeldLive(s.inodes, s.live, s.ver)
    requires MoveNext(c, s, p, q) == Some(t) && TreeChange(s, t)
    ensures FreshChange(s, t)
  {
  }

  lemma FreshKeepsFiles(s: State, t: State, files: map<Path, Ino>, m: Manifest)
    requires FreshChange(s, t) && SameOn(s.inodes, t.inodes, files)
    ensures Faithful(s.inodes, s.live, files, s.ver) ==> Faithful(t.inodes, t.live, files, t.ver)
    ensures Known(m, s.ver) ==> Known(m, t.ver)
    ensures Known(m, s.ver) && CleanLinks(s.inodes, files, m, s.ver) ==> CleanLinks(t.inodes, files, m, t.ver)
  {
  }

  lemma FreshKeepsRemembers(s: State, t: State, files: map<Path, Ino>, m: Manifest)
    requires FreshChange(s, t) && Known(m, s.ver)
    requires forall p :: p in files && files[p] in s.inodes ==> files[p] in t.inodes && s.inodes[files[p]].mtime == t.inodes[files[p]].mtime
    requires Remembers(s.inodes, s.live, files, m)
    ensures Remembers(t.inodes, t.live, files, m)
  {
  }

  lemma GenUntouched(s: State, t: State, g: nat)
    requires Volume(s) && TreeChange(s, t) && g in s.gens
    ensures SameOn(s.inodes, t.inodes, s.gens[g].files)
  {
    assert Closed(s.inodes, s.gens[g].files) && Disjoint(s.live, s.gens[g].files);
  }

  lemma CurrentUntouched(s: State, t: State)
    requires Volume(s) && TreeChange(s, t)
    ensures SameOn(s.inodes, t.inodes, CurrentFiles(s.gens, s.current))
  {
    if s.current.Some? && s.current.value in s.gens {
      GenUntouched(s, t, s.current.value);
    }
  }

  lemma FreshKeepsFd(s: State, t: State)
    requires Volume(s) && FreshChange(s, t) && s.pc.Copying? && CopyOk(s) && CopyingOk(s) && s.pc.fd.Some?
    ensures FdFaithful(s.pc.fd.value, t.inodes, t.live, t.ver, s.pc.m)
  {
    var fd := s.pc.fd.value;
    assert fd.dst !in s.live.Values;
    assert (fd.path, s.pc.m[fd.path].mtime) in s.ver;
  }

  lemma FidelityAgentCopying(s: State, t: State)
    requires Volume(s) && FreshChange(s, t) && s.pc.Copying? && CopyOk(s) && CopyingOk(s)
    ensures CopyingOk(t)
  {
    var next := s.gens[s.pc.next].files;
    CurrentUntouched(s, t);
    GenUntouched(s, t, s.pc.next);
    FreshKeepsFiles(s, t, CurrentFiles(s.gens, s.current), s.pc.m);
    FreshKeepsFiles(s, t, WithoutFd(next, s.pc.fd), s.pc.m);
    FreshKeepsRemembers(s, t, next, s.pc.m - s.pc.todo);
    if s.pc.fd.Some? {
      FreshKeepsFd(s, t);
    }
  }

  lemma FidelityAgentJob(s: State, t: State)
    requires Volume(s) && FreshChange(s, t) && !s.pc.Copying? && !s.pc.Restoring?
    requires Known(s.last, s.ver) && JobFidelity(s)
    ensures JobFidelity(t)
  {
    var files := CurrentFiles(s.gens, s.current);
    CurrentUntouched(s, t);
    match s.pc
    case Idle =>
    case Scanning(_, _, seen) => FreshKeepsFiles(s, t, files, seen);
    case Pruning(_, m, _) =>
      FreshKeepsRemembers(s, t, files, m);
      FreshKeepsFiles(s, t, files, m);
  }

  lemma FidelityAgentRest(s: State, t: State)
    requires Volume(s) && FreshChange(s, t) && HeldLive(s.inodes, s.live, s.ver) && Known(s.last, s.ver)
    requires Faithful(s.inodes, s.live, CurrentFiles(s.gens, s.current), s.ver)
    ensures HeldLive(t.inodes, t.live, t.ver) && Known(t.last, t.ver)
    ensures Faithful(t.inodes, t.live, CurrentFiles(t.gens, t.current), t.ver)
  {
    CurrentUntouched(s, t);
    FreshKeepsFiles(s, t, CurrentFiles(s.gens, s.current), s.last);
  }

  lemma AgentIsFree(c: Config, s: State, a: Step, t: State)
    requires AgentStep(a) && AgentNext(c, s, a) == Some(t)
    ensures s.phase == Free && t.phase == Free && t.pc == s.pc
  {
  }

  lemma FidelityAgent(c: Config, s: State, a: Step, t: State)
    requires Kept(c, s) && AgentStep(a) && AgentNext(c, s, a) == Some(t)
    ensures Fidelity(t)
  {
    AgentIsFree(c, s, a, t);
    AgentIsFresh(c, s, a, t);
    FidelityAgentRest(s, t);
    if s.pc.Copying? {
      FidelityAgentCopying(s, t);
    } else {
      FidelityAgentJob(s, t);
    }
  }

  // ---- restore and the work contract ----------------------------------------------

  lemma FidelityContract(c: Config, s: State, a: Step, t: State)
    requires Kept(c, s) && ContractStep(a) && ContractNext(s, a) == Some(t)
    ensures Fidelity(t)
  {
    ContractFlags(s, a, t);
    assert t.phase != Reporting(Running) || s.phase == Reporting(Running);
    FidelityFlags(s, t);
  }

  lemma FidelityFlags(s: State, t: State)
    requires Fidelity(s)
    requires t == s.(phase := t.phase, inflight := t.inflight, handed := t.handed)
    requires t.phase == Reporting(Running) ==> s.phase == Reporting(Running)
    ensures Fidelity(t)
  {
  }

  lemma FidelityRestoreBegin(c: Config, s: State, t: State)
    requires Kept(c, s) && RestoreBeginNext(c, s) == Some(t)
    ensures Fidelity(t)
  {
  }

  lemma RestoredFileKept(s: State, p: Path, ino: Ino, t: State, files: map<Path, Ino>)
    requires files == CurrentFiles(s.gens, s.current) && Closed(s.inodes, files) && Disjoint(s.live, files)
    requires Injective(s.live) && Faithful(s.inodes, s.live, files, s.ver) && HeldLive(s.inodes, s.live, s.ver)
    requires Known(s.last, s.ver) && RestoreFileNext(s, p, ino) == Some(t)
    ensures HeldLive(t.inodes, t.live, t.ver) && Known(t.last, t.ver)
    ensures Faithful(t.inodes, t.live, files, t.ver)
  {
    assert SameOn(s.inodes, t.inodes, files);
  }

  lemma FidelityRestoreFile(c: Config, s: State, p: Path, ino: Ino, t: State)
    requires Kept(c, s) && RestoreFileNext(s, p, ino) == Some(t)
    ensures Fidelity(t)
  {
    CurrentClosed(s);
    RestoredFileKept(s, p, ino, t, CurrentFiles(s.gens, s.current));
  }

  lemma CurrentClosed(s: State)
    requires Volume(s)
    ensures Closed(s.inodes, CurrentFiles(s.gens, s.current))
    ensures Disjoint(s.live, CurrentFiles(s.gens, s.current))
  {
    if s.current.Some? && s.current.value in s.gens {
      assert Closed(s.inodes, s.gens[s.current.value].files) && Disjoint(s.live, s.gens[s.current.value].files);
    }
  }

  lemma FidelityRestoreEnd(c: Config, s: State, t: State)
    requires Kept(c, s) && RestoreEndNext(s) == Some(t)
    ensures Fidelity(t)
  {
  }

  // ---- scanning -------------------------------------------------------------------

  lemma FidelityStart(c: Config, s: State, job: Job, t: State)
    requires Kept(c, s) && StartNext(s, job) == Some(t)
    ensures Fidelity(t)
  {
  }

  lemma FidelityVisit(c: Config, s: State, p: Path, t: State)
    requires Kept(c, s) && VisitNext(s, p) == Some(t)
    ensures Fidelity(t)
  {
  }

  /** A complete scan of an unchanging tree is the manifest of that tree. */
  lemma ExactScanIsStamps(s: State)
    requires Closed(s.inodes, s.live) && s.pc.Scanning? && s.pc.todo == {}
    requires ExactScan(s.inodes, s.live, s.pc.todo, s.pc.seen)
    ensures s.pc.seen == Stamps(s.inodes, s.live)
  {
    assert s.pc.seen.Keys == s.live.Keys;
    assert Stamps(s.inodes, s.live).Keys == s.live.Keys;
  }

  /** Copies that agree with the tree wherever stamps agree, and hold every file the manifest of
      the tree lists: they are the tree. */
  lemma ManifestIsTree(inodes: map<Ino, File>, live: map<Path, Ino>, files: map<Path, Ino>, m: Manifest,
                       ver: map<(Path, int), Bytes>)
    requires Closed(inodes, live) && Faithful(inodes, live, files, ver) && Remembers(inodes, live, files, m)
    requires m == Stamps(inodes, live) && files.Keys <= m.Keys
    ensures View(inodes, files) == View(inodes, live)
  {
    assert m.Keys == live.Keys;
    assert View(inodes, files).Keys == files.Keys && View(inodes, live).Keys == live.Keys;
    forall p | p in live
      ensures p in files && inodes[files[p]] == inodes[live[p]]
    {
      assert p in m && m[p] == StampOf(inodes[live[p]]);
    }
  }

  /** A manifest that equals the remembered one: the tree is already durable. */
  lemma RememberedIsDurable(s: State, files: map<Path, Ino>, m: Manifest)
    requires Closed(s.inodes, s.live) && files == CurrentFiles(s.gens, s.current)
    requires Faithful(s.inodes, s.live, files, s.ver) && Remembers(s.inodes, s.live, files, m)
    requires m == Stamps(s.inodes, s.live) && files.Keys <= m.Keys
    ensures Durable(s)
  {
    ManifestIsTree(s.inodes, s.live, files, m, s.ver);
  }

  lemma FidelitySkip(c: Config, s: State, t: State)
    requires Kept(c, s) && s.pc.Scanning? && s.pc.todo == {} && s.pc.seen == s.last
    requires t == EndJob(s, s.pc.job, true)
    ensures Fidelity(t)
  {
  }

  lemma FidelityBegun(c: Config, s: State, t: State)
    requires Kept(c, s) && s.pc.Scanning? && s.pc.todo == {} && s.pc.seen != s.last
    requires t == Begun(s, s.highest + 1)
    ensures Fidelity(t)
  {
    BegunKeepsRest(c, s, t);
    assert s.pc.seen - s.pc.seen.Keys == map[];
    if s.calm {
      ExactScanIsStamps(s);
    }
    BegunCopying(s, t);
  }

  lemma BegunKeepsRest(c: Config, s: State, t: State)
    requires Structure(c, s) && s.pc.Scanning? && t == Begun(s, s.highest + 1)
    ensures CurrentFiles(t.gens, t.current) == CurrentFiles(s.gens, s.current)
  {
  }

  lemma BegunCopying(s: State, t: State)
    requires s.pc.Scanning? && t == Begun(s, s.highest + 1) && ScanningOk(s)
    requires s.pc.seen - s.pc.seen.Keys == map[] && (s.calm ==> s.pc.seen == Stamps(s.inodes, s.live))
    requires CurrentFiles(t.gens, t.current) == CurrentFiles(s.gens, s.current)
    ensures CopyingOk(t)
  {
    assert WithoutFd(map[], None) == map[];
    assert t.gens[t.pc.next].files == map[];
  }

  // ---- copying --------------------------------------------------------------------

  /** A copy step leaves the live tree, `current` and everything recorded of them alone. */
  ghost predicate Aside(s: State, t: State) {
    && t.live == s.live && t.ver == s.ver && t.last == s.last && t.restored == s.restored
    && t.phase == s.phase && t.calm == s.calm
    && CurrentFiles(t.gens, t.current) == CurrentFiles(s.gens, s.current)
    && SameOn(s.inodes, t.inodes, s.live) && SameOn(s.inodes, t.inodes, CurrentFiles(s.gens, s.current))
  }

  lemma AsideKeepsRest(s: State, t: State)
    requires HeldLive(s.inodes, s.live, s.ver) && Known(s.last, s.ver)
    requires Faithful(s.inodes, s.live, CurrentFiles(s.gens, s.current), s.ver)
    requires Aside(s, t)
    ensures HeldLive(t.inodes, t.live, t.ver) && Known(t.last, t.ver)
    ensures Faithful(t.inodes, t.live, CurrentFiles(t.gens, t.current), t.ver)
  {
  }

  lemma AsideKeepsManifest(s: State, t: State, m: Manifest)
    requires Aside(s, t) && CleanLinks(s.inodes, CurrentFiles(s.gens, s.current), m, s.ver)
    ensures CleanLinks(t.inodes, CurrentFiles(t.gens, t.current), m, t.ver)
    ensures Stamps(t.inodes, t.live) == Stamps(s.inodes, s.live)
  {
  }

  lemma FidelityCopied(s: State, t: State)
    requires s.pc.Copying? && Fidelity(s) && Aside(s, t) && t.pc.Copying? && t.pc.m == s.pc.m
    requires t.pc.next in t.gens
    requires Filled(t.inodes, t.live, t.gens[t.pc.next].files, t.pc.m, t.pc.todo, t.pc.fd, t.ver)
    ensures Fidelity(t)
  {
    AsideKeepsRest(s, t);
    AsideKeepsManifest(s, t, s.pc.m);
  }

  lemma FilledLink(inodes: map<Ino, File>, live: map<Path, Ino>, next: map<Path, Ino>, cur: map<Path, Ino>,
                   p: Path, m: Manifest, todo: set<Path>, ver: map<(Path, int), Bytes>)
    requires Filled(inodes, live, next, m, todo, None, ver) && Faithful(inodes, live, cur, ver)
    requires p in m && p in cur && StampOf(inodes[cur[p]]) == m[p]
    ensures Filled(inodes, live, next[p := cur[p]], m, todo - {p}, None, ver)
  {
  }

  lemma LinkAside(c: Config, s: State, p: Path, t: State)
    requires Structure(c, s) && LinkNext(s, p) == Some(t)
    ensures Aside(s, t) && t.pc.next in t.gens
    ensures t.gens[t.pc.next].files == s.gens[s.pc.next].files[p := CurrentFiles(s.gens, s.current)[p]]
  {
    CurrentClosed(s);
    AddFileKeys(s.gens, s.pc.next, p, CurrentFiles(s.gens, s.current)[p]);
  }

  lemma FidelityLink(c: Config, s: State, p: Path, t: State)
    requires Kept(c, s) && LinkNext(s, p) == Some(t)
    ensures Fidelity(t)
  {
    LinkAside(c, s, p, t);
    FidelityLinkAside(s, p, t);
  }

  lemma FidelityLinkAside(s: State, p: Path, t: State)
    requires Fidelity(s) && LinkNext(s, p) == Some(t) && Aside(s, t) && t.pc.next in t.gens
    requires t.gens[t.pc.next].files == s.gens[s.pc.next].files[p := CurrentFiles(s.gens, s.current)[p]]
    ensures Fidelity(t)
  {
    FilledLink(s.inodes, s.live, s.gens[s.pc.next].files, CurrentFiles(s.gens, s.current), p, s.pc.m, s.pc.todo, s.ver);
    FidelityCopied(s, t);
  }

  lemma FilledOpen(inodes: map<Ino, File>, live: map<Path, Ino>, next: map<Path, Ino>, p: Path, dst: Ino, now: int,
                   m: Manifest, todo: set<Path>, ver: map<(Path, int), Bytes>)
    requires Filled(inodes, live, next, m, todo, None, ver) && HeldLive(inodes, live, ver)
    requires Closed(inodes, next) && dst !in inodes && p in m && p in live && p in todo
    ensures Filled(inodes[dst := File([], now)], live, next[p := dst], m, todo,
                   Some(Fd(p, live[p], inodes[live[p]].mtime, dst, 0)), ver)
  {
    var fd := Fd(p, live[p], inodes[live[p]].mtime, dst, 0);
    assert WithoutFd(next[p := dst], Some(fd)) == next - {p};
    assert Faithful(inodes, live, next, ver);
  }

  lemma OpenAside(c: Config, s: State, p: Path, dst: Ino, now: int, t: State)
    requires Structure(c, s) && OpenNext(s, p, dst, now) == Some(t)
    ensures Aside(s, t) && Closed(s.inodes, s.gens[s.pc.next].files)
    ensures t.pc.next in t.gens && t.gens[t.pc.next].files == s.gens[s.pc.next].files[p := dst]
  {
    CurrentClosed(s);
    AddFileKeys(s.gens, s.pc.next, p, dst);
    assert Closed(s.inodes, s.gens[s.pc.next].files);
  }

  lemma FidelityOpen(c: Config, s: State, p: Path, dst: Ino, now: int, t: State)
    requires Kept(c, s) && OpenNext(s, p, dst, now) == Some(t)
    ensures Fidelity(t)
  {
    OpenAside(c, s, p, dst, now, t);
    FidelityOpenAside(s, p, dst, now, t);
  }

  lemma FidelityOpenAside(s: State, p: Path, dst: Ino, now: int, t: State)
    requires Fidelity(s) && OpenNext(s, p, dst, now) == Some(t) && Aside(s, t)
    requires Closed(s.inodes, s.gens[s.pc.next].files)
    requires t.pc.next in t.gens && t.gens[t.pc.next].files == s.gens[s.pc.next].files[p := dst]
    ensures Fidelity(t)
  {
    FilledOpen(s.inodes, s.live, s.gens[s.pc.next].files, p, dst, now, s.pc.m, s.pc.todo, s.ver);
    FidelityCopied(s, t);
  }

  lemma FilledVanish(inodes: map<Ino, File>, live: map<Path, Ino>, next: map<Path, Ino>, p: Path,
                     m: Manifest, todo: set<Path>, ver: map<(Path, int), Bytes>)
    requires Filled(inodes, live, next, m, todo, None, ver) && p !in live
    ensures Filled(inodes, live, next, m, todo - {p}, None, ver)
  {
  }

  lemma FidelityVanish(c: Config, s: State, p: Path, t: State)
    requires Kept(c, s) && VanishNext(s, p) == Some(t)
    ensures Fidelity(t)
  {
    CurrentClosed(s);
    FilledVanish(s.inodes, s.live, s.gens[s.pc.next].files, p, s.pc.m, s.pc.todo, s.ver);
    FidelityCopied(s, t);
  }

  /** The target of the copy is no live inode, none of `current`, and in the new generation only
      under its own name. */
  lemma DstIsApart(c: Config, s: State)
    requires Structure(c, s) && s.pc.Copying? && s.pc.fd.Some?
    ensures var fd := s.pc.fd.value;
            && (forall p :: p in s.live ==> s.live[p] != fd.dst)
            && (forall p :: p in CurrentFiles(s.gens, s.current) ==> CurrentFiles(s.gens, s.current)[p] != fd.dst)
            && OnlyAt(s.gens[s.pc.next].files, fd.dst, fd.path)
            && fd.src != fd.dst && fd.path in s.pc.todo
            && Closed(s.inodes, s.gens[s.pc.next].files)
            && fd.path in s.gens[s.pc.next].files && s.gens[s.pc.next].files[fd.path] == fd.dst
  {
    assert Closed(s.inodes, s.gens[s.pc.next].files);
  }

  ghost predicate OnlyAt(files: map<Path, Ino>, dst: Ino, path: Path) {
    forall p :: p in files && files[p] == dst ==> p == path
  }

  lemma FilledRead(inodes: map<Ino, File>, live: map<Path, Ino>, next: map<Path, Ino>, m: Manifest,
                   todo: set<Path>, fd: Fd, ver: map<(Path, int), Bytes>, n: nat, now: int)
    requires Filled(inodes, live, next, m, todo, Some(fd), ver) && Closed(inodes, next)
    requires OnlyAt(next, fd.dst, fd.path) && fd.src != fd.dst && fd.path in todo
    requires forall p :: p in live ==> live[p] != fd.dst
    requires fd.off + n <= |inodes[fd.src].data|
    ensures var chunk := inodes[fd.src].data[fd.off..fd.off + n];
            Filled(inodes[fd.dst := File(inodes[fd.dst].data + chunk, now)], live, next, m, todo,
                   Some(fd.(off := fd.off + n)), ver)
  {
    var src := inodes[fd.src].data;
    assert src[..fd.off] + src[fd.off..fd.off + n] == src[..fd.off + n];
  }

  /** A step that writes the target of the copy and moves on. */
  lemma DstAside(c: Config, s: State, f: File, t: State)
    requires Structure(c, s) && s.pc.Copying? && s.pc.fd.Some?
    requires t == s.(inodes := s.inodes[s.pc.fd.value.dst := f], pc := t.pc)
    ensures Aside(s, t)
  {
    CurrentClosed(s);
    DstIsApart(c, s);
  }

  lemma FidelityRead(c: Config, s: State, n: nat, now: int, t: State)
    requires Kept(c, s) && ReadNext(s, n, now) == Some(t)
    ensures Fidelity(t)
  {
    DstAside(c, s, t.inodes[s.pc.fd.value.dst], t);
    DstIsApart(c, s);
    FidelityReadApart(s, n, now, t);
  }

  lemma FidelityReadApart(s: State, n: nat, now: int, t: State)
    requires Fidelity(s) && ReadNext(s, n, now) == Some(t) && Aside(s, t)
    requires Closed(s.inodes, s.gens[s.pc.next].files)
    requires var fd := s.pc.fd.value;
             OnlyAt(s.gens[s.pc.next].files, fd.dst, fd.path) && fd.src != fd.dst && fd.path in s.pc.todo
             && forall p :: p in s.live ==> s.live[p] != fd.dst
    ensures Fidelity(t)
  {
    FilledRead(s.inodes, s.live, s.gens[s.pc.next].files, s.pc.m, s.pc.todo, s.pc.fd.value, s.ver, n, now);
    FidelityCopied(s, t);
  }

  lemma FilledClose(inodes: map<Ino, File>, live: map<Path, Ino>, next: map<Path, Ino>, m: Manifest,
                    todo: set<Path>, fd: Fd, ver: map<(Path, int), Bytes>)
    requires Filled(inodes, live, next, m, todo, Some(fd), ver) && Closed(inodes, next)
    requires OnlyAt(next, fd.dst, fd.path) && fd.src != fd.dst && fd.path in todo
    requires fd.path in next && next[fd.path] == fd.dst
    requires forall p :: p in live ==> live[p] != fd.dst
    requires fd.off >= |inodes[fd.src].data|
    ensures Filled(inodes[fd.dst := File(inodes[fd.dst].data, fd.mtime)], live, next, m, todo - {fd.path}, None, ver)
  {
    var after := inodes[fd.dst := File(inodes[fd.dst].data, fd.mtime)];
    var others := WithoutFd(next, Some(fd));
    assert Faithful(inodes, live, others, ver);
    forall p | p in next
      ensures p != fd.path ==> p in others && others[p] == next[p] && after[next[p]] == inodes[next[p]]
    {
    }
    if fd.path in live && live[fd.path] in inodes && inodes[live[fd.path]].mtime == fd.mtime {
      assert inodes[fd.src].data[..fd.off] == inodes[fd.src].data;
    }
    assert Faithful(after, live, next, ver);
  }

  lemma FidelityClose(c: Config, s: State, t: State)
    requires Kept(c, s) && CloseNext(s) == Some(t)
    ensures Fidelity(t)
  {
    DstAside(c, s, t.inodes[s.pc.fd.value.dst], t);
    DstIsApart(c, s);
    FidelityCloseApart(s, t);
  }

  lemma FidelityCloseApart(s: State, t: State)
    requires Fidelity(s) && CloseNext(s) == Some(t) && Aside(s, t)
    requires Closed(s.inodes, s.gens[s.pc.next].files)
    requires var fd := s.pc.fd.value; var next := s.gens[s.pc.next].files;
             OnlyAt(next, fd.dst, fd.path) && fd.src != fd.dst && fd.path in s.pc.todo
             && fd.path in next && next[fd.path] == fd.dst
             && forall p :: p in s.live ==> s.live[p] != fd.dst
    ensures Fidelity(t)
  {
    FilledClose(s.inodes, s.live, s.gens[s.pc.next].files, s.pc.m, s.pc.todo, s.pc.fd.value, s.ver);
    FidelityCopied(s, t);
  }

  // ---- commit ---------------------------------------------------------------------

  lemma WriteMetaAside(s: State, t: State)
    requires Volume(s) && s.pc.Copying? && s.current != Some(s.pc.next) && WriteMetaNext(s) == Some(t)
    ensures Aside(s, t) && t.gens[t.pc.next].files == s.gens[s.pc.next].files
  {
    CurrentClosed(s);
    assert CurrentFiles(t.gens, t.current) == CurrentFiles(s.gens, s.current);
  }

  lemma FidelityWriteMeta(c: Config, s: State, t: State)
    requires Kept(c, s) && WriteMetaNext(s) == Some(t)
    ensures Fidelity(t)
  {
    WriteMetaAside(s, t);
    FidelityWriteMetaAside(s, t);
  }

  lemma FidelityWriteMetaAside(s: State, t: State)
    requires Fidelity(s) && WriteMetaNext(s) == Some(t) && Aside(s, t)
    requires t.gens[t.pc.next].files == s.gens[s.pc.next].files
    ensures Fidelity(t)
  {
    FidelityCopied(s, t);
  }

  lemma FidelitySymlink(c: Config, s: State, t: State)
    requires Kept(c, s) && SymlinkNext(s) == Some(t)
    ensures Fidelity(t)
  {
    CurrentClosed(s);
    FidelityCopied(s, t);
  }

  lemma FidelityRename(c: Config, s: State, t: State)
    requires Kept(c, s) && RenameNext(c, s) == Some(t)
    ensures Fidelity(t)
  {
    RenameShape(c, s, t);
    assert s.pc.m - s.pc.todo == s.pc.m;
    RenamedPruning(s, t);
  }

  lemma RenameShape(c: Config, s: State, t: State)
    requires Structure(c, s) && RenameNext(c, s) == Some(t)
    ensures s.pc.Copying? && s.pc.fd == None && s.pc.todo == {} && t.pc.Pruning? && t.pc.m == s.pc.m
    ensures s.pc.next in s.gens && CurrentFiles(t.gens, t.current) == s.gens[s.pc.next].files
    ensures s.gens[s.pc.next].files.Keys <= s.pc.m.Keys
    ensures t == s.(current := t.current, tmp := None, pc := t.pc)
    ensures s.phase == Reporting(Running) || s.pc.job != WorkDone
  {
  }

  lemma RenamedPruning(s: State, t: State)
    requires s.pc.Copying? && s.pc.fd == None && Fidelity(s) && s.pc.m - s.pc.todo == s.pc.m
    requires t.pc.Pruning? && t.pc.m == s.pc.m && t == s.(current := t.current, tmp := None, pc := t.pc)
    requires s.pc.next in s.gens && CurrentFiles(t.gens, t.current) == s.gens[s.pc.next].files
    requires s.gens[s.pc.next].files.Keys <= s.pc.m.Keys
    ensures Fidelity(t)
  {
  }

  lemma FidelityPrune(c: Config, s: State, a: Step, t: State)
    requires Kept(c, s) && PruneStep(a) && PruneNext(s, a) == Some(t)
    ensures Fidelity(t)
  {
    PruneSparesCurrent(c, s, a, t);
  }

  lemma PruneSparesCurrent(c: Config, s: State, a: Step, t: State)
    requires s.pc.Pruning? && s.current == Some(s.highest) && s.highest !in s.pc.victims
    requires PruneStep(a) && PruneNext(s, a) == Some(t)
    ensures t.pc.Pruning? && t.pc.m == s.pc.m && t.current == s.current
    ensures CurrentFiles(t.gens, t.current) == CurrentFiles(s.gens, s.current)
    ensures t == s.(gens := t.gens, doomed := t.doomed, pc := t.pc)
  {
  }

  lemma FidelityFinish(c: Config, s: State, t: State)
    requires Kept(c, s) && FinishNext(s) == Some(t)
    ensures Fidelity(t)
    ensures s.calm ==> Durable(t) && t.last == Stamps(t.inodes, t.live)
  {
    if s.calm {
      RememberedIsDurable(s, CurrentFiles(s.gens, s.current), s.pc.m);
    }
  }

  lemma FidelityAbort(c: Config, s: State, t: State)
    requires Kept(c, s) && AbortNext(s) == Some(t)
    ensures Fidelity(t)
  {
  }

  lemma FidelityCrash(c: Config, s: State)
    requires Kept(c, s)
    ensures Fidelity(Reboot(s))
  {
  }

  // ---- every step, every run ------------------------------------------------------

  lemma FidelityScan(c: Config, s: State, a: Step, t: State)
    requires Kept(c, s) && ScanStep(a) && ScanNext(s, a) == Some(t)
    ensures Fidelity(t)
  {
    match a
    case Start(job) => FidelityStart(c, s, job, t);
    case Visit(p) => FidelityVisit(c, s, p, t);
    case Skip => FidelitySkip(c, s, t);
    case Begin =>
      BeginsNext(s, t);
      FidelityBegun(c, s, t);
  }

  lemma FidelityFill(c: Config, s: State, a: Step, t: State)
    requires Kept(c, s) && FillStep(a) && FillNext(s, a) == Some(t)
    ensures Fidelity(t)
  {
    match a
    case Link(p) => FidelityLink(c, s, p, t);
    case Open(p, dst, now) => FidelityOpen(c, s, p, dst, now, t);
    case Vanish(p) => FidelityVanish(c, s, p, t);
    case Read(n, now) => FidelityRead(c, s, n, now, t);
    case Close => FidelityClose(c, s, t);
  }

  lemma FidelityCommit(c: Config, s: State, a: Step, t: State)
    requires Kept(c, s) && CommitStep(a) && CommitNext(c, s, a) == Some(t)
    ensures Fidelity(t)
  {
    match a
    case WriteMeta => FidelityWriteMeta(c, s, t);
    case Symlink => FidelitySymlink(c, s, t);
    case Rename => FidelityRename(c, s, t);
  }

  lemma FidelityRestore(c: Config, s: State, a: Step, t: State)
    requires Kept(c, s) && RestoreStep(a) && RestoreNext(c, s, a) == Some(t)
    ensures Fidelity(t)
  {
    match a
    case RestoreBegin => FidelityRestoreBegin(c, s, t);
    case RestoreFile(p, ino) => FidelityRestoreFile(c, s, p, ino, t);
    case RestoreEnd => FidelityRestoreEnd(c, s, t);
  }

  lemma KeptStep(c: Config, s: State, a: Step, t: State)
    requires Kept(c, s) && Next(c, s, a) == Some(t)
    ensures Kept(c, t)
  {
    StructureStep(c, s, a, t);
    if AgentStep(a) {
      FidelityAgent(c, s, a, t);
    } else if ContractStep(a) {
      FidelityContract(c, s, a, t);
    } else if RestoreStep(a) {
      FidelityRestore(c, s, a, t);
    } else if ScanStep(a) {
      FidelityScan(c, s, a, t);
    } else if FillStep(a) {
      FidelityFill(c, s, a, t);
    } else if CommitStep(a) {
      FidelityCommit(c, s, a, t);
    } else if PruneStep(a) {
      FidelityPrune(c, s, a, t);
    } else if a.Finish? {
      FidelityFinish(c, s, t);
    } else if a.Abort? {
      FidelityAbort(c, s, t);
    } else {
      FidelityCrash(c, s);
    }
  }

  lemma KeptRun(c: Config, s: State, run: seq<Step>, t: State)
    requires Kept(c, s) && Run(c, s, run) == Some(t)
    ensures Kept(c, t)
    decreases |run|
  {
    if run != [] {
      var u := Run(c, s, run[..|run| - 1]).value;
      KeptRun(c, s, run[..|run| - 1], u);
      KeptStep(c, u, run[|run| - 1], t);
    }
  }
}
