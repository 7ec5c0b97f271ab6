/**
 The context-sync sidecar as a state machine: one step per file-system operation of the
 sidecar, per write of the agent, per event of the proxied work contract, and one for a crash
 of the pod. A run is any sequence of enabled steps, so every interleaving of the agent with
 the sidecar, and a crash between any two steps, is a run.
 */
module ContextMachine {
  import opened Wrappers

  newtype byte = x: int | 0 <= x < 256
  type Bytes = seq<byte>
  type Path = string
  type Ino = nat

  /** What a stat shows of a file; also one manifest entry without its path. */
  datatype Stamp = Stamp(size: nat, mtime: int)

  /** An inode. */
  datatype File = File(data: Bytes, mtime: int)

  function StampOf(f: File): Stamp {
    Stamp(|f.data|, f.mtime)
  }

  type Manifest = map<Path, Stamp>

  /** The metadata file of a generation, without its time. */
  datatype Meta = Meta(files: nat, bytes: nat, quiesced: bool)

  /** A generation directory: its files, and its metadata once that was written. */
  datatype Gen = Gen(files: map<Path, Ino>, meta: Option<Meta>)

  /** Why a checkpoint runs. */
  datatype Job = Interval | WorkDone | Shutdown

  /** How far a checkpoint is once every file is in place. */
  datatype Stage = Files | MetaWritten | TmpMade

  /** A file copy in progress: the source descriptor, the mtime its fstat gave, the target. */
  datatype Fd = Fd(path: Path, src: Ino, mtime: int, dst: Ino, off: nat)

  /** Where the one operation holding the syncer's lock is. */
  datatype Pc =
    | Idle
    | Restoring(left: set<Path>)
    | Scanning(job: Job, todo: set<Path>, seen: Manifest)
    | Copying(job: Job, m: Manifest, next: nat, todo: set<Path>, fd: Option<Fd>,
              quiesced: bool, written: nat, stage: Stage)
    | Pruning(job: Job, m: Manifest, victims: set<nat>)

  /** How far the completion report being proxied is. */
  datatype Report = Arrived | Marked | Running | Ready(ok: bool)

  /** The runtime's side of the work contract; a serial runtime has one request in flight. */
  datatype Phase = Free | Asking | Reporting(report: Report)

  /** The deployment: how many generations to retain, and three facts about its environment.
      `fine`: every change of a live file gives an mtime that path never had; otherwise only
      the pair (size, mtime) is new to the path.
      `cleanStart`: whenever a restore begins, every file already live is in `current`.
      `still`: the agent takes no step while a copy labelled quiesced is being filled. */
  datatype Config = Config(retain: int, fine: bool, cleanStart: bool, still: bool)

  datatype State = State(
    // the durable volume
    inodes: map<Ino, File>, gens: map<nat, Gen>, current: Option<nat>, tmp: Option<nat>,
    // pod-local storage
    live: map<Path, Ino>,
    // the sidecar's memory
    last: Manifest, restored: bool, inflight: bool, pc: Pc,
    // the runtime
    phase: Phase, handed: bool,
    // history, read by no step of the sidecar: no agent step since the job began; the content
    // each live path had at each mtime; every stamp seen on a path; what each generation held
    // when its metadata was written; generations a prune began to remove; the highest number
    calm: bool, ver: map<(Path, int), Bytes>, pairs: set<(Path, Stamp)>,
    sealed: map<nat, map<Path, File>>, doomed: set<nat>, highest: nat)

  const META_FILE := ".context-sync.json"

  /** The last component of a slash-separated path. */
  function Base(p: Path): Path {
    if p == "" then ""
    else if p[|p| - 1] == '/' then ""
    else Base(p[..|p| - 1]) + [p[|p| - 1]]
  }

  predicate IsMeta(p: Path) {
    Base(p) == META_FILE
  }

  /** The files `current` leads to; a missing or dangling link reads as an empty store. */
  function CurrentFiles(gens: map<nat, Gen>, current: Option<nat>): map<Path, Ino> {
    if current.Some? && current.value in gens then gens[current.value].files else map[]
  }

  /** A directory with its inodes looked up. */
  function View(inodes: map<Ino, File>, files: map<Path, Ino>): map<Path, File> {
    map p | p in files && files[p] in inodes :: inodes[files[p]]
  }

  function Stamps(inodes: map<Ino, File>, files: map<Path, Ino>): Manifest {
    map p | p in files && files[p] in inodes :: StampOf(inodes[files[p]])
  }

  // ---- generation numbers ---------------------------------------------------------

  ghost predicate IsMin(m: nat, s: set<nat>) {
    m in s && forall x :: x in s ==> m <= x
  }

  ghost function Min(s: set<nat>): (m: nat)
    requires s != {}
    ensures IsMin(m, s)
  {
    MinExists(s);
    var m :| IsMin(m, s);
    m
  }

  lemma MinExists(s: set<nat>)
    requires s != {}
    ensures exists m :: IsMin(m, s)
  {
    var y :| y in s;
    if s == {y} {
      assert IsMin(y, s);
    } else {
      MinExists(s - {y});
      var m :| IsMin(m, s - {y});
      assert forall x :: x in s ==> x == y || x in s - {y};
      assert IsMin(if y <= m then y else m, s);
    }
  }

  ghost predicate IsMax(m: nat, s: set<nat>) {
    m in s && forall x :: x in s ==> x <= m
  }

  lemma MaxExists(s: set<nat>)
    requires s != {}
    ensures exists m :: IsMax(m, s)
  {
    var y :| y in s;
    if s == {y} {
      assert IsMax(y, s);
    } else {
      MaxExists(s - {y});
      var m :| IsMax(m, s - {y});
      assert forall x :: x in s ==> x == y || x in s - {y};
      assert IsMax(if y >= m then y else m, s);
    }
  }

  /** One more than the highest number in use, starting at 1. */
  ghost function NextNumber(s: set<nat>): (n: nat)
    ensures if s == {} then n == 1 else n >= 1 && IsMax(n - 1, s)
  {
    if s == {} then 1
    else
      MaxExists(s);
      var m: nat :| IsMax(m, s);
      m + 1
  }

  /** The n lowest numbers of s. */
  ghost function Oldest(s: set<nat>, n: int): (r: set<nat>)
    ensures r <= s
    decreases s
  {
    if n <= 0 || s == {} then {} else {Min(s)} + Oldest(s - {Min(s)}, n - 1)
  }

  function Keep(retain: int): nat {
    if retain < 1 then 1 else retain
  }

  /** What a prune removes: the oldest generations beyond Retain, never the current one. */
  ghost function Victims(s: set<nat>, retain: int, current: Option<nat>): set<nat> {
    var oldest := Oldest(s, |s| - Keep(retain));
    if current.Some? then oldest - {current.value} else oldest
  }

  // ---- steps ----------------------------------------------------------------------

  datatype Step =
    // the agent
    | Write(p: Path, data: Bytes, t: int)
    | Put(p: Path, ino: Ino, data: Bytes, t: int)
    | Delete(p: Path)
    | Move(p: Path, q: Path)
    // the work contract
    | Ask | Refuse | RestoreBegin | RestoreFile(p: Path, ino: Ino) | RestoreEnd | HandOut
    | Report | MarkDone | Forward
    // a checkpoint
    | Start(job: Job) | Visit(p: Path) | Skip | Begin
    | Link(p: Path) | Open(p: Path, dst: Ino, now: int) | Vanish(p: Path)
    | Read(n: nat, now: int) | Close
    | WriteMeta | Symlink | Rename
    | RemoveEntry(g: nat, entry: Option<Path>) | RemoveDir(g: nat) | Finish
    | Abort
    // the pod
    | Crash

  predicate AgentStep(a: Step) {
    a.Write? || a.Put? || a.Delete? || a.Move?
  }

  /** May a live file appear at p with this stamp? */
  predicate Fresh(c: Config, s: State, p: Path, st: Stamp) {
    if c.fine then (p, st.mtime) !in s.ver else (p, st) !in s.pairs
  }

  /** May the agent act? Not while the runtime waits for the sidecar; and under `still` not while
      a generation that will say it is quiesced is filled. */
  predicate AgentMay(c: Config, s: State) {
    s.phase == Free && !(c.still && s.pc.Copying? && s.pc.quiesced)
  }

  function NoteVersion(s: State, p: Path, f: File): State {
    s.(ver := s.ver[(p, f.mtime) := f.data], pairs := s.pairs + {(p, StampOf(f))}, calm := false)
  }

  // The agent: an in-place write, a new file or one renamed over it from outside the tree, an
  // unlink, and a rename inside the tree.

  function WriteNext(c: Config, s: State, p: Path, data: Bytes, t: int): Option<State> {
    if AgentMay(c, s) && p in s.live && Fresh(c, s, p, Stamp(|data|, t)) then
      Some(NoteVersion(s.(inodes := s.inodes[s.live[p] := File(data, t)]), p, File(data, t)))
    else None
  }

  function PutNext(c: Config, s: State, p: Path, ino: Ino, data: Bytes, t: int): Option<State> {
    if AgentMay(c, s) && ino !in s.inodes && !IsMeta(p) && Fresh(c, s, p, Stamp(|data|, t)) then
      Some(NoteVersion(s.(inodes := s.inodes[ino := File(data, t)], live := s.live[p := ino]),
                       p, File(data, t)))
    else None
  }

  function DeleteNext(c: Config, s: State, p: Path): Option<State> {
    if AgentMay(c, s) && p in s.live then Some(s.(live := s.live - {p}, calm := false)) else None
  }

  function MoveNext(c: Config, s: State, p: Path, q: Path): Option<State> {
    if AgentMay(c, s) && p in s.live && p != q && !IsMeta(q) && s.live[p] in s.inodes
       && Fresh(c, s, q, StampOf(s.inodes[s.live[p]])) then
      Some(NoteVersion(s.(live := (s.live - {p})[q := s.live[p]]), q, s.inodes[s.live[p]]))
    else None
  }

  // The work contract, and the restore the first work request waits for.

  function AskNext(s: State): Option<State> {
    if s.phase == Free then Some(s.(phase := Asking)) else None
  }

  function RefuseNext(s: State): Option<State> {
    if s.phase == Asking && !s.restored && s.pc == Idle then Some(s.(phase := Free)) else None
  }

  function RestoreBeginNext(c: Config, s: State): Option<State> {
    var files := CurrentFiles(s.gens, s.current);
    if s.phase == Asking && !s.restored && s.pc == Idle && (c.cleanStart ==> s.live.Keys <= files.Keys) then
      Some(s.(pc := Restoring(set p | p in files && !IsMeta(p))))
    else None
  }

  /** Put a durable file into the live tree: over the live inode when there is one. */
  function RestoreFileNext(s: State, p: Path, ino: Ino): Option<State> {
    var files := CurrentFiles(s.gens, s.current);
    if s.pc.Restoring? && p in s.pc.left && p in files && files[p] in s.inodes
       && (if p in s.live then ino == s.live[p] else ino !in s.inodes) then
      var f := s.inodes[files[p]];
      Some(s.(inodes := s.inodes[ino := f], live := s.live[p := ino],
              pc := Restoring(s.pc.left - {p}),
              ver := s.ver[(p, f.mtime) := f.data], pairs := s.pairs + {(p, StampOf(f))}))
    else None
  }

  function RestoreEndNext(s: State): Option<State> {
    if s.pc == Restoring({}) then
      Some(s.(pc := Idle, restored := true, last := Stamps(s.inodes, s.live)))
    else None
  }

  function HandOutNext(s: State): Option<State> {
    if s.phase == Asking && s.restored then
      Some(s.(phase := Free, inflight := true, handed := true))
    else None
  }

  function ReportNext(s: State): Option<State> {
    if s.phase == Free && s.handed then Some(s.(phase := Reporting(Arrived))) else None
  }

  function MarkDoneNext(s: State): Option<State> {
    if s.phase == Reporting(Arrived) then
      Some(s.(phase := Reporting(Marked), inflight := false))
    else None
  }

  function ForwardNext(s: State): Option<State> {
    if s.phase.Reporting? && s.phase.report.Ready? then Some(s.(phase := Free)) else None
  }

  // A checkpoint: the scan.

  /** The job is over; a completion report waiting on it may go on. */
  function EndJob(s: State, job: Job, ok: bool): State {
    s.(pc := Idle, phase := if job == WorkDone then Reporting(Ready(ok)) else s.phase)
  }

  function StartNext(s: State, job: Job): Option<State> {
    if s.pc == Idle && (job == WorkDone ==> s.phase == Reporting(Marked)) then
      Some(s.(pc := Scanning(job, s.live.Keys, map[]), calm := true,
              phase := if job == WorkDone then Reporting(Running) else s.phase))
    else None
  }

  /** What a walk knows after it came to p: a file gone by then is passed over. */
  function Looked(inodes: map<Ino, File>, live: map<Path, Ino>, p: Path, seen: Manifest): Manifest {
    if p in live && live[p] in inodes then seen[p := StampOf(inodes[live[p]])] else seen
  }

  function VisitNext(s: State, p: Path): Option<State> {
    if s.pc.Scanning? && (p in s.live ==> s.live[p] in s.inodes) then
      Some(s.(pc := Scanning(s.pc.job, s.pc.todo - {p}, Looked(s.inodes, s.live, p, s.pc.seen))))
    else None
  }

  /** The state in which filling generation n begins. */
  function Begun(s: State, n: nat): State
    requires s.pc.Scanning?
  {
    s.(gens := s.gens[n := Gen(map[], None)], highest := n,
       pc := Copying(s.pc.job, s.pc.seen, n, s.pc.seen.Keys, None, !s.inflight, 0, Files))
  }

  /** The scan found what is remembered: nothing is written. */
  function SkipNext(s: State): Option<State> {
    if s.pc.Scanning? && s.pc.todo == {} && s.pc.seen == s.last then Some(EndJob(s, s.pc.job, true)) else None
  }

  /** The scan found a change: the next directory is made. */
  ghost function BeginNext(s: State): Option<State> {
    if s.pc.Scanning? && s.pc.todo == {} && s.pc.seen != s.last then Some(Begun(s, NextNumber(s.gens.Keys)))
    else None
  }

  // A checkpoint: filling the new generation, one entry at a time.

  /** Does the previous generation hold this entry unchanged? */
  predicate Linkable(s: State, p: Path, st: Stamp) {
    var files := CurrentFiles(s.gens, s.current);
    p in files && files[p] in s.inodes && StampOf(s.inodes[files[p]]) == st
  }

  predicate BetweenFiles(s: State, p: Path) {
    s.pc.Copying? && s.pc.fd == None && p in s.pc.todo && p in s.pc.m && s.pc.next in s.gens
  }

  function AddFile(gens: map<nat, Gen>, next: nat, p: Path, ino: Ino): map<nat, Gen>
    requires next in gens
  {
    gens[next := gens[next].(files := gens[next].files[p := ino])]
  }

  function LinkNext(s: State, p: Path): Option<State> {
    if BetweenFiles(s, p) && Linkable(s, p, s.pc.m[p]) then
      Some(s.(gens := AddFile(s.gens, s.pc.next, p, CurrentFiles(s.gens, s.current)[p]),
              pc := s.pc.(todo := s.pc.todo - {p})))
    else None
  }

  function OpenNext(s: State, p: Path, dst: Ino, now: int): Option<State> {
    if BetweenFiles(s, p) && p in s.live && s.live[p] in s.inodes && dst !in s.inodes then
      Some(s.(inodes := s.inodes[dst := File([], now)], gens := AddFile(s.gens, s.pc.next, p, dst),
              pc := s.pc.(fd := Some(Fd(p, s.live[p], s.inodes[s.live[p]].mtime, dst, 0)))))
    else None
  }

  function VanishNext(s: State, p: Path): Option<State> {
    if BetweenFiles(s, p) && p !in s.live then Some(s.(pc := s.pc.(todo := s.pc.todo - {p}))) else None
  }

  predicate Opened(s: State) {
    s.pc.Copying? && s.pc.fd.Some? && s.pc.fd.value.src in s.inodes && s.pc.fd.value.dst in s.inodes
  }

  function ReadNext(s: State, n: nat, now: int): Option<State> {
    if Opened(s) && s.pc.fd.value.off + n <= |s.inodes[s.pc.fd.value.src].data| then
      var fd := s.pc.fd.value;
      var chunk := s.inodes[fd.src].data[fd.off..fd.off + n];
      Some(s.(inodes := s.inodes[fd.dst := File(s.inodes[fd.dst].data + chunk, now)],
              pc := s.pc.(fd := Some(fd.(off := fd.off + n)))))
    else None
  }

  function CloseNext(s: State): Option<State> {
    if Opened(s) && s.pc.fd.value.off >= |s.inodes[s.pc.fd.value.src].data| then
      var fd := s.pc.fd.value;
      Some(s.(inodes := s.inodes[fd.dst := File(s.inodes[fd.dst].data, fd.mtime)],
              pc := s.pc.(fd := None, todo := s.pc.todo - {fd.path}, written := s.pc.written + fd.off)))
    else None
  }

  // A checkpoint: the commit and the prune.

  function WriteMetaNext(s: State): Option<State> {
    if s.pc.Copying? && s.pc.todo == {} && s.pc.fd == None && s.pc.stage == Files && s.pc.next in s.gens then
      var meta := Meta(|s.pc.m|, s.pc.written, s.pc.quiesced);
      Some(s.(gens := s.gens[s.pc.next := s.gens[s.pc.next].(meta := Some(meta))],
              sealed := s.sealed[s.pc.next := View(s.inodes, s.gens[s.pc.next].files)],
              pc := s.pc.(stage := MetaWritten)))
    else None
  }

  function SymlinkNext(s: State): Option<State> {
    if s.pc.Copying? && s.pc.stage == MetaWritten then
      Some(s.(tmp := Some(s.pc.next), pc := s.pc.(stage := TmpMade)))
    else None
  }

  ghost function RenameNext(c: Config, s: State): Option<State> {
    if s.pc.Copying? && s.pc.stage == TmpMade then
      Some(s.(current := Some(s.pc.next), tmp := None,
              pc := Pruning(s.pc.job, s.pc.m, Victims(s.gens.Keys, c.retain, Some(s.pc.next)))))
    else None
  }

  function RemoveEntryNext(s: State, g: nat, entry: Option<Path>): Option<State> {
    if s.pc.Pruning? && g in s.pc.victims && g in s.gens then
      Some(s.(gens := s.gens[g := if entry.Some? then s.gens[g].(files := s.gens[g].files - {entry.value})
                                  else s.gens[g].(meta := None)],
              doomed := s.doomed + {g}))
    else None
  }

  function RemoveDirNext(s: State, g: nat): Option<State> {
    if s.pc.Pruning? && g in s.pc.victims && g in s.gens then
      Some(s.(gens := s.gens - {g}, doomed := s.doomed + {g}, pc := s.pc.(victims := s.pc.victims - {g})))
    else None
  }

  function FinishNext(s: State): Option<State> {
    if s.pc.Pruning? && s.pc.victims == {} then Some(EndJob(s, s.pc.job, true).(last := s.pc.m)) else None
  }

  /** An input/output error before the new generation became current: the checkpoint gives up. */
  function AbortNext(s: State): Option<State> {
    if s.pc.Scanning? || s.pc.Copying? then Some(EndJob(s, s.pc.job, false)) else None
  }

  /** The pod dies: pod-local storage and every process's memory are gone. */
  function Reboot(s: State): State {
    s.(live := map[], last := map[], restored := false, inflight := false, pc := Idle,
       phase := Free, handed := false, calm := false)
  }

  predicate ContractStep(a: Step) {
    a.Ask? || a.Refuse? || a.HandOut? || a.Report? || a.MarkDone? || a.Forward?
  }

  predicate RestoreStep(a: Step) {
    a.RestoreBegin? || a.RestoreFile? || a.RestoreEnd?
  }

  predicate ScanStep(a: Step) {
    a.Start? || a.Visit? || a.Skip? || a.Begin?
  }

  predicate FillStep(a: Step) {
    a.Link? || a.Open? || a.Vanish? || a.Read? || a.Close?
  }

  predicate CommitStep(a: Step) {
    a.WriteMeta? || a.Symlink? || a.Rename?
  }

  predicate PruneStep(a: Step) {
    a.RemoveEntry? || a.RemoveDir?
  }

  function AgentNext(c: Config, s: State, a: Step): Option<State>
    requires AgentStep(a)
  {
    match a
    case Write(p, data, t) => WriteNext(c, s, p, data, t)
    case Put(p, ino, data, t) => PutNext(c, s, p, ino, data, t)
    case Delete(p) => DeleteNext(c, s, p)
    case Move(p, q) => MoveNext(c, s, p, q)
  }

  function ContractNext(s: State, a: Step): Option<State>
    requires ContractStep(a)
  {
    match a
    case Ask => AskNext(s)
    case Refuse => RefuseNext(s)
    case HandOut => HandOutNext(s)
    case Report => ReportNext(s)
    case MarkDone => MarkDoneNext(s)
    case Forward => ForwardNext(s)
  }

  function RestoreNext(c: Config, s: State, a: Step): Option<State>
    requires RestoreStep(a)
  {
    match a
    case RestoreBegin => RestoreBeginNext(c, s)
    case RestoreFile(p, ino) => RestoreFileNext(s, p, ino)
    case RestoreEnd => RestoreEndNext(s)
  }

  ghost function ScanNext(s: State, a: Step): Option<State>
    requires ScanStep(a)
  {
    match a
    case Start(job) => StartNext(s, job)
    case Visit(p) => VisitNext(s, p)
    case Skip => SkipNext(s)
    case Begin => BeginNext(s)
  }

  function FillNext(s: State, a: Step): Option<State>
    requires FillStep(a)
  {
    match a
    case Link(p) => LinkNext(s, p)
    case Open(p, dst, now) => OpenNext(s, p, dst, now)
    case Vanish(p) => VanishNext(s, p)
    case Read(n, now) => ReadNext(s, n, now)
    case Close => CloseNext(s)
  }

  ghost function CommitNext(c: Config, s: State, a: Step): Option<State>
    requires CommitStep(a)
  {
    match a
    case WriteMeta => WriteMetaNext(s)
    case Symlink => SymlinkNext(s)
    case Rename => RenameNext(c, s)
  }

  function PruneNext(s: State, a: Step): Option<State>
    requires PruneStep(a)
  {
    match a
    case RemoveEntry(g, entry) => RemoveEntryNext(s, g, entry)
    case RemoveDir(g) => RemoveDirNext(s, g)
  }

  ghost function Next(c: Config, s: State, a: Step): Option<State> {
    if AgentStep(a) then AgentNext(c, s, a)
    else if ContractStep(a) then ContractNext(s, a)
    else if RestoreStep(a) then RestoreNext(c, s, a)
    else if ScanStep(a) then ScanNext(s, a)
    else if FillStep(a) then FillNext(s, a)
    else if CommitStep(a) then CommitNext(c, s, a)
    else if PruneStep(a) then PruneNext(s, a)
    else if a.Finish? then FinishNext(s)
    else if a.Abort? then AbortNext(s)
    else Some(Reboot(s))
  }

  /** The state a run leads to, if every one of its steps was enabled. */
  ghost function Run(c: Config, s: State, run: seq<Step>): Option<State>
    decreases |run|
  {
    if run == [] then Some(s)
    else
      var t := Run(c, s, run[..|run| - 1]);
      if t.None? then None else Next(c, t.value, run[|run| - 1])
  }

  /** A pod that never ran before, on an empty volume. */
  const EMPTY := State(map[], map[], None, None, map[], map[], false, false, Idle, Free, false,
                       false, map[], {}, map[], {}, 0)
}
