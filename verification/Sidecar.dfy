/**
 The sidecar's own code. `Store`, `syncer` and `Proxy` hold one object each for the life of a
 pod, so their state is the fields of one class here. Between any two file-system operations
 the environment may act: the agent writes, the runtime's requests move on. `world` is the
 state of ContextMachine the object is in; `Valid` ties the fields to it, and every method moves
 it by enabled steps only, so what is proved of runs holds wherever the code is.
 */
module Sidecar {
  import opened Wrappers
  import opened ContextMachine
  import opened ContextInvariant
  import opened ContextFidelity
  import opened ContextMemory
  import opened ContextTheorems

  /** The elements of a sequence. */
  ghost function Elements<T>(s: seq<T>): set<T> {
    set x | x in s
  }

  ghost predicate Ascending(s: seq<nat>) {
    forall i, j :: 0 <= i < j < |s| ==> s[i] < s[j]
  }

  lemma MinIsUnique(m: nat, s: set<nat>)
    requires IsMin(m, s)
    ensures Min(s) == m
  {
  }

  lemma HeadIsMin(s: seq<nat>)
    requires Ascending(s) && s != []
    ensures Elements(s) == {s[0]} + Elements(s[1..]) && s[0] !in s[1..] && Min(Elements(s)) == s[0]
  {
    assert s == [s[0]] + s[1..];
    forall x | x in Elements(s)
      ensures s[0] <= x
    {
    }
    MinIsUnique(s[0], Elements(s));
  }

  lemma AscendingSize(s: seq<nat>)
    requires Ascending(s)
    ensures |Elements(s)| == |s|
  {
    if s != [] {
      HeadIsMin(s);
      AscendingSize(s[1..]);
    }
  }

  lemma ElementsOfPrefix(s: seq<nat>, n: nat)
    requires 0 < n <= |s|
    ensures Elements(s[..n]) == {s[0]} + Elements(s[1..][..n - 1])
  {
    assert s[..n] == [s[0]] + s[1..][..n - 1];
  }

  /** The first n of a sorted listing are the n lowest numbers. */
  lemma {:induction false} PrefixIsOldest(s: seq<nat>, n: nat)
    requires Ascending(s) && n <= |s|
    ensures Elements(s[..n]) == Oldest(Elements(s), n)
  {
    if n > 0 {
      HeadIsMin(s);
      TailIsRest(s);
      PrefixIsOldest(s[1..], n - 1);
      ElementsOfPrefix(s, n);
    }
  }

  lemma TailIsRest(s: seq<nat>)
    requires Ascending(s) && s != []
    ensures Elements(s) - {s[0]} == Elements(s[1..])
  {
    HeadIsMin(s);
  }

  /** The lowest number of a set. */
  method Lowest(s: set<nat>) returns (m: nat)
    requires s != {}
    ensures IsMin(m, s)
  {
    m :| m in s;
    var left := s - {m};
    while left != {}
      invariant left <= s && m in s && forall x :: x in s && x !in left ==> m <= x
      decreases left
    {
      var x :| x in left;
      if x < m {
        m := x;
      }
      left := left - {x};
    }
  }

  /** Names a state whose shape is asked for; see OnRun. */
  predicate At(s: State) {
    true
  }

  /** On a run: `reach` holds of the state, holds at the start, is kept by every step, and gives
      every state it holds of the shape of a reachable state. */
  ghost predicate OnRun(c: Config, reach: State -> bool, s: State) {
    && Inductive(c, reach) && reach(s)
    && forall u {:trigger At(u)} :: At(u) && reach(u) ==> Structure(c, u)
  }

  /** Being reached by a run is such a property, so a sidecar can be built for every
      configuration, and the states it is in are those runs reach. */
  lemma RunsAreOnRun(c: Config)
    ensures OnRun(c, s => Reaches(c, s), EMPTY)
  {
    ReachesIsInductive(c);
    forall u | At(u) && Reaches(c, u)
      ensures Structure(c, u)
    {
      ReachedStructure(c, u);
    }
  }

  lemma HasShape(c: Config, reach: State -> bool, s: State)
    requires OnRun(c, reach, s)
    ensures Structure(c, s)
  {
    assert At(s);
  }

  lemma AgentStays(c: Config, reach: State -> bool, s: State, a: Step, t: State)
    requires OnRun(c, reach, s) && AgentStep(a) && AgentNext(c, s, a) == Some(t)
    ensures OnRun(c, reach, t) && Beside(s, t)
    ensures t == s.(inodes := t.inodes, live := t.live, ver := t.ver, pairs := t.pairs, calm := t.calm)
  {
    AgentIsFree(c, s, a, t);
    AgentSpares(c, reach, s, a, t);
    var _ := Agent(c, reach, s, a);
  }

  lemma AgentSpares(c: Config, reach: State -> bool, s: State, a: Step, t: State)
    requires OnRun(c, reach, s) && AgentStep(a) && AgentNext(c, s, a) == Some(t)
    ensures Spared(s.inodes, s.live, t.inodes, t.live)
  {
    HasShape(c, reach, s);
    AgentChangesTree(c, s, a, t);
  }

  lemma ContractStays(c: Config, reach: State -> bool, s: State, a: Step, t: State)
    requires OnRun(c, reach, s) && ContractStep(a) && ContractNext(s, a) == Some(t)
    ensures OnRun(c, reach, t)
    ensures t == s.(phase := t.phase, inflight := t.inflight, handed := t.handed)
  {
    var _ := Contract(c, reach, s, a);
  }

  lemma RestoreStays(c: Config, reach: State -> bool, s: State, a: Step, t: State)
    requires OnRun(c, reach, s) && RestoreStep(a) && RestoreNext(c, s, a) == Some(t)
    ensures OnRun(c, reach, t)
  {
    assert Next(c, s, a) == Some(t);
  }

  lemma ScanStays(c: Config, reach: State -> bool, s: State, a: Step, t: State)
    requires OnRun(c, reach, s) && ScanStep(a) && ScanNext(s, a) == Some(t)
    ensures OnRun(c, reach, t)
  {
    var _ := Scan(c, reach, s, a);
  }

  lemma FillStays(c: Config, reach: State -> bool, s: State, a: Step, t: State)
    requires OnRun(c, reach, s) && FillStep(a) && FillNext(s, a) == Some(t)
    ensures OnRun(c, reach, t)
  {
    var _ := Fill(c, reach, s, a);
  }

  lemma CommitStays(c: Config, reach: State -> bool, s: State, a: Step, t: State)
    requires OnRun(c, reach, s) && CommitStep(a) && CommitNext(c, s, a) == Some(t)
    ensures OnRun(c, reach, t)
  {
    assert Next(c, s, a) == Some(t);
  }

  lemma PruneStays(c: Config, reach: State -> bool, s: State, a: Step, t: State)
    requires OnRun(c, reach, s) && PruneStep(a) && PruneNext(s, a) == Some(t)
    ensures OnRun(c, reach, t)
  {
    assert Next(c, s, a) == Some(t);
  }

  lemma EndStays(c: Config, reach: State -> bool, s: State, a: Step, t: State)
    requires OnRun(c, reach, s)
    requires (a.Finish? && FinishNext(s) == Some(t)) || (a.Abort? && AbortNext(s) == Some(t))
    ensures OnRun(c, reach, t)
  {
    assert Next(c, s, a) == Some(t);
  }

  /** Only live inodes changed, and no inode that was there came to be live. */
  ghost predicate Spared(inodes: map<Ino, File>, live: map<Path, Ino>, inodes': map<Ino, File>, live': map<Path, Ino>) {
    && inodes.Keys <= inodes'.Keys
    && (forall i :: i in inodes && i !in live.Values ==> inodes'[i] == inodes[i] && i !in live'.Values)
  }

  /** What the environment leaves alone: everything while the runtime waits for its report. */
  ghost predicate Beside(s: State, t: State) {
    && t.gens == s.gens && t.current == s.current && t.last == s.last && t.restored == s.restored && t.pc == s.pc
    && t.highest == s.highest && Spared(s.inodes, s.live, t.inodes, t.live)
    && (s.phase == Reporting(Running) ==> t == s)
  }

  /** What a job leaves alone until its rename: what is current and what is remembered. */
  ghost predicate Uncommitted(s: State, t: State) {
    && t.current == s.current && t.last == s.last
    && (s.phase == Reporting(Running) ==> t.phase == s.phase)
  }

  /** A new generation being filled, between two files. */
  ghost predicate Filling(s: State, job: Job, m: Manifest, next: nat, todo: set<Path>) {
    && s.pc.Copying? && s.pc.job == job && s.pc.m == m && s.pc.next == next && s.pc.todo == todo
    && s.pc.fd == None && s.pc.stage == Files
  }

  /** A file of the new generation being copied. */
  ghost predicate Copies(s: State, job: Job, m: Manifest, next: nat, todo: set<Path>, fd: Fd) {
    && s.pc.Copying? && s.pc.job == job && s.pc.m == m && s.pc.next == next && s.pc.todo == todo
    && s.pc.fd == Some(fd) && s.pc.stage == Files
  }

  lemma BetweenEnabled(c: Config, reach: State -> bool, s: State, p: Path)
    requires OnRun(c, reach, s) && s.pc.Copying? && s.pc.fd == None && p in s.pc.todo
    ensures BetweenFiles(s, p)
  {
    HasShape(c, reach, s);
  }

  lemma LinkEnabled(c: Config, reach: State -> bool, s: State, p: Path)
    requires OnRun(c, reach, s) && s.pc.Copying? && s.pc.fd == None && p in s.pc.todo
    requires p in s.pc.m ==> Linkable(s, p, s.pc.m[p])
    ensures BetweenFiles(s, p) && LinkNext(s, p).Some?
  {
    HasShape(c, reach, s);
  }

  lemma OpenEnabled(c: Config, reach: State -> bool, s: State, p: Path)
    requires OnRun(c, reach, s) && s.pc.Copying? && s.pc.fd == None && p in s.pc.todo && p in s.live
    ensures BetweenFiles(s, p) && s.live[p] in s.inodes
  {
    HasShape(c, reach, s);
  }

  lemma LiveIsThere(c: Config, reach: State -> bool, s: State)
    requires OnRun(c, reach, s)
    ensures Closed(s.inodes, s.live)
  {
    HasShape(c, reach, s);
  }

  lemma FdEnabled(c: Config, reach: State -> bool, s: State)
    requires OnRun(c, reach, s) && s.pc.Copying? && s.pc.fd.Some?
    ensures Opened(s)
  {
    HasShape(c, reach, s);
  }

  lemma SourceIsThere(c: Config, reach: State -> bool, s: State)
    requires OnRun(c, reach, s) && s.pc.Copying?
    ensures s.pc.fd.Some? ==> s.pc.fd.value.src in s.inodes
  {
    HasShape(c, reach, s);
  }

  lemma LastIsMax(gs: seq<nat>)
    requires Ascending(gs) && gs != []
    ensures IsMax(gs[|gs| - 1], Elements(gs))
    ensures NextNumber(Elements(gs)) == gs[|gs| - 1] + 1
  {
    assert gs[|gs| - 1] in Elements(gs);
  }

  lemma BeginEnabled(c: Config, reach: State -> bool, s: State, next: nat)
    requires OnRun(c, reach, s) && s.pc.Scanning? && s.pc.todo == {} && s.pc.seen != s.last
    requires next == NextNumber(s.gens.Keys)
    ensures BeginNext(s) == Some(Begun(s, next)) && next == s.highest + 1
  {
    HasShape(c, reach, s);
    BeginsNext(s, Begun(s, next));
  }

  lemma MetaEnabled(c: Config, reach: State -> bool, s: State)
    requires OnRun(c, reach, s) && s.pc.Copying? && s.pc.todo == {} && s.pc.fd == None && s.pc.stage == Files
    ensures WriteMetaNext(s).Some?
  {
    HasShape(c, reach, s);
  }

  /** The first n of a listing but the current one. */
  ghost function Listed(gs: seq<nat>, n: nat, current: Option<nat>): set<nat>
    requires n <= |gs|
  {
    if current.Some? then Elements(gs[..n]) - {current.value} else Elements(gs[..n])
  }

  lemma ListedStep(gs: seq<nat>, n: nat, current: Option<nat>)
    requires n < |gs|
    ensures Listed(gs, n + 1, current) == Listed(gs, n, current) + if Some(gs[n]) == current then {} else {gs[n]}
  {
    assert gs[..n + 1] == gs[..n] + [gs[n]];
    assert Elements(gs[..n + 1]) == Elements(gs[..n]) + {gs[n]};
  }

  lemma ListedIsNew(gs: seq<nat>, n: nat, current: Option<nat>)
    requires Ascending(gs) && n < |gs|
    ensures gs[n] !in Listed(gs, n, current)
  {
  }

  /** How many of a listing a prune looks at. */
  function Surplus(size: nat, retain: int): nat {
    if size < Keep(retain) then 0 else size - Keep(retain)
  }

  /** What a prune removes, read off the sorted listing. */
  lemma VictimsAreListed(gs: seq<nat>, retain: int, current: Option<nat>)
    requires Ascending(gs)
    ensures Victims(Elements(gs), retain, current) == Listed(gs, Surplus(|gs|, retain), current)
  {
    AscendingSize(gs);
    PrefixIsOldest(gs, Surplus(|gs|, retain));
  }

  /** A listed generation that is not current is a victim, and not removed yet. */
  lemma NextVictim(gs: seq<nat>, i: nat, retain: int, current: Option<nat>)
    requires Ascending(gs) && i < Surplus(|gs|, retain)
    ensures Listed(gs, i + 1, current) == Listed(gs, i, current) + if Some(gs[i]) == current then {} else {gs[i]}
    ensures Some(gs[i]) != current ==>
              gs[i] in Listed(gs, Surplus(|gs|, retain), current) && gs[i] in Elements(gs) && gs[i] !in Listed(gs, i, current)
  {
    ListedStep(gs, i, current);
    ListedIsNew(gs, i, current);
    var n := Surplus(|gs|, retain);
    assert gs[..n][i] == gs[i];
  }

  lemma PrunedShape(c: Config, reach: State -> bool, s: State)
    requires OnRun(c, reach, s) && s.pc.Pruning? && s.pc.victims == {}
    ensures s.current == Some(s.highest) && s.highest in s.gens && |s.gens| <= Keep(c.retain)
  {
    HasShape(c, reach, s);
    assert s.gens.Keys - {} == s.gens.Keys;
    assert |s.gens.Keys| == |s.gens|;
  }

  // ---- what a restore leaves ------------------------------------------------------

  /** The tree after a restore: the generation's files, bar those named as the metadata file is,
      over what was live. */
  function Restored(was: map<Path, File>, gen: map<Path, File>): map<Path, File> {
    was + map p | p in gen && !IsMeta(p) :: gen[p]
  }

  /** A restore into an empty tree gives the generation back exactly when no file of it is named
      as the metadata file is. */
  lemma RestoredExactlyWhen(gen: map<Path, File>)
    ensures Restored(map[], gen) == gen <==> NoMeta(gen.Keys)
  {
    if Restored(map[], gen) == gen {
      forall p | p in gen
        ensures !IsMeta(p)
      {
        assert p in Restored(map[], gen);
      }
    }
  }

  /** The part of a generation that is back once only these are left. */
  ghost function PutBack(gen: map<Path, File>, left: set<Path>): map<Path, File> {
    map p | p in gen && !IsMeta(p) && p !in left :: gen[p]
  }

  lemma RestoredStart(was: map<Path, File>, gen: map<Path, File>, left: set<Path>)
    requires forall p :: p in gen && !IsMeta(p) ==> p in left
    ensures was == was + PutBack(gen, left)
  {
    assert PutBack(gen, left) == map[];
  }

  lemma PutBackOne(was: map<Path, File>, gen: map<Path, File>, left: set<Path>, p: Path)
    requires p in gen && !IsMeta(p)
    ensures (was + PutBack(gen, left))[p := gen[p]] == was + PutBack(gen, left - {p})
  {
  }

  lemma RestoredEnd(was: map<Path, File>, gen: map<Path, File>)
    ensures was + PutBack(gen, {}) == Restored(was, gen)
  {
    assert PutBack(gen, {}) == map p | p in gen && !IsMeta(p) :: gen[p];
  }

  lemma ViewUpdate(inodes: map<Ino, File>, live: map<Path, Ino>, p: Path, ino: Ino, f: File)
    requires Closed(inodes, live) && forall q :: q in live && live[q] == ino ==> q == p
    ensures View(inodes[ino := f], live[p := ino]) == View(inodes, live)[p := f]
  {
  }

  lemma RestoreShape(c: Config, reach: State -> bool, s: State, p: Path, ino: Ino)
    requires OnRun(c, reach, s) && s.pc.Restoring? && p in s.pc.left && p in CurrentFiles(s.gens, s.current)
    requires if p in s.live then ino == s.live[p] else ino !in s.inodes
    ensures !IsMeta(p) && CurrentFiles(s.gens, s.current)[p] in s.inodes && RestoreFileNext(s, p, ino).Some?
    ensures var files := CurrentFiles(s.gens, s.current);
            var f := s.inodes[files[p]]; var after := s.inodes[ino := f];
            && View(after, files) == View(s.inodes, files) && p in View(after, files) && View(after, files)[p] == f
            && View(after, s.live[p := ino]) == View(s.inodes, s.live)[p := f]
  {
    HasShape(c, reach, s);
    CurrentClosed(s);
    var files := CurrentFiles(s.gens, s.current);
    ViewUpdate(s.inodes, s.live, p, ino, s.inodes[files[p]]);
    ViewApart(s.inodes, files, ino, s.inodes[files[p]]);
  }

  lemma ViewApart(inodes: map<Ino, File>, files: map<Path, Ino>, ino: Ino, f: File)
    requires Closed(inodes, files) && forall q :: q in files ==> files[q] != ino
    ensures View(inodes[ino := f], files) == View(inodes, files)
  {
  }

  lemma ReadyIsDurable(c: Config, reach: State -> bool, s: State)
    requires reach(s)
    ensures s.phase == Reporting(Ready(true)) && c.fine && c.cleanStart && (forall u :: reach(u) ==> Reaches(c, u)) ==>
              Durable(s)
  {
    if s.phase == Reporting(Ready(true)) && c.fine && c.cleanStart && (forall u :: reach(u) ==> Reaches(c, u)) {
      CompletionIsDurable(c, s);
    }
  }

  /** A prune that has removed these generations. */
  ghost predicate Pruned(s: State, t: State, gone: set<nat>)
    requires s.pc.Pruning?
  {
    && t.pc == s.pc.(victims := s.pc.victims - gone)
    && t.gens.Keys == s.gens.Keys - gone
    && t.current == s.current && t.last == s.last
    && (s.phase == Reporting(Running) ==> t.phase == s.phase)
  }

  lemma ContractLeavesRunning(s: State, a: Step, t: State)
    requires ContractStep(a) && ContractNext(s, a) == Some(t)
    ensures s.phase != Reporting(Running)
  {
  }

  lemma ContractIsBeside(c: Config, reach: State -> bool, s: State, a: Step, t: State)
    requires OnRun(c, reach, s) && ContractStep(a) && ContractNext(s, a) == Some(t)
    ensures OnRun(c, reach, t) && Beside(s, t)
    ensures t == s.(phase := t.phase, inflight := t.inflight, handed := t.handed)
  {
    ContractStays(c, reach, s, a, t);
    ContractLeavesRunning(s, a, t);
  }

  datatype Outcome = Skipped | Written | Failed

  // ---- what a copy holds ----------------------------------------------------------

  /** One read of a copy: the moment it was made, and which bytes of the source it took. */
  datatype Take = Take(at: State, from: nat, to: nat)

  ghost predicate TakeOk(src: Ino, t: Take) {
    src in t.at.inodes && t.from <= t.to <= |t.at.inodes[src].data|
  }

  ghost function End(takes: seq<Take>): nat {
    if takes == [] then 0 else takes[|takes| - 1].to
  }

  /** Reads of one source, each where the one before ended. */
  ghost predicate Chained(src: Ino, takes: seq<Take>) {
    takes == [] ||
    (var front, t := takes[..|takes| - 1], takes[|takes| - 1];
     TakeOk(src, t) && t.from == End(front) && Chained(src, front))
  }

  /** The reads were made at moments of the run. */
  ghost predicate Moments(reach: State -> bool, takes: seq<Take>) {
    forall i :: 0 <= i < |takes| ==> reach(takes[i].at)
  }

  /** What the reads took, one after the other. */
  ghost function Taken(src: Ino, takes: seq<Take>): Bytes
    requires Chained(src, takes)
  {
    if takes == [] then []
    else
      var t := takes[|takes| - 1];
      Taken(src, takes[..|takes| - 1]) + t.at.inodes[src].data[t.from..t.to]
  }

  lemma TakenOnce(src: Ino, takes: seq<Take>, t: Take)
    requires Chained(src, takes) && TakeOk(src, t) && t.from == End(takes)
    ensures Chained(src, takes + [t]) && End(takes + [t]) == t.to
    ensures Taken(src, takes + [t]) == Taken(src, takes) + t.at.inodes[src].data[t.from..t.to]
  {
    assert (takes + [t])[..|takes + [t]| - 1] == takes;
  }

  /** A copy of a source nobody changed between the first read and the last is the source. */
  lemma {:induction false} CopyOfUnchanged(src: Ino, takes: seq<Take>, data: Bytes)
    requires Chained(src, takes)
    requires forall i :: 0 <= i < |takes| && src in takes[i].at.inodes ==> takes[i].at.inodes[src].data == data
    ensures End(takes) <= |data| && Taken(src, takes) == data[..End(takes)]
    ensures End(takes) >= |data| ==> Taken(src, takes) == data
  {
    if takes != [] {
      var front, t := takes[..|takes| - 1], takes[|takes| - 1];
      CopyOfUnchanged(src, front, data);
      assert t.at.inodes[src].data == data;
      assert data[..t.from] + data[t.from..t.to] == data[..t.to];
    }
  }

  class Sidecar {
    const c: Config
    /** Any predicate of states that holds at the start and that every step keeps. */
    ghost const reach: State -> bool

    // the volume, pod-local storage, syncer, Proxy
    var inodes: map<Ino, File>
    var gens: map<nat, Gen>
    var current: Option<nat>
    var live: map<Path, Ino>
    var last: Manifest
    var restored: bool
    var inflight: bool
    // the checkpoint at work: the bytes it copied, and the label it was started with
    var written: nat
    var quiesced: bool
    // everything there is, what the sidecar cannot see included
    var world: State

    ghost predicate Valid()
      reads this
    {
      && world.inodes == inodes && world.gens == gens && world.current == current && world.live == live
      && world.last == last && world.restored == restored && world.inflight == inflight
      && (world.pc.Copying? ==> world.pc.written == written && world.pc.quiesced == quiesced)
      && OnRun(c, reach, world)
    }

    /** A new pod on an empty volume. */
    constructor (c: Config, ghost reach: State -> bool)
      requires OnRun(c, reach, EMPTY)
      ensures Valid() && world == EMPTY && this.c == c && this.reach == reach
    {
      this.c, this.reach := c, reach;
      inodes, gens, current, live := map[], map[], None, map[];
      last, restored, inflight := map[], false, false;
      written, quiesced := 0, false;
      world := EMPTY;
    }

    // ---- the environment ----------------------------------------------------------

    /** The agent and the runtime's requests take any number of steps. */
    method Environment()
      requires Valid() && !world.pc.Idle? && !world.pc.Restoring?
      modifies this
      ensures Valid() && Beside(old(world), world)
    {
      var n: nat := *;
      while n > 0
        invariant Valid() && Beside(old(world), world)
        decreases n
      {
        n := n - 1;
        var a: Step := *;
        if AgentStep(a) {
          AgentActs(a);
        } else if ContractStep(a) {
          ContractActs(a);
        }
      }
    }

    method AgentActs(a: Step)
      requires Valid() && AgentStep(a)
      modifies this
      ensures Valid() && Beside(old(world), world)
    {
      var next := AgentNext(c, world, a);
      if next.Some? {
        AgentStays(c, reach, world, a, next.value);
        world := next.value;
        inodes, live := world.inodes, world.live;
      }
    }

    method ContractActs(a: Step)
      requires Valid() && ContractStep(a) && !world.pc.Idle? && !world.pc.Restoring?
      modifies this
      ensures Valid() && Beside(old(world), world)
    {
      var next := ContractNext(world, a);
      if next.Some? {
        ContractIsBeside(c, reach, world, a, next.value);
        world := next.value;
        inflight := world.inflight;
      }
    }

    // ---- Scan ---------------------------------------------------------------------

    /** One file is looked at. */
    method Visited(p: Path, todo: set<Path>, seen: Manifest) returns (seen': Manifest)
      requires Valid() && world.pc.Scanning? && world.pc.todo == todo && world.pc.seen == seen
      modifies this
      ensures Valid() && world == old(world).(pc := Scanning(old(world).pc.job, todo - {p}, seen'))
    {
      LiveIsThere(c, reach, world);
      seen' := Looked(inodes, live, p, seen);
      ghost var s := world;
      world := world.(pc := Scanning(world.pc.job, todo - {p}, seen'));
      ScanStays(c, reach, s, Visit(p), world);
    }

    /** Walk the tree as it was when the walk began; a file that appears later may be seen too. */
    method ScanTree() returns (seen: Manifest)
      requires Valid() && world.pc.Scanning? && world.pc.todo == live.Keys && world.pc.seen == map[]
      modifies this
      ensures Valid() && Uncommitted(old(world), world)
      ensures world.pc == Scanning(old(world).pc.job, {}, seen)
    {
      var todo := live.Keys;
      seen := map[];
      while todo != {}
        invariant Valid() && Uncommitted(old(world), world)
        invariant world.pc == Scanning(old(world).pc.job, todo, seen)
        decreases todo
      {
        Environment();
        var p :| p in todo;
        seen := Visited(p, todo, seen);
        todo := todo - {p};
        var late: Path := *;
        if late !in todo {
          seen := Visited(late, todo, seen);
        }
      }
    }

    // ---- copyFile, linkIfUnchanged ------------------------------------------------

    /** Share the previous generation's copy: exactly when it carries the scanned stamp and the
        system makes the link. */
    method LinkIfUnchanged(p: Path, can: bool, job: Job, m: Manifest, next: nat, todo: set<Path>) returns (linked: bool)
      requires Valid() && Filling(world, job, m, next, todo) && p in todo
      modifies this
      ensures Valid() && Uncommitted(old(world), world) && live == old(live) && inodes == old(inodes)
      ensures Filling(world, job, m, next, if linked then todo - {p} else todo)
      ensures p in m && (linked <==> Linkable(old(world), p, m[p]) && can)
      ensures linked ==> next in old(gens) && gens == AddFile(old(gens), next, p, CurrentFiles(old(gens), current)[p])
      ensures !linked ==> world == old(world)
    {
      var files := CurrentFiles(gens, current);
      BetweenEnabled(c, reach, world, p);
      if p in files && StampIs(files[p], m[p]) && can {
        ghost var s := world;
        LinkEnabled(c, reach, s, p);
        gens := AddFile(gens, next, p, files[p]);
        world := LinkNext(world, p).value;
        FillStays(c, reach, s, Link(p), world);
        return true;
      }
      return false;
    }

    predicate StampIs(i: Ino, st: Stamp)
      reads this
    {
      i in inodes && StampOf(inodes[i]) == st
    }

    /** Open the live file and note its mtime, then make the target; no inode left is an error. */
    method OpenFile(p: Path, job: Job, m: Manifest, next: nat, todo: set<Path>) returns (fd: Option<Fd>)
      requires Valid() && Filling(world, job, m, next, todo) && p in todo && p in live
      modifies this
      ensures Valid() && Uncommitted(old(world), world) && live == old(live) && written == old(written)
      ensures fd.None? ==> world == old(world)
      ensures fd.Some? ==> Copies(world, job, m, next, todo, fd.value)
      ensures fd.Some? ==> next in old(gens) && gens == AddFile(old(gens), next, p, fd.value.dst)
      ensures fd.Some? ==> NewCopy(fd.value, p, old(inodes), live, inodes)
    {
      var dst: Ino := *;
      var now: int := *;
      if dst in inodes {
        return None;
      }
      ghost var s := world;
      OpenEnabled(c, reach, s, p);
      LiveIsThere(c, reach, s);
      fd := Some(Fd(p, live[p], inodes[live[p]].mtime, dst, 0));
      inodes := inodes[dst := File([], now)];
      gens := AddFile(gens, next, p, dst);
      world := OpenNext(world, p, dst, now).value;
      FillStays(c, reach, s, Open(p, dst, now), world);
    }

    /** The copy just opened: its source is the live file, its target a new empty one. */
    ghost predicate NewCopy(fd: Fd, p: Path, before: map<Ino, File>, live: map<Path, Ino>, after: map<Ino, File>) {
      && p in live && live[p] in before && Closed(before, live)
      && fd == Fd(p, live[p], before[live[p]].mtime, fd.dst, 0) && fd.dst !in before
      && fd.dst in after && after == before[fd.dst := File([], after[fd.dst].mtime)]
    }

    /** Copy the next n bytes of what the source holds now. */
    method CopyChunk(n: nat, job: Job, m: Manifest, next: nat, todo: set<Path>, fd: Fd) returns (fd': Fd)
      requires Valid() && Copies(world, job, m, next, todo, fd)
      requires fd.src in inodes && fd.off + n <= |inodes[fd.src].data|
      modifies this
      ensures Valid() && Uncommitted(old(world), world)
      ensures fd' == fd.(off := fd.off + n) && Copies(world, job, m, next, todo, fd')
      ensures live == old(live) && gens == old(gens) && written == old(written)
      ensures fd.dst in old(inodes) && fd.dst in inodes && inodes == old(inodes)[fd.dst := inodes[fd.dst]]
      ensures inodes[fd.dst].data == old(inodes)[fd.dst].data + old(inodes)[fd.src].data[fd.off..fd.off + n]
    {
      ghost var s := world;
      FdEnabled(c, reach, s);
      var now: int := *;
      var chunk := inodes[fd.src].data[fd.off..fd.off + n];
      inodes := inodes[fd.dst := File(inodes[fd.dst].data + chunk, now)];
      fd' := fd.(off := fd.off + n);
      world := ReadNext(world, n, now).value;
      FillStays(c, reach, s, Read(n, now), world);
    }

    /** At the end of the source: close the target and give it the mtime noted at the start. */
    method CloseFile(job: Job, m: Manifest, next: nat, todo: set<Path>, fd: Fd)
      requires Valid() && Copies(world, job, m, next, todo, fd)
      requires fd.src in inodes && fd.off >= |inodes[fd.src].data|
      modifies this
      ensures Valid() && Uncommitted(old(world), world)
      ensures Filling(world, job, m, next, todo - {fd.path})
      ensures live == old(live) && gens == old(gens) && written == old(written) + fd.off
      ensures fd.dst in old(inodes) && inodes == old(inodes)[fd.dst := File(old(inodes)[fd.dst].data, fd.mtime)]
    {
      ghost var s := world;
      FdEnabled(c, reach, s);
      inodes := inodes[fd.dst := File(inodes[fd.dst].data, fd.mtime)];
      written := written + fd.off;
      world := CloseNext(world).value;
      FillStays(c, reach, s, Close, world);
    }

    /** A copy at work: its target holds what the reads took, and is no live file. */
    ghost predicate CopiedSoFar(fd: Fd, p: Path, src: Ino, mtime: int, next: nat, takes: seq<Take>)
      reads this
    {
      && fd.path == p && fd.src == src && fd.mtime == mtime && fd.src in inodes && fd.dst in inodes
      && fd.dst !in live.Values && next in gens && p in gens[next].files && gens[next].files[p] == fd.dst
      && Chained(src, takes) && Moments(reach, takes)
      && fd.off == End(takes) && inodes[fd.dst].data == Taken(src, takes)
    }

    /** Read part of what the source holds now, or nothing yet. */
    method CopySome(p: Path, job: Job, m: Manifest, next: nat, todo: set<Path>, fd: Fd, ghost takes: seq<Take>)
      returns (fd': Fd, ghost takes': seq<Take>)
      requires Valid() && Copies(world, job, m, next, todo, fd) && CopiedSoFar(fd, p, fd.src, fd.mtime, next, takes)
      modifies this
      ensures Valid() && Uncommitted(old(world), world) && Copies(world, job, m, next, todo, fd')
      ensures CopiedSoFar(fd', p, fd.src, fd.mtime, next, takes') && written == old(written)
    {
      fd', takes' := fd, takes;
      var n: int := *;
      if 0 <= n && fd.off + n <= |inodes[fd.src].data| {
        ghost var take := Take(world, fd.off, fd.off + n);
        TakenOnce(fd.src, takes, take);
        fd' := CopyChunk(n, job, m, next, todo, fd);
        takes' := takes + [take];
      }
    }

    /** Meanwhile the environment acts; the target is not its to touch. */
    method WhileCopying(p: Path, job: Job, m: Manifest, next: nat, todo: set<Path>, fd: Fd, ghost takes: seq<Take>)
      requires Valid() && Copies(world, job, m, next, todo, fd) && CopiedSoFar(fd, p, fd.src, fd.mtime, next, takes)
      modifies this
      ensures Valid() && Uncommitted(old(world), world) && Copies(world, job, m, next, todo, fd)
      ensures CopiedSoFar(fd, p, fd.src, fd.mtime, next, takes) && written == old(written)
    {
      Environment();
      SourceIsThere(c, reach, world);
    }

    /** Copy one file while the agent goes on writing. The copy carries the mtime the live file had
        when it was opened, and holds what consecutive reads of that file took, each of what the
        file held at the time, until one found its end; the bytes are counted. A copy the agent
        outruns for ever is cut off, and counts as an error. */
    method CopyFile(p: Path, job: Job, m: Manifest, next: nat, todo: set<Path>)
      returns (ok: bool, ghost takes: seq<Take>)
      requires Valid() && Filling(world, job, m, next, todo) && p in todo && p in live
      modifies this
      ensures Valid() && Uncommitted(old(world), world) && world.pc.Copying? && world.pc.job == job
      ensures ok ==> Filling(world, job, m, next, todo - {p})
      ensures ok ==> old(live)[p] in old(inodes) && Copied(p, next, old(live)[p], old(inodes)[old(live)[p]].mtime, takes)
      ensures ok ==> written == old(written) + End(takes)
    {
      takes := [];
      var start := OpenFile(p, job, m, next, todo);
      if start.None? {
        return false, takes;
      }
      var fd := start.value;
      ghost var src, mtime := fd.src, fd.mtime;
      var patience: nat := *;
      while fd.off < |inodes[fd.src].data| && patience > 0
        invariant Valid() && Uncommitted(old(world), world) && written == old(written)
        invariant Copies(world, job, m, next, todo, fd) && CopiedSoFar(fd, p, src, mtime, next, takes)
        decreases patience
      {
        patience := patience - 1;
        fd, takes := CopySome(p, job, m, next, todo, fd, takes);
        WhileCopying(p, job, m, next, todo, fd, takes);
      }
      if fd.off < |inodes[fd.src].data| {
        return false, takes;
      }
      CloseFile(job, m, next, todo, fd);
      return true, takes;
    }

    /** The new generation has the file p: what these reads of the source took, up to its end. */
    ghost predicate Copied(p: Path, next: nat, src: Ino, mtime: int, takes: seq<Take>)
      reads this
    {
      && next in gens && p in gens[next].files && gens[next].files[p] in inodes && src in inodes
      && Chained(src, takes) && Moments(reach, takes) && End(takes) >= |inodes[src].data|
      && inodes[gens[next].files[p]] == File(Taken(src, takes), mtime)
    }

    /** Every entry of the manifest: linked, copied, or gone since the scan. */
    method FillGeneration(job: Job, m: Manifest, next: nat) returns (ok: bool)
      requires Valid() && Filling(world, job, m, next, m.Keys)
      modifies this
      ensures Valid() && Uncommitted(old(world), world) && world.pc.Copying? && world.pc.job == job
      ensures ok ==> Filling(world, job, m, next, {})
    {
      var todo := m.Keys;
      ok := true;
      while todo != {}
        invariant Valid() && Uncommitted(old(world), world) && todo <= m.Keys
        invariant Filling(world, job, m, next, todo)
        decreases todo
      {
        Environment();
        var p :| p in todo;
        var can: bool := *;
        var linked := LinkIfUnchanged(p, can, job, m, next, todo);
        if !linked {
          Environment();
          if p in live {
            var done, _ := CopyFile(p, job, m, next, todo);
            ok := done;
            if !ok {
              return;
            }
          } else {
            PassOver(p, job, m, next, todo);
          }
        }
        todo := todo - {p};
      }
    }

    /** The file vanished between scan and copy. */
    method PassOver(p: Path, job: Job, m: Manifest, next: nat, todo: set<Path>)
      requires Valid() && Filling(world, job, m, next, todo) && p in todo && p !in live
      modifies this
      ensures Valid() && Uncommitted(old(world), world) && Filling(world, job, m, next, todo - {p})
    {
      ghost var s := world;
      BetweenEnabled(c, reach, s, p);
      world := VanishNext(world, p).value;
      FillStays(c, reach, s, Vanish(p), world);
    }

    // ---- generations, swapCurrent, prune ------------------------------------------

    /** The generation numbers, oldest first. */
    method Generations() returns (gs: seq<nat>)
      ensures Ascending(gs) && Elements(gs) == gens.Keys
    {
      gs := [];
      var left := gens.Keys;
      while left != {}
        invariant left <= gens.Keys && Ascending(gs) && Elements(gs) == gens.Keys - left
        invariant forall i, y :: 0 <= i < |gs| && y in left ==> gs[i] < y
        decreases left
      {
        var m := Lowest(left);
        assert Elements(gs + [m]) == Elements(gs) + {m};
        gs := gs + [m];
        left := left - {m};
      }
    }

    /** The number after the newest generation's, 1 in an empty store. */
    method NextGenDir() returns (next: nat)
      ensures next == NextNumber(gens.Keys)
    {
      var gs := Generations();
      next := 1;
      if |gs| > 0 {
        next := gs[|gs| - 1] + 1;
        assert gs[|gs| - 1] in Elements(gs);
        LastIsMax(gs);
      }
    }

    /** Create the new generation's directory. */
    method MakeDirectory(job: Job, m: Manifest)
      requires Valid() && world.pc == Scanning(job, {}, m) && m != last
      modifies this
      ensures Valid() && Uncommitted(old(world), world)
      ensures Filling(world, job, m, world.highest, m.Keys) && world.pc.quiesced == !old(inflight)
    {
      var next := NextGenDir();
      ghost var s := world;
      BeginEnabled(c, reach, s, next);
      gens := gens[next := Gen(map[], None)];
      written, quiesced := 0, !inflight;
      world := Begun(world, next);
      ScanStays(c, reach, s, Begin, world);
    }

    /** Write the metadata file: the generation is finished. */
    method WriteMetadata(job: Job, m: Manifest, next: nat)
      requires Valid() && Filling(world, job, m, next, {})
      modifies this
      ensures Valid() && Uncommitted(old(world), world)
      ensures world.pc == old(world).pc.(stage := MetaWritten)
    {
      ghost var s := world;
      MetaEnabled(c, reach, s);
      var meta := Meta(|m|, written, quiesced);
      gens := gens[next := gens[next].(meta := Some(meta))];
      world := WriteMetaNext(world).value;
      CommitStays(c, reach, s, WriteMeta, world);
    }

    /** Point `.current.tmp` at the generation, then rename it over `current`. */
    method SwapCurrent(next: nat)
      requires Valid() && world.pc.Copying? && world.pc.stage == MetaWritten && world.pc.next == next
      modifies this
      ensures Valid() && current == Some(next) && last == old(last)
      ensures world.pc == Pruning(old(world).pc.job, old(world).pc.m, Victims(gens.Keys, c.retain, current))
      ensures old(world).phase == Reporting(Running) ==> world.phase == Reporting(Running)
    {
      ghost var s := world;
      world := SymlinkNext(world).value;
      CommitStays(c, reach, s, Symlink, world);
      Environment();
      MakeCurrent(next);
    }

    /** The generations a prune would remove with this one current. */
    method ListVictims(cur: Option<nat>) returns (victims: set<nat>)
      ensures victims == Victims(gens.Keys, c.retain, cur)
    {
      var gs := Generations();
      VictimsAreListed(gs, c.retain, cur);
      victims := {};
      for i := 0 to Surplus(|gs|, c.retain)
        invariant victims == Listed(gs, i, cur)
      {
        ListedStep(gs, i, cur);
        if Some(gs[i]) != cur {
          victims := victims + {gs[i]};
        }
      }
    }

    /** The rename, the one step at which a reader goes from the old generation to the new. */
    method MakeCurrent(next: nat)
      requires Valid() && world.pc.Copying? && world.pc.stage == TmpMade && world.pc.next == next
      modifies this
      ensures Valid() && current == Some(next) && last == old(last) && gens == old(gens)
      ensures world.pc == Pruning(old(world).pc.job, old(world).pc.m, Victims(gens.Keys, c.retain, current))
      ensures world.phase == old(world).phase
    {
      var victims := ListVictims(Some(next));
      ghost var s := world;
      current := Some(next);
      world := world.(current := Some(next), tmp := None, pc := Pruning(world.pc.job, world.pc.m, victims));
      CommitStays(c, reach, s, Rename, world);
    }

    /** Remove one old generation, entry by entry. */
    method RemoveAll(g: nat)
      requires Valid() && world.pc.Pruning? && g in world.pc.victims && g in gens
      modifies this
      ensures Valid() && Pruned(old(world), world, {g})
    {
      var left := gens[g].files.Keys;
      while left != {}
        invariant Valid() && Pruned(old(world), world, {}) && g in world.pc.victims && g in gens
        decreases left
      {
        Environment();
        var p :| p in left;
        RemoveOne(g, Some(p));
        left := left - {p};
      }
      RemoveOne(g, None);
      Environment();
      RemoveDirectory(g);
    }

    method RemoveDirectory(g: nat)
      requires Valid() && world.pc.Pruning? && g in world.pc.victims && g in gens
      modifies this
      ensures Valid() && Pruned(old(world), world, {g})
    {
      ghost var s := world;
      gens := gens - {g};
      world := RemoveDirNext(world, g).value;
      PruneStays(c, reach, s, RemoveDir(g), world);
    }

    method RemoveOne(g: nat, entry: Option<Path>)
      requires Valid() && world.pc.Pruning? && g in world.pc.victims && g in gens
      modifies this
      ensures Valid() && Pruned(old(world), world, {})
    {
      ghost var s := world;
      gens := gens[g := if entry.Some? then gens[g].(files := gens[g].files - {entry.value})
                        else gens[g].(meta := None)];
      world := RemoveEntryNext(world, g, entry).value;
      PruneStays(c, reach, s, RemoveEntry(g, entry), world);
    }

    /** Remove the oldest generations beyond Retain, never the current one. */
    method Prune()
      requires Valid() && world.pc.Pruning? && world.pc.victims == Victims(gens.Keys, c.retain, current)
      modifies this
      ensures Valid() && Pruned(old(world), world, old(world).pc.victims)
    {
      var gs := Generations();
      VictimsAreListed(gs, c.retain, current);
      for i := 0 to Surplus(|gs|, c.retain)
        invariant Valid() && Pruned(old(world), world, Listed(gs, i, old(world).current))
      {
        PruneAt(gs, i, old(world));
      }
    }

    /** The next generation of the listing goes, unless it is current. */
    method PruneAt(gs: seq<nat>, i: nat, ghost s: State)
      requires Valid() && s.pc.Pruning? && Ascending(gs) && Elements(gs) == s.gens.Keys
      requires i < Surplus(|gs|, c.retain) && s.pc.victims == Listed(gs, Surplus(|gs|, c.retain), s.current)
      requires Pruned(s, world, Listed(gs, i, s.current))
      modifies this
      ensures Valid() && Pruned(s, world, Listed(gs, i + 1, s.current))
    {
      NextVictim(gs, i, c.retain, s.current);
      if Some(gs[i]) != current {
        PruneOne(gs[i], s, Listed(gs, i, s.current));
      }
    }

    method PruneOne(g: nat, ghost s: State, ghost gone: set<nat>)
      requires Valid() && s.pc.Pruning? && Pruned(s, world, gone)
      requires g in s.pc.victims && g in s.gens && g !in gone
      modifies this
      ensures Valid() && Pruned(s, world, gone + {g})
    {
      RemoveAll(g);
      assert s.pc.victims - gone - {g} == s.pc.victims - (gone + {g});
    }

    // ---- Store.Checkpoint, syncer.checkpoint --------------------------------------

    /** Build the new generation fully, then swap `current` onto it, then prune. */
    method WriteGeneration(job: Job, m: Manifest) returns (ok: bool)
      requires Valid() && world.pc == Scanning(job, {}, m) && m != last
      modifies this
      ensures Valid() && (old(world).phase == Reporting(Running) ==> world.phase == Reporting(Running))
      ensures !ok ==> Uncommitted(old(world), world) && world.pc.Copying? && world.pc.job == job
      ensures ok ==> world.pc == Pruning(job, m, {}) && last == old(last)
    {
      MakeDirectory(job, m);
      var next := world.highest;
      ok := FillGeneration(job, m, next);
      if ok {
        WriteMetadata(job, m, next);
        Environment();
        SwapCurrent(next);
        Prune();
        assert world.pc.victims == {};
      }
    }

    /** Copy the live context if it changed. */
    method Checkpoint(job: Job) returns (outcome: Outcome)
      requires Valid() && world.pc.Idle? && (job == WorkDone ==> world.phase == Reporting(Marked))
      modifies this
      ensures Valid() && world.pc.Idle?
      ensures outcome != Written ==> current == old(current) && last == old(last)
      ensures outcome == Written ==>
                current == Some(world.highest) && world.highest in gens && |gens| <= Keep(c.retain)
      ensures job == WorkDone ==> world.phase == Reporting(Ready(outcome != Failed))
    {
      StartJob(job);
      var m := ScanTree();
      if m == last {
        EndScan(job, m);
        return Skipped;
      }
      var ok := WriteGeneration(job, m);
      if ok {
        FinishJob(job, m);
        return Written;
      }
      GiveUp(job);
      return Failed;
    }

    method StartJob(job: Job)
      requires Valid() && world.pc.Idle? && (job == WorkDone ==> world.phase == Reporting(Marked))
      modifies this
      ensures Valid() && world.pc == Scanning(job, live.Keys, map[])
      ensures current == old(current) && last == old(last) && live == old(live) && inodes == old(inodes)
      ensures job == WorkDone ==> world.phase == Reporting(Running)
    {
      ghost var s := world;
      world := StartNext(world, job).value;
      ScanStays(c, reach, s, Start(job), world);
    }

    method EndScan(job: Job, m: Manifest)
      requires Valid() && world.pc == Scanning(job, {}, m) && m == last
      modifies this
      ensures Valid() && world == EndJob(old(world), job, true)
    {
      ghost var s := world;
      world := SkipNext(world).value;
      ScanStays(c, reach, s, Skip, world);
    }

    /** Remember the manifest of what was written. */
    method FinishJob(job: Job, m: Manifest)
      requires Valid() && world.pc == Pruning(job, m, {})
      modifies this
      ensures Valid() && world == EndJob(old(world), job, true).(last := m)
      ensures current == Some(world.highest) && world.highest in gens && |gens| <= Keep(c.retain)
    {
      PrunedShape(c, reach, world);
      ghost var s := world;
      last := m;
      world := FinishNext(world).value;
      EndStays(c, reach, s, Finish, world);
    }

    method GiveUp(job: Job)
      requires Valid() && world.pc.Copying? && world.pc.job == job
      modifies this
      ensures Valid() && world == EndJob(old(world), job, false)
    {
      ghost var s := world;
      world := AbortNext(world).value;
      EndStays(c, reach, s, Abort, world);
    }

    // ---- Restore ------------------------------------------------------------------

    method FreshInode() returns (i: Ino)
      ensures i !in inodes
    {
      i := 0;
      var left := inodes.Keys;
      while left != {}
        invariant left <= inodes.Keys && forall x :: x in inodes && x !in left ==> x < i
        decreases left
      {
        var x :| x in left;
        if x >= i {
          i := x + 1;
        }
        left := left - {x};
      }
    }

    /** Bring the durable context into the live tree, and remember what is there then. A store
        that cannot be read refuses before anything is copied. */
    method Restore() returns (ok: bool)
      requires Valid() && world.phase == Asking && !restored && world.pc.Idle?
      requires c.cleanStart ==> live.Keys <= CurrentFiles(gens, current).Keys
      modifies this
      ensures Valid() && world.pc.Idle? && world.phase == Asking && gens == old(gens) && current == old(current)
      ensures !ok ==> world == old(world)
      ensures ok ==> restored && last == Stamps(inodes, live)
      ensures ok ==>
                (View(inodes, live) ==
                 Restored(View(old(inodes), old(live)), View(old(inodes), CurrentFiles(old(gens), old(current)))))
    {
      var readable: bool := *;
      if !readable {
        return false;
      }
      var files := CurrentFiles(gens, current);
      var left := set p | p in files && !IsMeta(p);
      BeginRestore(left);
      CopyTree(files, left);
      EndRestore();
      return true;
    }

    /** Copy a generation's files, bar its metadata file, into the live tree. */
    method CopyTree(files: map<Path, Ino>, all: set<Path>)
      requires Valid() && world.pc == Restoring(all) && world.phase == Asking
      requires files == CurrentFiles(gens, current) && all == set p | p in files && !IsMeta(p)
      modifies this
      ensures Valid() && world.pc == Restoring({}) && world.phase == Asking
      ensures gens == old(gens) && current == old(current)
      ensures View(inodes, live) == Restored(View(old(inodes), old(live)), View(old(inodes), files))
    {
      ghost var was, gen := View(inodes, live), View(inodes, files);
      var left := all;
      RestoredStart(was, gen, left);
      while left != {}
        invariant Valid() && world.pc == Restoring(left) && world.phase == Asking
        invariant gens == old(gens) && current == old(current) && left <= all
        invariant View(inodes, files) == gen
        invariant View(inodes, live) == was + PutBack(gen, left)
        decreases left
      {
        var p :| p in left;
        RestoreFile(p, files, left);
        PutBackOne(was, gen, left, p);
        left := left - {p};
      }
      RestoredEnd(was, gen);
    }

    method BeginRestore(left: set<Path>)
      requires Valid() && world.phase == Asking && !restored && world.pc.Idle?
      requires c.cleanStart ==> live.Keys <= CurrentFiles(gens, current).Keys
      requires left == set p | p in CurrentFiles(gens, current) && !IsMeta(p)
      modifies this
      ensures Valid() && world == old(world).(pc := Restoring(left))
    {
      ghost var s := world;
      world := world.(pc := Restoring(left));
      RestoreStays(c, reach, s, RestoreBegin, world);
    }

    /** Copy one durable file over the live one, or to a new live file: never a link. */
    method RestoreFile(p: Path, files: map<Path, Ino>, left: set<Path>)
      requires Valid() && world.pc == Restoring(left) && p in left && p in files && files == CurrentFiles(gens, current)
      modifies this
      ensures Valid() && world.pc == Restoring(left - {p}) && world.phase == old(world).phase
      ensures gens == old(gens) && current == old(current) && restored == old(restored)
      ensures View(inodes, files) == View(old(inodes), files) && p in View(inodes, files)
      ensures View(inodes, live) == View(old(inodes), old(live))[p := View(inodes, files)[p]]
    {
      var ino: Ino;
      if p in live {
        ino := live[p];
      } else {
        ino := FreshInode();
      }
      RestoreShape(c, reach, world, p, ino);
      ghost var s := world;
      inodes := inodes[ino := inodes[files[p]]];
      live := live[p := ino];
      world := RestoreFileNext(world, p, ino).value;
      RestoreStays(c, reach, s, ContextMachine.RestoreFile(p, ino), world);
    }

    method EndRestore()
      requires Valid() && world.pc == Restoring({}) && world.phase == Asking
      modifies this
      ensures Valid() && world.pc.Idle? && world.phase == Asking && restored && last == Stamps(inodes, live)
      ensures gens == old(gens) && current == old(current) && inodes == old(inodes) && live == old(live)
    {
      ghost var s := world;
      last, restored := Stamps(inodes, live), true;
      world := RestoreEndNext(world).value;
      RestoreStays(c, reach, s, RestoreEnd, world);
    }

    // ---- Proxy.ServeHTTP ----------------------------------------------------------

    method ContractStepTaken(a: Step)
      requires Valid() && ContractStep(a) && ContractNext(world, a).Some?
      modifies this
      ensures Valid() && ContractNext(old(world), a) == Some(world)
    {
      var t := ContractNext(world, a).value;
      ContractStays(c, reach, world, a, t);
      world := t;
      inflight := world.inflight;
    }

    /** A request for work: it is refused while a restore is owed and fails, and no unit is handed
        out before one succeeded. */
    method ServeWork() returns (served: bool)
      requires Valid() && world.phase == Free && world.pc.Idle?
      requires !restored && c.cleanStart ==> live.Keys <= CurrentFiles(gens, current).Keys
      modifies this
      ensures Valid() && world.phase == Free && world.pc.Idle?
      ensures served ==> restored && inflight && world.handed
      ensures !served ==> !restored && world == old(world)
    {
      ContractStepTaken(Ask);
      if !restored {
        var ok := Restore();
        if !ok {
          ContractStepTaken(Refuse);
          return false;
        }
      }
      ContractStepTaken(HandOut);
      return true;
    }

    /** A completion report: the inflight mark is cleared, the checkpoint runs, and only then is
        the report forwarded. When the checkpoint reported no error, `current` then holds exactly
        the live files, written or found there already. */
    method ServeWorkDone() returns (outcome: Outcome)
      requires Valid() && world.phase == Free && world.handed && world.pc.Idle?
      modifies this
      ensures Valid() && world.phase == Free && world.pc.Idle?
      ensures outcome != Failed && c.fine && c.cleanStart && (forall s :: reach(s) ==> Reaches(c, s)) ==>
                Durable(world)
    {
      ContractStepTaken(Report);
      ContractStepTaken(MarkDone);
      outcome := Checkpoint(WorkDone);
      ReadyIsDurable(c, reach, world);
      ContractStepTaken(Forward);
    }
  }
}
