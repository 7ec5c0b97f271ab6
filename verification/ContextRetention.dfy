/**
 What a prune leaves to fall back on. A directory a crash left unfinished has a number like any
 other, so it takes one of the places Retain gives; a directory an interrupted prune had begun to
 remove does not, because the next prune removes it first.
 */
module ContextRetention {
  import opened Wrappers
  import opened ContextMachine
  import opened ContextInvariant
  import opened ContextFidelity
  import opened ContextMemory
  import opened ContextTheorems

  // ---- the lowest numbers of a set ------------------------------------------------

  /** Everything in r is below everything else in s. */
  ghost predicate Low(r: set<nat>, s: set<nat>) {
    r <= s && forall x, y :: x in r && y in s && y !in r ==> x < y
  }

  lemma {:induction false} OldestIsLow(s: set<nat>, n: int)
    ensures Low(Oldest(s, n), s)
    decreases s
  {
    if n > 0 && s != {} {
      OldestIsLow(s - {Min(s)}, n - 1);
    }
  }

  /** A low set is the oldest of its size. */
  lemma {:induction false} LowIsOldest(r: set<nat>, s: set<nat>)
    requires Low(r, s)
    ensures r == Oldest(s, |r|)
    decreases s
  {
    if r != {} {
      var m := Min(s);
      var x :| x in r;
      assert m in r;
      LowIsOldest(r - {m}, s - {m});
    }
  }

  lemma LowWithoutOne(r: set<nat>, s: set<nat>, x: nat)
    requires Low(r, s) && x in r
    ensures r - {x} == Oldest(s - {x}, |r| - 1)
  {
    assert |r - {x}| == |r| - 1;
    LowIsOldest(r - {x}, s - {x});
  }

  lemma OldestCount(s: set<nat>, n: int)
    requires n <= |s|
    ensures |Oldest(s, n)| == if n <= 0 then 0 else n
  {
    OldestSize(s, n);
    var r := Oldest(s, n);
    assert s == r + (s - r);
  }

  /** With one more number on top, one more is old. */
  lemma OldestWithHigher(s: set<nat>, n: int, h: nat)
    requires n <= |s| && forall x :: x in s ==> x < h
    ensures Oldest(s, n) <= Oldest(s + {h}, n + 1)
  {
    if n > 0 {
      OldestIsLow(s, n);
      OldestCount(s, n);
      LowIsOldest(Oldest(s, n), s + {h});
      OldestGrows(s + {h}, n);
    }
  }

  lemma {:induction false} OldestGrows(s: set<nat>, n: int)
    ensures Oldest(s, n) <= Oldest(s, n + 1)
    decreases s
  {
    if n > 0 && s != {} {
      OldestGrows(s - {Min(s)}, n - 1);
    }
  }

  // ---- half-removed directories ---------------------------------------------------

  /** Those beyond Retain. */
  ghost function Beyond(c: Config, gens: set<nat>): set<nat> {
    Oldest(gens, |gens| - Keep(c.retain))
  }

  /** Whatever a prune began to remove and did not finish is beyond Retain, and a prune at work
      removes what is beyond Retain. */
  ghost predicate Swept(c: Config, s: State) {
    && s.doomed * s.gens.Keys <= Beyond(c, s.gens.Keys)
    && (s.pc.Pruning? ==> s.pc.victims == Beyond(c, s.gens.Keys))
  }

  /** The numbers in use, those begun to be removed, and a prune's victims are as before. */
  ghost predicate SameNumbers(s: State, t: State) {
    && t.gens.Keys == s.gens.Keys && t.doomed == s.doomed
    && (t.pc.Pruning? ==> s.pc.Pruning? && t.pc.victims == s.pc.victims)
  }

  lemma AgentKeepsNumbers(c: Config, s: State, a: Step, t: State)
    requires AgentStep(a) && AgentNext(c, s, a) == Some(t)
    ensures SameNumbers(s, t)
  {
  }

  lemma ProxyKeepsNumbers(c: Config, s: State, a: Step, t: State)
    requires (ContractStep(a) || RestoreStep(a)) && Next(c, s, a) == Some(t)
    ensures SameNumbers(s, t)
  {
  }

  lemma ScanKeepsNumbers(s: State, a: Step, t: State)
    requires ScanStep(a) && !a.Begin? && ScanNext(s, a) == Some(t)
    ensures SameNumbers(s, t)
  {
  }

  lemma FillKeepsNumbers(s: State, a: Step, t: State)
    requires FillStep(a) && FillNext(s, a) == Some(t)
    ensures SameNumbers(s, t)
  {
  }

  lemma CommitKeepsNumbers(c: Config, s: State, a: Step, t: State)
    requires CommitStep(a) && !a.Rename? && CommitNext(c, s, a) == Some(t)
    ensures SameNumbers(s, t)
  {
  }

  lemma EndKeepsNumbers(c: Config, s: State, a: Step, t: State)
    requires (a.Finish? || a.Abort? || a.Crash?) && Next(c, s, a) == Some(t)
    ensures SameNumbers(s, t)
  {
  }

  lemma OthersKeepNumbers(c: Config, s: State, a: Step, t: State)
    requires Next(c, s, a) == Some(t) && !a.Begin? && !a.Rename? && !PruneStep(a)
    ensures SameNumbers(s, t)
  {
    if AgentStep(a) {
      AgentKeepsNumbers(c, s, a, t);
    } else if ContractStep(a) || RestoreStep(a) {
      ProxyKeepsNumbers(c, s, a, t);
    } else if ScanStep(a) {
      ScanKeepsNumbers(s, a, t);
    } else if FillStep(a) {
      FillKeepsNumbers(s, a, t);
    } else if CommitStep(a) {
      CommitKeepsNumbers(c, s, a, t);
    } else {
      EndKeepsNumbers(c, s, a, t);
    }
  }

  lemma BeyondWithHigher(c: Config, gens: set<nat>, h: nat)
    requires forall x :: x in gens ==> x < h
    ensures Beyond(c, gens) <= Beyond(c, gens + {h})
  {
    OldestWithHigher(gens, |gens| - Keep(c.retain), h);
  }

  lemma BeyondIsLow(c: Config, gens: set<nat>, g: nat)
    requires g in Beyond(c, gens)
    ensures Low(Beyond(c, gens), gens) && g in gens && |Beyond(c, gens)| == |gens| - Keep(c.retain)
  {
    OldestIsLow(gens, |gens| - Keep(c.retain));
    OldestCount(gens, |gens| - Keep(c.retain));
  }

  lemma BeyondWithoutOne(c: Config, gens: set<nat>, beyond: set<nat>, g: nat)
    requires Low(beyond, gens) && g in beyond && g in gens && |beyond| == |gens| - Keep(c.retain)
    ensures Beyond(c, gens - {g}) == beyond - {g}
  {
    assert |gens - {g}| == |gens| - 1;
    LowWithoutOne(beyond, gens, g);
  }

  lemma BeyondSparesHighest(c: Config, gens: set<nat>, h: nat)
    requires h in gens && forall x :: x in gens ==> x <= h
    ensures Victims(gens, c.retain, Some(h)) == Beyond(c, gens)
  {
    OldestLeavesHighest(gens, |gens| - Keep(c.retain), h);
  }

  lemma HigherIsNotDoomed(c: Config, gens: set<nat>, doomed: set<nat>, h: nat)
    requires (forall x :: x in gens ==> x < h) && (forall x :: x in doomed ==> x < h)
    requires doomed * gens <= Beyond(c, gens)
    ensures doomed * (gens + {h}) <= Beyond(c, gens + {h})
  {
    BeyondWithHigher(c, gens, h);
    assert doomed * (gens + {h}) == doomed * gens;
  }

  lemma BeginTakesHigher(s: State, t: State)
    requires Numbered(s.gens.Keys, s.sealed.Keys, s.doomed, s.highest) && BeginNext(s) == Some(t)
    ensures t.gens.Keys == s.gens.Keys + {s.highest + 1} && t.doomed == s.doomed && !t.pc.Pruning?
  {
    BeginsNext(s, t);
  }

  lemma SweptBegin(c: Config, s: State, t: State)
    requires Numbered(s.gens.Keys, s.sealed.Keys, s.doomed, s.highest) && Swept(c, s) && BeginNext(s) == Some(t)
    ensures Swept(c, t)
  {
    BeginTakesHigher(s, t);
    HigherIsNotDoomed(c, s.gens.Keys, s.doomed, s.highest + 1);
  }

  lemma SweptRename(c: Config, s: State, t: State)
    requires s.pc.Copying? && s.pc.next in s.gens && (forall g :: g in s.gens ==> g <= s.pc.next)
    requires Swept(c, s) && RenameNext(c, s) == Some(t)
    ensures Swept(c, t) && t.pc.Pruning? && t.gens == s.gens && t.sealed == s.sealed
  {
    BeyondSparesHighest(c, s.gens.Keys, s.pc.next);
  }

  lemma NextIsHighest(c: Config, s: State)
    requires Structure(c, s)
    ensures s.pc.Copying? ==> s.pc.next in s.gens && forall g :: g in s.gens ==> g <= s.pc.next
  {
  }

  lemma SweptPrune(c: Config, s: State, a: Step, t: State)
    requires Swept(c, s) && PruneStep(a) && PruneNext(s, a) == Some(t)
    ensures Swept(c, t)
  {
    match a
    case RemoveEntry(g, e) => assert t.gens.Keys == s.gens.Keys;
    case RemoveDir(g) =>
      assert t.gens.Keys == s.gens.Keys - {g};
      BeyondIsLow(c, s.gens.Keys, g);
      BeyondWithoutOne(c, s.gens.Keys, s.pc.victims, g);
  }

  lemma SweptStep(c: Config, s: State, a: Step, t: State)
    requires Numbered(s.gens.Keys, s.sealed.Keys, s.doomed, s.highest)
    requires s.pc.Copying? ==> s.pc.next in s.gens && forall g :: g in s.gens ==> g <= s.pc.next
    requires Swept(c, s) && Next(c, s, a) == Some(t)
    ensures Swept(c, t)
  {
    if a.Begin? {
      SweptBegin(c, s, t);
    } else if a.Rename? {
      SweptRename(c, s, t);
    } else if PruneStep(a) {
      SweptPrune(c, s, a, t);
    } else {
      OthersKeepNumbers(c, s, a, t);
    }
  }

  lemma SweptRun(c: Config, run: seq<Step>, t: State)
    requires Run(c, EMPTY, run) == Some(t)
    ensures Structure(c, t) && Swept(c, t)
    decreases |run|
  {
    if run != [] {
      var u := Run(c, EMPTY, run[..|run| - 1]).value;
      SweptRun(c, run[..|run| - 1], u);
      StructureStep(c, u, run[|run| - 1], t);
      NextIsHighest(c, u);
      SweptStep(c, u, run[|run| - 1], t);
    }
  }

  // ---- what is left ---------------------------------------------------------------

  /** No step of this run ends the prune. */
  ghost predicate PruneGoesOn(run: seq<Step>) {
    forall i :: 0 <= i < |run| ==> !run[i].Finish? && !run[i].Crash?
  }

  lemma LeftStep(c: Config, s: State, a: Step, t: State)
    requires s.pc.Pruning? && Next(c, s, a) == Some(t) && !a.Finish? && !a.Crash?
    ensures t.pc.Pruning? && t.gens.Keys - t.pc.victims == s.gens.Keys - s.pc.victims && t.sealed == s.sealed
  {
    if AgentStep(a) {
      AgentIsFree(c, s, a, t);
      AgentKeepsNumbers(c, s, a, t);
    }
  }

  lemma LeftRun(c: Config, s: State, run: seq<Step>, t: State)
    requires s.pc.Pruning? && Run(c, s, run) == Some(t) && PruneGoesOn(run)
    ensures t.pc.Pruning? && t.gens.Keys - t.pc.victims == s.gens.Keys - s.pc.victims && t.sealed == s.sealed
    decreases |run|
  {
    if run != [] {
      var front := run[..|run| - 1];
      var u := Run(c, s, front).value;
      LeftRun(c, s, front, u);
      LeftStep(c, u, run[|run| - 1], t);
    }
  }

  lemma RunsAppend(c: Config, s: State, first: seq<Step>, second: seq<Step>)
    requires Run(c, s, first).Some?
    ensures Run(c, s, first + second) == Run(c, Run(c, s, first).value, second)
    decreases |second|
  {
    if second == [] {
      assert first + second == first;
    } else {
      var front := second[..|second| - 1];
      RunsAppend(c, s, first, front);
      assert (first + second)[..|first + second| - 1] == first + front;
    }
  }

  lemma ReachedOn(c: Config, s: State, run: seq<Step>, t: State)
    requires Reaches(c, s) && Run(c, s, run) == Some(t)
    ensures Reaches(c, t)
  {
    var before :| Run(c, EMPTY, before) == Some(s);
    RunsAppend(c, EMPTY, before, run);
    assert Run(c, EMPTY, before + run) == Some(t);
  }

  lemma ReachedSwept(c: Config, s: State)
    requires Reaches(c, s)
    ensures Structure(c, s) && Swept(c, s)
  {
    var run :| Run(c, EMPTY, run) == Some(s);
    SweptRun(c, run, s);
  }

  /** How many are whole among those left, and when that is as many as Retain asks for. */
  lemma CountWhole(gens: set<nat>, oldest: set<nat>, sealed: set<nat>, keep: nat)
    requires oldest <= gens && |gens - oldest| == if |gens| < keep then |gens| else keep
    ensures |(gens - oldest) * sealed| == |gens - oldest| - |(gens - oldest) - sealed|
    ensures |(gens - oldest) * sealed| == keep <==> |gens| >= keep && gens - sealed <= oldest
  {
    var left := gens - oldest;
    assert left == left * sealed + (left - sealed);
    if gens - sealed <= oldest {
      assert left - sealed == {};
    } else {
      var x :| x in gens - sealed && x !in oldest;
      assert x in left - sealed;
    }
  }

  lemma BeyondSize(c: Config, gens: set<nat>)
    ensures Beyond(c, gens) <= gens
    ensures |gens - Beyond(c, gens)| == if |gens| < Keep(c.retain) then |gens| else Keep(c.retain)
  {
    OldestSize(gens, |gens| - Keep(c.retain));
  }

  /** The prune a rename began. */
  lemma RenameIsReached(c: Config, s: State, u: State)
    requires Reaches(c, s) && RenameNext(c, s) == Some(u)
    ensures Reaches(c, u) && u.pc.Pruning? && u.sealed == s.sealed
    ensures u.gens.Keys - u.pc.victims == s.gens.Keys - Beyond(c, s.gens.Keys)
  {
    ReachedSwept(c, s);
    NextIsHighest(c, s);
    SweptRename(c, s, u);
    assert Next(c, s, Rename) == Some(u);
    assert Run(c, s, []) == Some(s);
    RunAppend(c, s, [], Rename);
    ReachedOn(c, s, [Rename], u);
  }

  lemma LeftAtTheEnd(c: Config, w: State, t: State)
    requires Reaches(c, w) && w.pc.Pruning? && FinishNext(w) == Some(t)
    ensures t.gens.Keys == w.gens.Keys - w.pc.victims && t.gens.Keys !! t.doomed && t.sealed == w.sealed
  {
    ReachedSwept(c, w);
  }

  lemma LeftFromRename(c: Config, s: State, u: State, run: seq<Step>, w: State, t: State)
    requires Reaches(c, s) && RenameNext(c, s) == Some(u)
    requires Run(c, u, run) == Some(w) && PruneGoesOn(run) && FinishNext(w) == Some(t)
    ensures t.gens.Keys == s.gens.Keys - Beyond(c, s.gens.Keys) && t.gens.Keys !! t.doomed && t.sealed == s.sealed
  {
    RenameIsReached(c, s, u);
    ReachedOn(c, u, run, w);
    LeftRun(c, u, run, w);
    LeftAtTheEnd(c, w, t);
  }

  /** A checkpoint that renamed `current` in s and finished in t leaves the Keep(retain) highest
      numbers, none of them half removed. Those that are finished generations are as many as
      Retain asks for exactly when there were that many directories and no unfinished one was
      among the highest: a crash in mid-copy costs a place. */
  lemma FallbacksLeft(c: Config, s: State, u: State, run: seq<Step>, w: State, t: State)
    requires Reaches(c, s) && RenameNext(c, s) == Some(u)
    requires Run(c, u, run) == Some(w) && PruneGoesOn(run) && FinishNext(w) == Some(t)
    ensures t.gens.Keys == s.gens.Keys - Beyond(c, s.gens.Keys) && t.gens.Keys !! t.doomed && t.sealed == s.sealed
    ensures |t.gens.Keys * t.sealed.Keys| == |t.gens| - |t.gens.Keys - t.sealed.Keys|
    ensures |t.gens.Keys * t.sealed.Keys| == Keep(c.retain) <==>
              |s.gens| >= Keep(c.retain) && s.gens.Keys - s.sealed.Keys <= Beyond(c, s.gens.Keys)
  {
    LeftFromRename(c, s, u, run, w, t);
    BeyondSize(c, s.gens.Keys);
    CountWhole(s.gens.Keys, Beyond(c, s.gens.Keys), s.sealed.Keys, Keep(c.retain));
    assert |t.gens.Keys| == |t.gens| && |s.gens.Keys| == |s.gens|;
  }

  // ---- a whole generation lost to a partial one ------------------------------------

  lemma FirstIsWhole(c: Config, reach: State -> bool) returns (s: State)
    requires Inductive(c, reach)
    ensures reach(s) && s.phase == Free && s.pc == Idle && s.live == map[FILE := 1]
    ensures s.inodes == map[1 := File(OLD, 5), 2 := File(OLD, 5)] && s.last == map[FILE := Stamp(1, 5)]
    ensures s.gens.Keys == {1} && s.gens[1].files == map[FILE := 2] && s.current == Some(1) && s.sealed.Keys == {1}
  {
    s := CopyIsOpen(c, reach);
    s := CopiedWhole(c, reach, s);
    s := Commit(c, reach, s);
    VictimsSpare({1}, c.retain, 1);
    assert s.pc.victims == {};
    s := RemoveAndFinish(c, reach, s, 1);
  }

  lemma CopiedWhole(c: Config, reach: State -> bool, s: State) returns (t: State)
    requires Inductive(c, reach) && reach(s) && s.inodes == map[1 := File(OLD, 5), 2 := File([], 0)]
    requires s.pc == Copying(Interval, map[FILE := Stamp(1, 5)], 1, {FILE}, Some(Fd(FILE, 1, 5, 2, 0)), false, 0, Files)
    ensures reach(t) && t == s.(inodes := t.inodes, pc := t.pc)
    ensures t.inodes == map[1 := File(OLD, 5), 2 := File(OLD, 5)]
    ensures t.pc == Copying(Interval, map[FILE := Stamp(1, 5)], 1, {}, None, false, 1, Files)
  {
    t := Fill(c, reach, s, Read(1, 0));
    assert t.inodes[2].data == OLD;
    t := Fill(c, reach, t, Close);
    assert t.pc.todo == {};
  }

  /** The agent removes its only file, and the next tick makes the directory for that. */
  lemma EmptyTreeBegins(c: Config, reach: State -> bool, s: State, n: nat) returns (t: State)
    requires Inductive(c, reach) && reach(s) && s.phase == Free && s.pc == Idle && s.live.Keys == {FILE}
    requires s.last == map[FILE := Stamp(1, 5)] && s.gens != map[] && n > 0 && IsMax(n - 1, s.gens.Keys)
    ensures reach(t) && t == s.(live := map[], calm := true, gens := s.gens[n := Gen(map[], None)], highest := n, pc := t.pc)
    ensures t.pc == Copying(Interval, map[], n, {}, None, !s.inflight, 0, Files)
  {
    t := Agent(c, reach, s, Delete(FILE));
    assert t.live == map[];
    t := Scan(c, reach, t, Start(Interval));
    assert t.pc.todo == {} && FILE in t.last && FILE !in t.pc.seen && s.gens.Keys != {};
    t := Scan(c, reach, t, Begin);
  }

  lemma SecondIsPartial(c: Config, reach: State -> bool) returns (s: State)
    requires Inductive(c, reach)
    ensures reach(s) && s.phase == Free && s.pc == Idle && s.live == map[] && s.last == map[] && !s.restored
    ensures s.inodes == map[1 := File(OLD, 5), 2 := File(OLD, 5)]
    ensures s.gens.Keys == {1, 2} && s.gens[1].files == map[FILE := 2] && s.current == Some(1) && s.sealed.Keys == {1}
  {
    s := FirstIsWhole(c, reach);
    assert IsMax(1, s.gens.Keys);
    s := EmptyTreeBegins(c, reach, s, 2);
    assert Next(c, s, Crash) == Some(Reboot(s));
    s := Reboot(s);
  }

  lemma RestoreFirst(c: Config, reach: State -> bool, s: State) returns (t: State)
    requires Inductive(c, reach) && reach(s) && s.phase == Free && s.pc == Idle && !s.restored
    requires s.live == map[] && s.inodes == map[1 := File(OLD, 5), 2 := File(OLD, 5)]
    requires s.current == Some(1) && 1 in s.gens && s.gens[1].files == map[FILE := 2]
    ensures reach(t) && t.phase == Free && t.pc == Idle && t.live == map[FILE := 3] && t.last == map[FILE := Stamp(1, 5)]
    ensures t.gens == s.gens && t.current == s.current && t.sealed == s.sealed
  {
    t := Contract(c, reach, s, Ask);
    assert Base(FILE) == FILE;
    t := RestoreOne(c, reach, t);
    t := Contract(c, reach, t, HandOut);
  }

  lemma Restore(c: Config, reach: State -> bool, s: State, a: Step) returns (t: State)
    requires Inductive(c, reach) && reach(s) && RestoreStep(a) && RestoreNext(c, s, a).Some?
    ensures RestoreNext(c, s, a) == Some(t) && reach(t)
  {
    t := RestoreNext(c, s, a).value;
    assert Next(c, s, a) == Some(t);
  }

  lemma RestoreOne(c: Config, reach: State -> bool, s: State) returns (t: State)
    requires Inductive(c, reach) && reach(s) && s.phase == Asking && s.pc == Idle && !s.restored && !IsMeta(FILE)
    requires s.live == map[] && s.inodes == map[1 := File(OLD, 5), 2 := File(OLD, 5)]
    requires s.current == Some(1) && 1 in s.gens && s.gens[1].files == map[FILE := 2]
    ensures reach(t) && t.live == map[FILE := 3] && t.last == map[FILE := Stamp(1, 5)] && t.restored
    ensures t == s.(inodes := t.inodes, live := t.live, last := t.last, restored := true, ver := t.ver, pairs := t.pairs)
  {
    t := Restore(c, reach, s, RestoreBegin);
    assert t.pc == Restoring({FILE});
    t := RestoreOnly(c, reach, t);
  }

  lemma RestoreOnly(c: Config, reach: State -> bool, s: State) returns (t: State)
    requires Inductive(c, reach) && reach(s) && s.pc == Restoring({FILE})
    requires s.live == map[] && s.inodes == map[1 := File(OLD, 5), 2 := File(OLD, 5)]
    requires s.current == Some(1) && 1 in s.gens && s.gens[1].files == map[FILE := 2]
    ensures reach(t) && t.live == map[FILE := 3] && t.last == map[FILE := Stamp(1, 5)]
    ensures t == s.(inodes := t.inodes, live := t.live, last := t.last, restored := true, ver := t.ver, pairs := t.pairs,
                    pc := Idle)
  {
    t := Restore(c, reach, s, RestoreFile(FILE, 3));
    assert t.pc == Restoring({});
    t := Restore(c, reach, t, RestoreEnd);
  }

  lemma LowestOfThree(s: set<nat>)
    requires s == {1, 2, 3}
    ensures Victims(s, 2, Some(3)) == {1}
  {
    assert IsMin(1, s);
    assert Min(s) == 1;
    assert Oldest(s, 1) == {1} + Oldest(s - {1}, 0);
  }

  lemma ThirdBegins(c: Config, reach: State -> bool) returns (s: State)
    requires Inductive(c, reach)
    ensures reach(s) && s.gens.Keys == {1, 2, 3} && s.sealed.Keys == {1} && s.gens[3] == Gen(map[], None)
    ensures s.pc.Copying? && s.pc.todo == {} && s.pc.fd == None && s.pc.stage == Files && s.pc.next == 3
  {
    s := SecondIsPartial(c, reach);
    s := RestoreFirst(c, reach, s);
    assert IsMax(2, s.gens.Keys);
    s := EmptyTreeBegins(c, reach, s, 3);
  }

  /** With two generations to retain: one whole generation, one a crash left unfinished, and the
      new one. The prune removes the whole one and keeps the unfinished one, so there is nothing
      to fall back on. */
  lemma PartialTakesThePlace(c: Config, reach: State -> bool) returns (s: State)
    requires Inductive(c, reach) && c.retain == 2
    ensures reach(s) && s.pc == Idle && s.gens.Keys == {2, 3} && s.current == Some(3)
    ensures s.sealed.Keys == {1, 3}
  {
    s := ThirdBegins(c, reach);
    s := Commit(c, reach, s);
    LowestOfThree(s.gens.Keys);
    s := RemoveAndFinish(c, reach, s, 1);
  }
}
