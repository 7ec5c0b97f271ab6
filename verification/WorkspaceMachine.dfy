/**
 Reclaiming workspaces beside a running cluster: conversations are created and deleted, the
 kubelet mounts directories for them, and the reclaimer scans the disk, lists the API and
 removes what it takes for orphans (platform/housekeeping/reclaim.go).
 */
module WorkspaceMachine {
  type Name = string

  predicate NameByte(ch: char) {
    'a' <= ch <= 'z' || '0' <= ch <= '9' || ch == '-' || ch == '.'
  }

  /** A valid object name, which a directory has to have before it is taken for a workspace. */
  predicate CouldBeConversation(name: Name) {
    name != "" && |name| <= 253 && name[0] != '.' && forall i :: 0 <= i < |name| ==> NameByte(name[i])
  }

  /** What the argument for the reclaimer rests on. */
  datatype Config = Config(
    scanFirst: bool, // the disk is scanned before the API is listed
    noReuse: bool,   // a conversation's name is never given to another
    crFirst: bool)   // a workspace is mounted for a conversation created before

  datatype Phase = Idle | Scanning | Listing | Removing

  datatype State = State(
    live: set<Name>,   // conversations that exist
    used: set<Name>,   // names conversations have had
    dirs: set<Name>,   // directories on the claim
    phase: Phase,
    seen: set<Name>,   // what the scan has found
    listed: set<Name>, // what the listing returned
    removed: set<Name>, // removed by this run
    harmed: set<Name>) // removed while their conversation existed

  const EMPTY := State({}, {}, {}, Idle, {}, {}, {}, {})

  /** One step of the cluster or of the reclaimer. The scan reads the directory entry by entry
      and may miss some; the listing is one request. */
  datatype Step =
    | Create(name: Name)
    | Delete(name: Name)
    | Mount(name: Name)
    | Foreign(name: Name)
    | Begin
    | See(name: Name)
    | EndScan
    | List
    | Remove(name: Name, gone: bool)
    | Stop

  /** A step that is not possible leaves the state as it is. */
  function Next(c: Config, s: State, step: Step): State {
    match step
    case Create(n) =>
      if n in s.live || (c.noReuse && n in s.used) || !CouldBeConversation(n) then s
      else s.(live := s.live + {n}, used := s.used + {n})
    case Delete(n) => s.(live := s.live - {n})
    case Mount(n) =>
      if (c.crFirst && n !in s.used) || !CouldBeConversation(n) then s else s.(dirs := s.dirs + {n})
    case Foreign(n) => if CouldBeConversation(n) then s else s.(dirs := s.dirs + {n})
    case Begin =>
      if s.phase != Idle then s
      else s.(phase := if c.scanFirst then Scanning else Listing, seen := {}, listed := {}, removed := {})
    case See(n) =>
      if s.phase != Scanning || n !in s.dirs || !CouldBeConversation(n) then s else s.(seen := s.seen + {n})
    case EndScan => if s.phase != Scanning then s else s.(phase := if c.scanFirst then Listing else Removing)
    case List =>
      if s.phase != Listing then s
      else s.(phase := if c.scanFirst then Removing else Scanning, listed := s.live)
    case Remove(n, gone) =>
      if s.phase != Removing || n !in s.seen || n in s.listed then s
      else s.(dirs := if gone then s.dirs - {n} else s.dirs, removed := s.removed + {n},
              harmed := if n in s.live then s.harmed + {n} else s.harmed)
    case Stop => s.(phase := Idle)
  }

  function Run(c: Config, steps: seq<Step>): State {
    if steps == [] then EMPTY else Next(c, Run(c, steps[..|steps| - 1]), steps[|steps| - 1])
  }

  ghost predicate Reaches(c: Config, s: State) {
    exists steps :: Run(c, steps) == s
  }

  lemma Go(c: Config, s: State, step: Step) returns (t: State)
    requires Reaches(c, s)
    ensures t == Next(c, s, step) && Reaches(c, t)
  {
    t := Next(c, s, step);
    var steps :| Run(c, steps) == s;
    assert (steps + [step])[..|steps|] == steps;
    assert Run(c, steps + [step]) == t;
  }

  // ---- Safety ------------------------------------------------------------------------

  /** What every step keeps when the order and both assumptions hold: a name found on disk had
      a conversation before, so one missing from the later listing is gone for good. */
  ghost predicate Inv(s: State) {
    s.live <= s.used
    && (forall n :: n in s.dirs && CouldBeConversation(n) ==> n in s.used)
    && s.seen <= s.used
    && (s.phase == Removing ==> forall n :: n in s.seen && n !in s.listed ==> n !in s.live)
    && s.harmed == {}
  }

  lemma InvStep(c: Config, s: State, step: Step)
    requires c.scanFirst && c.noReuse && c.crFirst && Inv(s)
    ensures Inv(Next(c, s, step))
  {
  }

  lemma {:induction false} InvRun(c: Config, steps: seq<Step>)
    requires c.scanFirst && c.noReuse && c.crFirst
    ensures Inv(Run(c, steps))
  {
    if steps != [] {
      InvRun(c, steps[..|steps| - 1]);
      InvStep(c, Run(c, steps[..|steps| - 1]), steps[|steps| - 1]);
    }
  }

  ghost predicate Safe(c: Config) {
    forall s :: Reaches(c, s) ==> s.harmed == {}
  }

  lemma AIsName(a: Name)
    requires a == "a"
    ensures CouldBeConversation(a)
  {
  }

  /** Listing first: a conversation created in between looks like an orphan. */
  lemma ListFirstHarms(c: Config)
    requires !c.scanFirst
    ensures !Safe(c)
  {
    var a := "a";
    AIsName(a);
    var s := EMPTY;
    assert Run(c, []) == s;
    s := Go(c, s, Begin);
    s := Go(c, s, List);
    s := Go(c, s, Create(a));
    s := Go(c, s, Mount(a));
    s := Go(c, s, See(a));
    s := Go(c, s, EndScan);
    s := Go(c, s, Remove(a, true));
    assert s.harmed == {a};
  }

  /** A name given out again between the listing and the removal. */
  lemma ReuseHarms(c: Config)
    requires c.scanFirst && !c.noReuse
    ensures !Safe(c)
  {
    var a := "a";
    AIsName(a);
    var s := EMPTY;
    assert Run(c, []) == s;
    s := Go(c, s, Create(a));
    s := Go(c, s, Mount(a));
    s := Go(c, s, Delete(a));
    s := Go(c, s, Begin);
    s := Go(c, s, See(a));
    s := Go(c, s, EndScan);
    s := Go(c, s, List);
    s := Go(c, s, Create(a));
    s := Go(c, s, Remove(a, true));
    assert s.harmed == {a};
  }

  /** A directory mounted before its conversation is created. */
  lemma EarlyMountHarms(c: Config)
    requires c.scanFirst && !c.crFirst
    ensures !Safe(c)
  {
    var a := "a";
    AIsName(a);
    var s := EMPTY;
    assert Run(c, []) == s;
    s := Go(c, s, Mount(a));
    s := Go(c, s, Begin);
    s := Go(c, s, See(a));
    s := Go(c, s, EndScan);
    s := Go(c, s, List);
    s := Go(c, s, Create(a));
    s := Go(c, s, Remove(a, true));
    assert s.harmed == {a};
  }

  /** In every interleaving of creations, deletions, mounts and the reclaimer's own steps, no
      existing conversation's workspace is removed; exactly when the disk is read before the
      API, names are not reused, and a conversation predates its directory. */
  lemma SafeExactlyWhen(c: Config)
    ensures Safe(c) <==> c.scanFirst && c.noReuse && c.crFirst
  {
    if !c.scanFirst {
      ListFirstHarms(c);
    } else if !c.noReuse {
      ReuseHarms(c);
    } else if !c.crFirst {
      EarlyMountHarms(c);
    } else {
      forall s | Reaches(c, s)
        ensures s.harmed == {}
      {
        var steps :| Run(c, steps) == s;
        InvRun(c, steps);
      }
    }
  }

  /** What no conversation could have created is never removed, whatever the order. */
  ghost predicate Ours(s: State) {
    (forall n :: n in s.seen ==> CouldBeConversation(n)) && forall n :: n in s.removed ==> CouldBeConversation(n)
  }

  lemma {:induction false} ForeignIsSpared(c: Config, steps: seq<Step>)
    ensures Ours(Run(c, steps))
  {
    if steps != [] {
      ForeignIsSpared(c, steps[..|steps| - 1]);
    }
  }

  lemma ReachedIsUnharmed(c: Config, s: State)
    requires Reaches(c, s) && c.scanFirst && c.noReuse && c.crFirst
    ensures s.harmed == {}
  {
    SafeExactlyWhen(c);
  }
}
