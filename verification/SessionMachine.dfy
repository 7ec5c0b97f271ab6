/**
 Reclaiming transcripts beside running sessions. A session's file exists before the
 conversation refers to it, so the order of the reads proves nothing here: a file is spared
 for its reference or for its age (platform/housekeeping/reclaim.go).
 */
module SessionMachine {
  type Session = string

  /** Times in one unit: the longest run, the longest delay from the listing to the reading of
      the clock, and the grace a file gets. */
  datatype Config = Config(maxRun: nat, lag: nat, grace: nat)

  datatype Phase = Idle | Scanning | Listing | Listed | Removing

  datatype State = State(
    now: nat,
    files: map<Session, nat>,   // transcript files and when each was last written
    flights: map<Session, nat>, // sessions running, and since when
    refs: set<Session>,         // sessions an existing conversation refers to
    used: set<Session>,         // session ids ever given out
    phase: Phase,
    seen: map<Session, nat>,    // what the scan has found
    listed: set<Session>,       // what the listing returned
    listedAt: nat,
    cutoff: int,
    removed: set<Session>,
    harmed: set<Session>)       // removed while running or referred to

  const EMPTY := State(0, map[], map[], {}, {}, Idle, map[], {}, 0, 0, {}, {})

  datatype Step =
    | Tick
    | Start(id: Session)  // a run on a new session
    | Resume(id: Session) // a run on the session its conversation refers to
    | Write(id: Session)
    | Done(id: Session)   // the run's end makes the conversation refer to its session
    | Drop(id: Session)   // the conversation is deleted, or refers to another session
    | Begin
    | See(id: Session)
    | EndScan
    | List
    | Clock
    | Remove(id: Session)
    | Stop

  /** Time does not pass the end of a run, nor leave the clock unread for longer than the lag. */
  predicate MayTick(c: Config, s: State) {
    (forall id :: id in s.flights ==> s.now + 1 <= s.flights[id] + c.maxRun)
    && (s.phase == Listed ==> s.now + 1 <= s.listedAt + c.lag)
  }

  predicate Orphan(s: State, id: Session) {
    id in s.seen && id !in s.listed && s.seen[id] < s.cutoff
  }

  predicate Alive(s: State, id: Session) {
    id in s.refs || id in s.flights
  }

  /** A step that is not possible leaves the state as it is. */
  function Next(c: Config, s: State, step: Step): State {
    match step
    case Tick => if MayTick(c, s) then s.(now := s.now + 1) else s
    case Start(id) =>
      if id in s.used then s else s.(flights := s.flights[id := s.now], used := s.used + {id})
    case Resume(id) => if id !in s.refs || id in s.flights then s else s.(flights := s.flights[id := s.now])
    case Write(id) => if id in s.flights then s.(files := s.files[id := s.now]) else s
    case Done(id) => if id in s.flights then s.(flights := s.flights - {id}, refs := s.refs + {id}) else s
    case Drop(id) => s.(flights := s.flights - {id}, refs := s.refs - {id})
    case Begin => if s.phase == Idle then s.(phase := Scanning, seen := map[], listed := {}, removed := {}) else s
    case See(id) => if s.phase == Scanning && id in s.files then s.(seen := s.seen[id := s.files[id]]) else s
    case EndScan => if s.phase == Scanning then s.(phase := Listing) else s
    case List => if s.phase == Listing then s.(phase := Listed, listed := s.refs, listedAt := s.now) else s
    case Clock => if s.phase == Listed then s.(phase := Removing, cutoff := s.now - c.grace) else s
    case Remove(id) =>
      if s.phase == Removing && Orphan(s, id)
      then s.(files := s.files - {id}, removed := s.removed + {id},
              harmed := if Alive(s, id) then s.harmed + {id} else s.harmed)
      else s
    case Stop => s.(phase := Idle)
  }

  function Run(c: Config, steps: seq<Step>): State {
    if steps == [] then EMPTY else Next(c, Run(c, steps[..|steps| - 1]), steps[|steps| - 1])
  }

  ghost predicate Reaches(c: Config, s: State) {
    exists steps :: Run(c, steps) == s
  }

  lemma Go(c: Config, s: State, step: Step) returns (t: State)
    requires Reaches(c, s)
    ensures t == Next(c, s, step) && Reaches(c, t)
  {
    t := Next(c, s, step);
    var steps :| Run(c, steps) == s;
    assert (steps + [step])[..|steps|] == steps;
    assert Run(c, steps + [step]) == t;
  }

  // ---- Safety ------------------------------------------------------------------------

  ghost predicate Clocks(c: Config, s: State) {
    (forall id :: id in s.flights ==> s.flights[id] <= s.now <= s.flights[id] + c.maxRun)
    && (forall id :: id in s.files && id in s.flights && id !in s.refs ==> s.flights[id] <= s.files[id])
    && (s.phase == Listed ==> s.listedAt <= s.now <= s.listedAt + c.lag)
    && (s.phase == Removing ==> s.cutoff <= s.listedAt + c.lag - c.grace)
  }

  ghost predicate Known(s: State) {
    s.refs <= s.used && s.flights.Keys <= s.used && s.files.Keys <= s.used && s.seen.Keys <= s.used
  }

  /** What is seen and unlisted and yet alive was written no longer than a run before the
      listing. */
  ghost predicate Recent(c: Config, s: State) {
    (s.phase == Scanning || s.phase == Listing ==>
       forall id :: id in s.seen && id in s.flights && id !in s.refs ==> s.flights[id] <= s.seen[id])
    && (s.phase == Listed || s.phase == Removing ==>
          forall id :: id in s.seen && id !in s.listed && Alive(s, id) ==> s.listedAt <= s.seen[id] + c.maxRun)
  }

  lemma ClocksStep(c: Config, s: State, step: Step)
    requires Clocks(c, s) && Known(s)
    ensures Clocks(c, Next(c, s, step)) && Known(Next(c, s, step))
  {
  }

  lemma RecentStep(c: Config, s: State, step: Step)
    requires Clocks(c, s) && Known(s) && Recent(c, s)
    ensures Recent(c, Next(c, s, step))
  {
  }

  lemma HarmlessStep(c: Config, s: State, step: Step)
    requires c.maxRun + c.lag <= c.grace && Clocks(c, s) && Recent(c, s) && s.harmed == {}
    ensures Next(c, s, step).harmed == {}
  {
  }

  lemma {:induction false} InvRun(c: Config, steps: seq<Step>)
    ensures Clocks(c, Run(c, steps)) && Known(Run(c, steps)) && Recent(c, Run(c, steps))
    ensures c.maxRun + c.lag <= c.grace ==> Run(c, steps).harmed == {}
  {
    if steps != [] {
      var s, step := Run(c, steps[..|steps| - 1]), steps[|steps| - 1];
      InvRun(c, steps[..|steps| - 1]);
      ClocksStep(c, s, step);
      RecentStep(c, s, step);
      if c.maxRun + c.lag <= c.grace {
        HarmlessStep(c, s, step);
      }
    }
  }

  ghost predicate Safe(c: Config) {
    forall s :: Reaches(c, s) ==> s.harmed == {}
  }

  lemma {:induction false} Wait(c: Config, s: State, n: nat) returns (t: State)
    requires Reaches(c, s)
    requires forall id :: id in s.flights ==> s.now + n <= s.flights[id] + c.maxRun
    requires s.phase == Listed ==> s.now + n <= s.listedAt + c.lag
    ensures Reaches(c, t) && t == s.(now := s.now + n)
    decreases n
  {
    t := s;
    if n > 0 {
      t := Go(c, s, Tick);
      t := Wait(c, t, n - 1);
    }
  }

  lemma LongRun(c: Config, id: Session) returns (s: State)
    ensures Reaches(c, s)
    ensures s == EMPTY.(now := c.maxRun, files := map[id := 0], flights := map[id := 0], used := {id})
  {
    s := EMPTY;
    assert Run(c, []) == s;
    s := Go(c, s, Start(id));
    s := Go(c, s, Write(id));
    s := Wait(c, s, c.maxRun);
  }

  lemma SeenAndListed(c: Config, id: Session) returns (s: State)
    ensures Reaches(c, s)
    ensures s == EMPTY.(now := c.maxRun, files := map[id := 0], refs := {id}, used := {id}, phase := Listed,
            seen := map[id := 0], listedAt := c.maxRun)
  {
    s := LongRun(c, id);
    s := Go(c, s, Begin);
    s := Go(c, s, See(id));
    s := Go(c, s, EndScan);
    s := Go(c, s, List);
    s := Go(c, s, Done(id));
    assert s.flights == map[];
  }

  /** A run as long as runs get writes first and last at its start; the listing finds it
      unreferenced, and by the time the clock is read its grace is over. */
  lemma ShortGraceHarms(c: Config)
    requires c.grace < c.maxRun + c.lag
    ensures !Safe(c)
  {
    var id := "s";
    var s := SeenAndListed(c, id);
    s := Wait(c, s, c.lag);
    s := Go(c, s, Clock);
    s := Go(c, s, Remove(id));
    assert s.harmed == {id};
  }

  /** No transcript of a running session or of one a conversation refers to is ever removed;
      exactly when the grace covers the longest run and the time from the listing to the
      reading of the clock. */
  lemma SafeExactlyWhen(c: Config)
    ensures Safe(c) <==> c.maxRun + c.lag <= c.grace
  {
    if c.maxRun + c.lag <= c.grace {
      forall s | Reaches(c, s)
        ensures s.harmed == {}
      {
        var steps :| Run(c, steps) == s;
        InvRun(c, steps);
      }
    } else {
      ShortGraceHarms(c);
    }
  }
}
