/**
 The gateway's update pump as a state machine: one step per arrival at Telegram, per read of the
 stored offset, per poll, per forward, per move of the offset and per report of it, and one for a
 crash. What the process knows is the offset and the rest of its batch.
 */
module GatewayMachine {
  import opened Wrappers
  import opened Decimal

  /** Ids stay below the largest 64-bit integer, so the offset after one is in range. */
  type UpdateID = i: nat | i < MAX_INT64

  datatype Update = Update(id: UpdateID, isTopicMessage: bool, callbackID: string)

  datatype Target = Signal | Channel

  datatype Attempt = Attempt(id: nat, target: Target)

  /** Where the pump is: between polls; with the updates from `next` to `end` of what has arrived
      still to forward; with the first of them forwarded and the offset not yet moved; with the
      offset moved past the one before `next` and not yet reported. */
  datatype Pc =
    | Polling
    | Holding(next: nat, end: nat)
    | Forwarded(next: nat, end: nat)
    | Moved(next: nat, end: nat)

  /** `reliable`: an adapter takes every update forwarded to it. */
  datatype Config = Config(reliable: bool)

  datatype State = State(
    // Telegram: what has arrived, and the offset below which nothing is handed out again
    arrived: seq<Update>, confirmed: int,
    // what the channel adapter keeps
    stored: string,
    // the process; -1 is an offset not obtained yet
    offset: int, at: Pc,
    // history: what this life of the process tried, what earlier lives tried, what came of it
    attempts: seq<Attempt>, lives: seq<seq<Attempt>>, delivered: set<nat>, failed: set<nat>)

  function Start(stored: string): State {
    State([], 0, stored, -1, Polling, [], [], {}, {})
  }

  function Attempted(s: State): set<nat> {
    s.delivered + s.failed
  }

  function Frontier(us: seq<Update>): nat {
    if us == [] then 0 else us[|us| - 1].id + 1
  }

  function TargetOf(u: Update): Target {
    if u.isTopicMessage then Channel else Signal
  }

  /** How many of the updates lie below k. */
  function Behind(us: seq<Update>, k: int): (n: nat)
    ensures n <= |us| && (forall i :: 0 <= i < n ==> us[i].id < k) && (n < |us| ==> us[n].id >= k)
  {
    if us == [] || us[0].id >= k then 0 else 1 + Behind(us[1..], k)
  }

  function Later(a: int, b: int): int {
    if a < b then b else a
  }

  datatype Step =
    | Arrive(u: Update)
    | Crash
    | Resolve
    | Fetch(n: nat, answered: bool)
    | Forward(arrives: bool)
    | Advance
    | Report(ok: bool, kept: bool)
    | Done

  function ArriveNext(s: State, u: Update): Option<State> {
    if u.id < Frontier(s.arrived) then None else Some(s.(arrived := s.arrived + [u]))
  }

  function CrashNext(s: State): State {
    s.(offset := -1, at := Polling, lives := s.lives + [s.attempts], attempts := [])
  }

  /** Reads the stored offset. */
  function ResolveNext(s: State): Option<State> {
    if s.at == Polling && s.offset < 0 then Some(s.(offset := ParseInt(s.stored))) else None
  }

  /** getUpdates: asking from an offset confirms everything below it, whether or not the answer
      comes back; the answer is a stretch of what is left. */
  function FetchNext(s: State, n: nat, answered: bool): Option<State> {
    var to := Later(s.confirmed, s.offset);
    var lo := Behind(s.arrived, to);
    if s.at == Polling && s.offset >= 0 && lo + n <= |s.arrived| then
      Some(s.(confirmed := to, at := if answered then Holding(lo, lo + n) else Polling))
    else None
  }

  /** Forwards the next update to the adapter its surface belongs to. */
  function ForwardNext(c: Config, s: State, arrives: bool): Option<State> {
    if s.at.Holding? && s.at.next < s.at.end && s.at.next < |s.arrived| && (c.reliable ==> arrives) then
      var u := s.arrived[s.at.next];
      Some(s.(at := Forwarded(s.at.next, s.at.end), attempts := s.attempts + [Attempt(u.id, TargetOf(u))],
              delivered := if arrives then s.delivered + {u.id} else s.delivered,
              failed := if arrives then s.failed else s.failed + {u.id}))
    else None
  }

  /** Moves the offset past it, whatever came of the forward. */
  function AdvanceNext(s: State): Option<State> {
    if s.at.Forwarded? && s.at.next < |s.arrived| then
      Some(s.(offset := s.arrived[s.at.next].id + 1, at := Moved(s.at.next + 1, s.at.end)))
    else None
  }

  /** Has the offset stored; an error does not tell whether it was, and ends the batch. */
  function ReportNext(s: State, ok: bool, kept: bool): Option<State> {
    if s.at.Moved? && s.offset >= 0 then
      Some(s.(stored := if ok || kept then FormatInt(s.offset) else s.stored,
              at := if ok then Holding(s.at.next, s.at.end) else Polling))
    else None
  }

  function DoneNext(s: State): Option<State> {
    if s.at.Holding? && s.at.next >= s.at.end then Some(s.(at := Polling)) else None
  }

  function Next(c: Config, s: State, a: Step): Option<State> {
    match a
    case Arrive(u) => ArriveNext(s, u)
    case Crash => Some(CrashNext(s))
    case Resolve => ResolveNext(s)
    case Fetch(n, answered) => FetchNext(s, n, answered)
    case Forward(arrives) => ForwardNext(c, s, arrives)
    case Advance => AdvanceNext(s)
    case Report(ok, kept) => ReportNext(s, ok, kept)
    case Done => DoneNext(s)
  }

  ghost function Run(c: Config, s: State, run: seq<Step>): Option<State>
    decreases |run|
  {
    if run == [] then Some(s)
    else
      var t := Run(c, s, run[..|run| - 1]);
      if t.None? then None else Next(c, t.value, run[|run| - 1])
  }

  /** A first start: nothing has been stored yet, or nothing that reads as an offset. */
  predicate First(s: State) {
    s == Start(s.stored) && ParseInt(s.stored) == 0
  }

  ghost predicate Reaches(c: Config, s: State) {
    exists first, run :: First(first) && Run(c, first, run) == Some(s)
  }

  // ---- the invariant --------------------------------------------------------------

  ghost predicate Ascending(us: seq<Update>) {
    forall i, j :: 0 <= i < j < |us| ==> us[i].id < us[j].id
  }

  /** No update that has arrived and lies below an offset was left unattempted, and none that
      arrives later will lie below it. */
  ghost predicate Covered(k: int, arrived: seq<Update>, attempted: set<nat>) {
    k <= Frontier(arrived) && forall i :: 0 <= i < |arrived| && arrived[i].id < k ==> arrived[i].id in attempted
  }

  ghost predicate InOrder(attempts: seq<Attempt>) {
    forall i, j :: 0 <= i < j < |attempts| ==> attempts[i].id < attempts[j].id
  }

  /** This life tried nothing at or above k. */
  ghost predicate TriedBelow(attempts: seq<Attempt>, k: int) {
    forall i :: 0 <= i < |attempts| ==> attempts[i].id < k
  }

  /** Of what arrived, everything before n was tried, and everything from n on lies at or above k. */
  ghost predicate TriedUpTo(arrived: seq<Update>, n: nat, k: int, attempted: set<nat>) {
    n <= |arrived| && (forall i :: 0 <= i < n ==> arrived[i].id in attempted)
    && forall i :: n <= i < |arrived| ==> arrived[i].id >= k
  }

  ghost predicate AtOk(s: State) {
    match s.at
    case Polling => TriedBelow(s.attempts, s.offset)
    case Holding(next, end) =>
      s.offset >= 0 && end <= |s.arrived| && TriedBelow(s.attempts, s.offset)
      && TriedUpTo(s.arrived, next, s.offset, Attempted(s)) && TriedUpTo(s.arrived, next, s.confirmed, Attempted(s))
    case Forwarded(next, end) =>
      s.offset >= 0 && next < end <= |s.arrived| && TriedBelow(s.attempts, s.arrived[next].id + 1)
      && TriedUpTo(s.arrived, next + 1, s.confirmed, Attempted(s))
    case Moved(next, end) =>
      0 < next <= end <= |s.arrived| && s.offset == s.arrived[next - 1].id + 1 && TriedBelow(s.attempts, s.offset)
      && TriedUpTo(s.arrived, next, s.confirmed, Attempted(s))
  }

  /** Neither Telegram, nor the store, nor the process has passed an untried update by. */
  ghost predicate Inv(s: State) {
    && Ascending(s.arrived) && Covered(s.confirmed, s.arrived, Attempted(s))
    && Covered(ParseInt(s.stored), s.arrived, Attempted(s)) && ParseInt(s.stored) >= 0
    && Covered(s.offset, s.arrived, Attempted(s)) && s.offset >= -1
    && InOrder(s.attempts) && (forall i :: 0 <= i < |s.lives| ==> InOrder(s.lives[i]))
    && AtOk(s)
  }

  lemma ArrivalCovers(k: int, arrived: seq<Update>, u: Update, attempted: set<nat>)
    requires Covered(k, arrived, attempted) && u.id >= Frontier(arrived)
    ensures Covered(k, arrived + [u], attempted)
  {
  }

  lemma ArrivalAscends(arrived: seq<Update>, u: Update)
    requires Ascending(arrived) && u.id >= Frontier(arrived)
    ensures Ascending(arrived + [u])
  {
  }

  lemma ArrivalTried(arrived: seq<Update>, u: Update, n: nat, k: int, attempted: set<nat>)
    requires TriedUpTo(arrived, n, k, attempted) && k <= Frontier(arrived) <= u.id
    ensures TriedUpTo(arrived + [u], n, k, attempted)
  {
  }

  lemma ArriveKeepsAt(s: State, u: Update, t: State)
    requires AtOk(s) && s.offset <= Frontier(s.arrived) && s.confirmed <= Frontier(s.arrived) && ArriveNext(s, u) == Some(t)
    ensures AtOk(t)
  {
    match s.at
    case Polling =>
    case Holding(next, end) =>
      ArrivalTried(s.arrived, u, next, s.offset, Attempted(s));
      ArrivalTried(s.arrived, u, next, s.confirmed, Attempted(s));
    case Forwarded(next, end) => ArrivalTried(s.arrived, u, next + 1, s.confirmed, Attempted(s));
    case Moved(next, end) => ArrivalTried(s.arrived, u, next, s.confirmed, Attempted(s));
  }

  lemma InvArrive(s: State, u: Update, t: State)
    requires Inv(s) && ArriveNext(s, u) == Some(t)
    ensures Inv(t)
  {
    ArrivalAscends(s.arrived, u);
    ArrivalCovers(s.confirmed, s.arrived, u, Attempted(s));
    ArrivalCovers(ParseInt(s.stored), s.arrived, u, Attempted(s));
    ArrivalCovers(s.offset, s.arrived, u, Attempted(s));
    ArriveKeepsAt(s, u, t);
  }

  lemma InvCrash(s: State)
    requires Inv(s)
    ensures Inv(CrashNext(s))
  {
  }

  lemma InvResolve(s: State, t: State)
    requires Inv(s) && ResolveNext(s) == Some(t)
    ensures Inv(t)
  {
  }

  lemma InvFetch(s: State, n: nat, answered: bool, t: State)
    requires Inv(s) && FetchNext(s, n, answered) == Some(t)
    ensures Inv(t)
  {
  }

  lemma InvForward(c: Config, s: State, arrives: bool, t: State)
    requires Inv(s) && ForwardNext(c, s, arrives) == Some(t)
    ensures Inv(t)
  {
    assert Attempted(t) == Attempted(s) + {s.arrived[s.at.next].id};
  }

  /** An offset moved past an update just tried covers everything below it. */
  lemma AdvanceCovers(s: State, t: State)
    requires Inv(s) && AdvanceNext(s) == Some(t)
    ensures Covered(t.offset, t.arrived, Attempted(t))
  {
  }

  lemma InvAdvance(s: State, t: State)
    requires Inv(s) && AdvanceNext(s) == Some(t)
    ensures Inv(t)
  {
    AdvanceCovers(s, t);
  }

  lemma InvReport(s: State, ok: bool, kept: bool, t: State)
    requires Inv(s) && ReportNext(s, ok, kept) == Some(t)
    ensures Inv(t)
  {
    assert s.offset <= MAX_INT64;
    OffsetRoundTrip(s.offset);
  }

  lemma InvStep(c: Config, s: State, a: Step, t: State)
    requires Inv(s) && Next(c, s, a) == Some(t)
    ensures Inv(t)
  {
    match a
    case Arrive(u) => InvArrive(s, u, t);
    case Crash => InvCrash(s);
    case Resolve => InvResolve(s, t);
    case Fetch(n, answered) => InvFetch(s, n, answered, t);
    case Forward(arrives) => InvForward(c, s, arrives, t);
    case Advance => InvAdvance(s, t);
    case Report(ok, kept) => InvReport(s, ok, kept, t);
    case Done =>
  }

  lemma InvRun(c: Config, s: State, run: seq<Step>, t: State)
    requires Inv(s) && Run(c, s, run) == Some(t)
    ensures Inv(t)
    decreases |run|
  {
    if run != [] {
      var u := Run(c, s, run[..|run| - 1]).value;
      InvRun(c, s, run[..|run| - 1], u);
      InvStep(c, u, run[|run| - 1], t);
    }
  }

  lemma ReachedInv(c: Config, s: State)
    requires Reaches(c, s)
    ensures Inv(s)
  {
    var first, run :| First(first) && Run(c, first, run) == Some(s);
    InvRun(c, first, run, s);
  }

  // ---- what is below an offset ----------------------------------------------------

  /** Telegram will not hand it out again, or the process or the store is past it. */
  predicate Passed(s: State, id: nat) {
    id < s.confirmed || id < s.offset || id < ParseInt(s.stored)
  }

  /** Whatever is passed was forwarded at least once, each life forwards in order, and nothing
      twice. */
  lemma PassedWasTried(s: State, i: nat)
    requires Inv(s) && i < |s.arrived| && Passed(s, s.arrived[i].id)
    ensures s.arrived[i].id in s.delivered || s.arrived[i].id in s.failed
    ensures InOrder(s.attempts) && forall k :: 0 <= k < |s.lives| ==> InOrder(s.lives[k])
  {
    assert s.arrived[i].id in Attempted(s);
  }

  lemma NothingFails(c: Config, s: State, run: seq<Step>, t: State)
    requires c.reliable && s.failed == {} && Run(c, s, run) == Some(t)
    ensures t.failed == {}
    decreases |run|
  {
    if run != [] {
      var u := Run(c, s, run[..|run| - 1]).value;
      NothingFails(c, s, run[..|run| - 1], u);
    }
  }

  lemma ReliableDelivers(c: Config, s: State, i: nat)
    requires c.reliable && Reaches(c, s) && i < |s.arrived| && Passed(s, s.arrived[i].id)
    ensures s.arrived[i].id in s.delivered
  {
    var first, run :| First(first) && Run(c, first, run) == Some(s);
    NothingFails(c, first, run, s);
    ReachedInv(c, s);
    PassedWasTried(s, i);
  }

  // ---- a failed forward -----------------------------------------------------------

  /** Holds at every first start and is kept by every step. */
  ghost predicate Inductive(c: Config, reach: State -> bool) {
    && (forall s :: First(s) ==> reach(s))
    && forall s, a, t :: reach(s) && Next(c, s, a) == Some(t) ==> reach(t)
  }

  lemma FirstReached(c: Config, s: State)
    requires First(s)
    ensures Reaches(c, s)
  {
    assert Run(c, s, []) == Some(s);
  }

  lemma StepReached(c: Config, s: State, a: Step, t: State)
    requires Reaches(c, s) && Next(c, s, a) == Some(t)
    ensures Reaches(c, t)
  {
    var first, run :| First(first) && Run(c, first, run) == Some(s);
    assert (run + [a])[..|run + [a]| - 1] == run;
    assert Run(c, first, run + [a]) == Some(t);
  }

  lemma ReachesIsInductive(c: Config)
    ensures Inductive(c, s => Reaches(c, s))
  {
    forall s | First(s)
      ensures Reaches(c, s)
    {
      FirstReached(c, s);
    }
    forall s, a, t | Reaches(c, s) && Next(c, s, a) == Some(t)
      ensures Reaches(c, t)
    {
      StepReached(c, s, a, t);
    }
  }

  lemma After(c: Config, reach: State -> bool, s: State, a: Step) returns (t: State)
    requires Inductive(c, reach) && reach(s) && Next(c, s, a).Some?
    ensures Next(c, s, a) == Some(t) && reach(t)
  {
    t := Next(c, s, a).value;
  }

  const MESSAGE := Update(0, false, "")

  lemma MessageIsHeld(c: Config, reach: State -> bool) returns (s: State)
    requires Inductive(c, reach)
    ensures reach(s) && s.arrived == [MESSAGE] && s.at == Holding(0, 1) && s.delivered == {}
  {
    assert First(Start(""));
    s := After(c, reach, Start(""), Arrive(MESSAGE));
    s := After(c, reach, s, Resolve);
    assert Behind(s.arrived, 0) == 0;
    s := After(c, reach, s, Fetch(1, true));
  }

  lemma MessageFails(c: Config, reach: State -> bool) returns (s: State)
    requires Inductive(c, reach) && !c.reliable
    ensures reach(s) && s.arrived == [MESSAGE] && s.at == Moved(1, 1) && s.delivered == {} && s.offset == 1
  {
    s := MessageIsHeld(c, reach);
    s := After(c, reach, s, Forward(false));
    s := After(c, reach, s, Advance);
  }

  /** The adapter does not take the message: the failure is logged, the offset goes on, is stored,
      and the next poll confirms it, with the message delivered to nobody. */
  lemma FailedIsPassed(c: Config, reach: State -> bool) returns (s: State)
    requires Inductive(c, reach) && !c.reliable
    ensures reach(s) && s.at == Polling && s.arrived == [MESSAGE] && MESSAGE.id !in s.delivered
    ensures s.offset == 1 && s.stored == FormatInt(1) && s.confirmed >= 1
  {
    s := MessageFails(c, reach);
    s := After(c, reach, s, Report(true, true));
    s := After(c, reach, s, Done);
    s := After(c, reach, s, Fetch(0, false));
  }

  /** Between polls, with an update confirmed: it stays out of every batch to come. */
  ghost predicate Gone(s: State, i: nat) {
    i < |s.arrived| && s.arrived[i].id < s.confirmed
    && (s.at.Holding? ==> i < s.at.next) && (s.at.Moved? ==> i < s.at.next) && (s.at.Forwarded? ==> i < s.at.next)
  }

  lemma GoneStep(c: Config, s: State, a: Step, t: State, i: nat)
    requires Inv(s) && Gone(s, i) && Next(c, s, a) == Some(t)
    ensures Gone(t, i) && t.arrived[i] == s.arrived[i]
    ensures s.arrived[i].id in t.delivered ==> s.arrived[i].id in s.delivered
  {
  }

  /** What Telegram has confirmed it never hands out again: an update not delivered by then never
      is, in this life of the process or any other. */
  lemma ConfirmedIsFinal(c: Config, s: State, run: seq<Step>, t: State, i: nat)
    requires Inv(s) && Gone(s, i) && Run(c, s, run) == Some(t) && s.arrived[i].id !in s.delivered
    ensures Gone(t, i) && t.arrived[i] == s.arrived[i] && t.arrived[i].id !in t.delivered
    decreases |run|
  {
    if run != [] {
      var u := Run(c, s, run[..|run| - 1]).value;
      ConfirmedIsFinal(c, s, run[..|run| - 1], u, i);
      InvRun(c, s, run[..|run| - 1], u);
      GoneStep(c, u, run[|run| - 1], t, i);
    }
  }

  /** No update is lost: whatever is passed was delivered. */
  ghost predicate LosesNothing(c: Config) {
    forall s, i :: Reaches(c, s) && 0 <= i < |s.arrived| && Passed(s, s.arrived[i].id) ==> s.arrived[i].id in s.delivered
  }

  /** No update is lost in any run, whatever crashes and failed reports there are, exactly when the
      adapters take every update forwarded to them. */
  lemma LosesNothingExactlyWhen(c: Config)
    ensures LosesNothing(c) <==> c.reliable
  {
    if c.reliable {
      forall s, i | Reaches(c, s) && 0 <= i < |s.arrived| && Passed(s, s.arrived[i].id)
        ensures s.arrived[i].id in s.delivered
      {
        ReliableDelivers(c, s, i);
      }
    } else {
      ReachesIsInductive(c);
      var s := FailedIsPassed(c, t => Reaches(c, t));
      assert Reaches(c, s) && Passed(s, s.arrived[0].id);
    }
  }
}
