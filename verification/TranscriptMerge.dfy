/**
 Reading a thread: the live buffer merged with the durable record by what each message stands
 for, in time order (platform/console/rehydrate.go).
 */
module TranscriptMerge {
  import opened Wrappers

  datatype Kind = Agent | Ack | Relay | Signal | Local

  /** A bubble. `recordID` is the recorded input it stands for and `runID` the run it reports,
      empty when there is none; `at` is its time, when that can be read. */
  datatype Message = Message(id: string, kind: Kind, sender: string, text: string, at: Option<int>, pending: bool,
                             recordID: string, runID: string, internal: bool)

  /** A message a run consumed, as the conversation records it. */
  datatype Input = Input(id: string, text: string, surface: string, origin: string, sender: string, at: Option<int>)

  datatype Run = Run(runID: string, inputs: seq<Input>, result: string, started: Option<int>, finished: Option<int>)

  const MEMBER: string := "member"
  const MANAGER: string := "manager"

  // ---- What is shown -----------------------------------------------------------------

  /** How many messages stand for an input. */
  function InputLines(ms: seq<Message>, x: string): nat {
    if ms == [] then 0 else InputLines(ms[..|ms| - 1], x) + if ms[|ms| - 1].recordID == x then 1 else 0
  }

  /** How many messages are an agent's answer in a run. */
  function AgentLines(ms: seq<Message>, r: string): nat {
    if ms == [] then 0
    else AgentLines(ms[..|ms| - 1], r) + if ms[|ms| - 1].kind == Agent && ms[|ms| - 1].runID == r then 1 else 0
  }

  /** An input the record has to show: not empty, and no coordination plumbing. */
  predicate Showable(i: Input) {
    i.text != "" && i.origin != MEMBER
  }

  function RecordedLines(inputs: seq<Input>, x: string): nat {
    if inputs == [] then 0
    else
      var i := inputs[|inputs| - 1];
      RecordedLines(inputs[..|inputs| - 1], x) + if i.id == x && Showable(i) then 1 else 0
  }

  /** How often the record has an input to show. */
  function RecordedInputs(runs: seq<Run>, x: string): nat {
    if runs == [] then 0
    else RecordedInputs(runs[..|runs| - 1], x) + RecordedLines(runs[|runs| - 1].inputs, x)
  }

  /** How often the record has a run with a result. */
  function RecordedRuns(runs: seq<Run>, r: string): nat {
    if runs == [] then 0
    else
      var last := runs[|runs| - 1];
      RecordedRuns(runs[..|runs| - 1], r) + if last.runID == r && last.result != "" then 1 else 0
  }

  // ---- Merging -----------------------------------------------------------------------

  function RecordedMessage(own: string, i: Input): (m: Message)
    ensures m.recordID == i.id && m.runID == "" && m.kind != Agent
  {
    if i.origin == MANAGER then Message("input:" + i.id, Signal, MANAGER, i.text, i.at, false, i.id, "", false)
    else if i.surface == "" then Message("input:" + i.id, Signal, "", i.text, i.at, false, i.id, "", false)
    else if own != "" && i.surface == own then
      Message("input:" + i.id, Local, i.sender, i.text, i.at, false, i.id, "", false)
    else
      Message("input:" + i.id, Relay, if i.sender != "" then i.surface + "/" + i.sender else i.surface, i.text, i.at,
              false, i.id, "", false)
  }

  function RunMessage(r: Run): Message {
    Message("run:" + r.runID, Agent, "", r.result, if r.finished.Some? then r.finished else r.started, false, "", r.runID,
            false)
  }

  /** What the record adds for a run's inputs. */
  function AddedInputs(own: string, live: seq<Message>, inputs: seq<Input>): seq<Message> {
    if inputs == [] then []
    else
      var i := inputs[|inputs| - 1];
      AddedInputs(own, live, inputs[..|inputs| - 1])
      + if Showable(i) && (i.id == "" || InputLines(live, i.id) == 0) then [RecordedMessage(own, i)] else []
  }

  /** What the record adds for a run. */
  function AddedRun(own: string, live: seq<Message>, r: Run): seq<Message> {
    AddedInputs(own, live, r.inputs)
    + if r.result != "" && (r.runID == "" || AgentLines(live, r.runID) == 0) then [RunMessage(r)] else []
  }

  function Added(own: string, live: seq<Message>, runs: seq<Run>): seq<Message> {
    if runs == [] then []
    else Added(own, live, runs[..|runs| - 1]) + AddedRun(own, live, runs[|runs| - 1])
  }

  /** A run all of whose recorded inputs came back up from a member. */
  predicate InternalRound(r: Run) {
    r.inputs != [] && forall i :: 0 <= i < |r.inputs| ==> r.inputs[i].origin == MEMBER
  }

  predicate Internal(runs: seq<Run>, runID: string) {
    runID != "" && exists i :: 0 <= i < |runs| && runs[i].runID == runID && InternalRound(runs[i])
  }

  function Marked(ms: seq<Message>, runs: seq<Run>): seq<Message> {
    if ms == [] then []
    else
      var m := ms[|ms| - 1];
      Marked(ms[..|ms| - 1], runs) + [if Internal(runs, m.runID) then m.(internal := true) else m]
  }

  // ---- Order -------------------------------------------------------------------------

  /** Earlier, where both times can be read. */
  predicate Before(a: Message, b: Message) {
    a.at.Some? && b.at.Some? && a.at.value < b.at.value
  }

  /** Puts a message behind everything it is not before. */
  function Insert(ms: seq<Message>, m: Message): seq<Message> {
    if ms == [] || !Before(m, ms[|ms| - 1]) then ms + [m] else Insert(ms[..|ms| - 1], m) + [ms[|ms| - 1]]
  }

  function Ordered(ms: seq<Message>): seq<Message> {
    if ms == [] then [] else Insert(Ordered(ms[..|ms| - 1]), ms[|ms| - 1])
  }

  /** The thread as it is read. */
  function Merged(own: string, live: seq<Message>, runs: seq<Run>): seq<Message> {
    Ordered(Marked(live + Added(own, live, runs), runs))
  }

  // ---- Counting ----------------------------------------------------------------------

  lemma {:induction false} LinesAppend(a: seq<Message>, b: seq<Message>, x: string)
    ensures InputLines(a + b, x) == InputLines(a, x) + InputLines(b, x)
    ensures AgentLines(a + b, x) == AgentLines(a, x) + AgentLines(b, x)
    decreases |b|
  {
    if b == [] {
      assert a + b == a;
    } else {
      LinesAppend(a, b[..|b| - 1], x);
      assert (a + b)[..|a + b| - 1] == a + b[..|b| - 1];
    }
  }

  lemma OneLine(m: Message, x: string)
    ensures InputLines([m], x) == if m.recordID == x then 1 else 0
    ensures AgentLines([m], x) == if m.kind == Agent && m.runID == x then 1 else 0
  {
    assert [m][..0] == [];
  }

  lemma {:induction false} InsertLines(ms: seq<Message>, m: Message, x: string)
    ensures InputLines(Insert(ms, m), x) == InputLines(ms, x) + if m.recordID == x then 1 else 0
    ensures AgentLines(Insert(ms, m), x) == AgentLines(ms, x) + if m.kind == Agent && m.runID == x then 1 else 0
  {
    if ms != [] && Before(m, ms[|ms| - 1]) {
      var front, last := ms[..|ms| - 1], ms[|ms| - 1];
      InsertLines(front, m, x);
      LinesAppend(Insert(front, m), [last], x);
      OneLine(last, x);
    } else {
      LinesAppend(ms, [m], x);
      OneLine(m, x);
    }
  }

  lemma {:induction false} OrderedLines(ms: seq<Message>, x: string)
    ensures InputLines(Ordered(ms), x) == InputLines(ms, x)
    ensures AgentLines(Ordered(ms), x) == AgentLines(ms, x)
  {
    if ms != [] {
      OrderedLines(ms[..|ms| - 1], x);
      InsertLines(Ordered(ms[..|ms| - 1]), ms[|ms| - 1], x);
    }
  }

  lemma {:induction false} MarkedLines(ms: seq<Message>, runs: seq<Run>, x: string)
    ensures InputLines(Marked(ms, runs), x) == InputLines(ms, x)
    ensures AgentLines(Marked(ms, runs), x) == AgentLines(ms, x)
  {
    if ms != [] {
      var front, m := ms[..|ms| - 1], ms[|ms| - 1];
      MarkedLines(front, runs, x);
      var m' := if Internal(runs, m.runID) then m.(internal := true) else m;
      LinesAppend(Marked(front, runs), [m'], x);
      LinesAppend(front, [m], x);
      OneLine(m, x);
      OneLine(m', x);
      assert ms == front + [m];
    }
  }

  lemma {:induction false} AddedInputLines(own: string, live: seq<Message>, inputs: seq<Input>, x: string)
    ensures x != "" ==>
              InputLines(AddedInputs(own, live, inputs), x)
              == if InputLines(live, x) > 0 then 0 else RecordedLines(inputs, x)
    ensures AgentLines(AddedInputs(own, live, inputs), x) == 0
  {
    if inputs != [] {
      var front, i := inputs[..|inputs| - 1], inputs[|inputs| - 1];
      AddedInputLines(own, live, front, x);
      var m := RecordedMessage(own, i);
      LinesAppend(AddedInputs(own, live, front), [m], x);
      OneLine(m, x);
      assert AddedInputs(own, live, front) + [] == AddedInputs(own, live, front);
    }
  }

  lemma AddedRunLines(own: string, live: seq<Message>, r: Run, x: string)
    requires x != ""
    ensures InputLines(AddedRun(own, live, r), x)
            == if InputLines(live, x) > 0 then 0 else RecordedLines(r.inputs, x)
    ensures AgentLines(AddedRun(own, live, r), x)
            == if AgentLines(live, x) > 0 || r.runID != x || r.result == "" then 0 else 1
  {
    AddedInputLines(own, live, r.inputs, x);
    var m := RunMessage(r);
    LinesAppend(AddedInputs(own, live, r.inputs), [m], x);
    OneLine(m, x);
    assert AddedInputs(own, live, r.inputs) + [] == AddedInputs(own, live, r.inputs);
  }

  lemma {:induction false} AddedLines(own: string, live: seq<Message>, runs: seq<Run>, x: string)
    requires x != ""
    ensures InputLines(Added(own, live, runs), x)
            == if InputLines(live, x) > 0 then 0 else RecordedInputs(runs, x)
    ensures AgentLines(Added(own, live, runs), x)
            == if AgentLines(live, x) > 0 then 0 else RecordedRuns(runs, x)
  {
    if runs != [] {
      var front, r := runs[..|runs| - 1], runs[|runs| - 1];
      AddedLines(own, live, front, x);
      AddedRunLines(own, live, r, x);
      LinesAppend(Added(own, live, front), AddedRun(own, live, r), x);
    }
  }

  /** What the buffer shows stands as it is; what only the record has comes from there. */
  lemma MergedLines(own: string, live: seq<Message>, runs: seq<Run>, x: string)
    requires x != ""
    ensures InputLines(Merged(own, live, runs), x)
            == if InputLines(live, x) > 0 then InputLines(live, x) else RecordedInputs(runs, x)
    ensures AgentLines(Merged(own, live, runs), x)
            == if AgentLines(live, x) > 0 then AgentLines(live, x) else RecordedRuns(runs, x)
  {
    var all := live + Added(own, live, runs);
    OrderedLines(Marked(all, runs), x);
    MarkedLines(all, runs, x);
    LinesAppend(live, Added(own, live, runs), x);
    AddedLines(own, live, runs, x);
  }

  /** Nothing stands for an input, or reports a run, twice. */
  ghost predicate Single(live: seq<Message>) {
    forall x :: x != "" ==> InputLines(live, x) <= 1 && AgentLines(live, x) <= 1
  }

  ghost predicate SingleRecord(runs: seq<Run>) {
    forall x :: x != "" ==> RecordedInputs(runs, x) <= 1 && RecordedRuns(runs, x) <= 1
  }

  /** A recorded input with text, and a recorded answer, shows exactly once, whether the buffer
      still holds it or not. */
  lemma RecordedShowsOnce(own: string, live: seq<Message>, runs: seq<Run>, x: string)
    requires Single(live) && SingleRecord(runs) && x != ""
    ensures RecordedInputs(runs, x) == 1 ==> InputLines(Merged(own, live, runs), x) == 1
    ensures RecordedRuns(runs, x) == 1 ==> AgentLines(Merged(own, live, runs), x) == 1
  {
    MergedLines(own, live, runs, x);
  }

  /** The record has what a message stands for, if it stands for something. */
  predicate Covered(m: Message, runs: seq<Run>) {
    (m.recordID != "" ==> RecordedInputs(runs, m.recordID) > 0)
    && (m.kind == Agent && m.runID != "" ==> RecordedRuns(runs, m.runID) > 0)
  }

  /** Losing from the buffer a message the record covers loses nothing from the thread. */
  lemma ForgettingIsHarmless(own: string, a: seq<Message>, m: Message, b: seq<Message>, runs: seq<Run>, x: string)
    requires Covered(m, runs) && x != ""
    ensures InputLines(Merged(own, a + [m] + b, runs), x) > 0 <==> InputLines(Merged(own, a + b, runs), x) > 0
    ensures AgentLines(Merged(own, a + [m] + b, runs), x) > 0 <==> AgentLines(Merged(own, a + b, runs), x) > 0
  {
    MergedLines(own, a + [m] + b, runs, x);
    MergedLines(own, a + b, runs, x);
    LinesAppend(a + [m], b, x);
    LinesAppend(a, [m], x);
    LinesAppend(a, b, x);
    OneLine(m, x);
  }

  // ---- Time --------------------------------------------------------------------------

  predicate AllTimed(ms: seq<Message>) {
    forall i :: 0 <= i < |ms| ==> ms[i].at.Some?
  }

  predicate InTimeOrder(ms: seq<Message>) {
    forall i, j :: 0 <= i < j < |ms| ==> !Before(ms[j], ms[i])
  }

  /** The messages of one time, in their order. */
  function AtTime(ms: seq<Message>, t: int): seq<Message> {
    if ms == [] then []
    else AtTime(ms[..|ms| - 1], t) + if ms[|ms| - 1].at == Some(t) then [ms[|ms| - 1]] else []
  }

  lemma AtTimeAppend(ms: seq<Message>, m: Message, t: int)
    ensures AtTime(ms + [m], t) == AtTime(ms, t) + if m.at == Some(t) then [m] else []
  {
    assert (ms + [m])[..|ms|] == ms;
  }

  lemma {:induction false} InsertOrders(ms: seq<Message>, m: Message)
    requires AllTimed(ms) && m.at.Some? && InTimeOrder(ms)
    ensures AllTimed(Insert(ms, m)) && InTimeOrder(Insert(ms, m))
    ensures forall e :: e in Insert(ms, m) ==> e in ms || e == m
  {
    if ms != [] && Before(m, ms[|ms| - 1]) {
      var front, last := ms[..|ms| - 1], ms[|ms| - 1];
      InsertOrders(front, m);
      var more := Insert(front, m);
      forall i | 0 <= i < |more|
        ensures !Before(last, more[i])
      {
        assert more[i] in more;
      }
    }
  }

  lemma {:induction false} InsertIsStable(ms: seq<Message>, m: Message, t: int)
    requires AllTimed(ms) && m.at.Some? && InTimeOrder(ms)
    ensures AtTime(Insert(ms, m), t) == AtTime(ms, t) + if m.at == Some(t) then [m] else []
  {
    if ms != [] && Before(m, ms[|ms| - 1]) {
      var front, last := ms[..|ms| - 1], ms[|ms| - 1];
      InsertIsStable(front, m, t);
      AtTimeAppend(Insert(front, m), last, t);
    } else {
      AtTimeAppend(ms, m, t);
    }
  }

  /** With every time readable, a thread reads oldest first, and messages of one time stay as
      they stood. */
  lemma {:induction false} OrderedIsStable(ms: seq<Message>, t: int)
    requires AllTimed(ms)
    ensures AllTimed(Ordered(ms)) && InTimeOrder(Ordered(ms))
    ensures AtTime(Ordered(ms), t) == AtTime(ms, t)
  {
    if ms != [] {
      var front := ms[..|ms| - 1];
      OrderedIsStable(front, t);
      InsertOrders(Ordered(front), ms[|ms| - 1]);
      InsertIsStable(Ordered(front), ms[|ms| - 1], t);
    }
  }

  // ---- In place ----------------------------------------------------------------------

  /** Sorts by insertion, in place. */
  method SortByTime(a: array<Message>)
    modifies a
    ensures a[..] == Ordered(old(a[..]))
  {
    ghost var was := a[..];
    for i := 0 to a.Length
      invariant a[..i] == Ordered(was[..i]) && a[i..] == was[i..]
    {
      assert was[..i + 1][..i] == was[..i] && a[i] == a[i..][0] == was[i];
      assert a[i + 1..] == a[i..][1..];
      SinkLast(a, i);
    }
    assert a[..a.Length] == a[..] && was[..a.Length] == was;
  }

  method SinkLast(a: array<Message>, i: nat)
    requires i < a.Length
    modifies a
    ensures a[..i + 1] == Insert(old(a[..i]), old(a[i])) && a[i + 1..] == old(a[i + 1..])
  {
    var j := i;
    ghost var m, goal := a[i], Insert(a[..i], a[i]);
    assert a[i + 1..i + 1] == [];
    while j > 0 && Before(a[j], a[j - 1])
      invariant 0 <= j <= i && a[j] == m && a[i + 1..] == old(a[i + 1..])
      invariant goal == Insert(a[..j], m) + a[j + 1..i + 1]
    {
      ghost var before := a[..];
      assert a[..j][..j - 1] == a[..j - 1];
      a[j], a[j - 1] := a[j - 1], a[j];
      assert a[..j - 1] == before[..j - 1];
      assert a[j..i + 1] == [before[j - 1]] + before[j + 1..i + 1];
      j := j - 1;
    }
    assert a[..i + 1] == a[..j] + [m] + a[j + 1..i + 1];
  }

  /** A message is marked when the run it reports is an internal round; nothing else changes. */
  lemma {:induction false} MarkedExactly(ms: seq<Message>, runs: seq<Run>, i: nat)
    requires i < |ms|
    ensures |Marked(ms, runs)| == |ms|
    ensures Marked(ms, runs)[i] == ms[i].(internal := ms[i].internal || Internal(runs, ms[i].runID))
    decreases |ms|
  {
    var front := ms[..|ms| - 1];
    if front != [] {
      MarkedExactly(front, runs, if i < |front| then i else 0);
    }
  }

  /** What the buffer shows already. */
  method LiveIDs(live: seq<Message>) returns (inputs: set<string>, runs: set<string>)
    ensures forall x :: x in inputs <==> x != "" && InputLines(live, x) > 0
    ensures forall r :: r in runs <==> r != "" && AgentLines(live, r) > 0
  {
    inputs, runs := {}, {};
    for i := 0 to |live|
      invariant forall x :: x in inputs <==> x != "" && InputLines(live[..i], x) > 0
      invariant forall r :: r in runs <==> r != "" && AgentLines(live[..i], r) > 0
    {
      assert live[..i + 1][..i] == live[..i];
      if live[i].kind == Agent && live[i].runID != "" {
        runs := runs + {live[i].runID};
      }
      if live[i].recordID != "" {
        inputs := inputs + {live[i].recordID};
      }
    }
    assert live[..|live|] == live;
  }

  method AddRun(own: string, live: seq<Message>, liveInputs: set<string>, liveRuns: set<string>, r: Run)
    returns (added: seq<Message>)
    requires forall x :: x in liveInputs <==> x != "" && InputLines(live, x) > 0
    requires forall x :: x in liveRuns <==> x != "" && AgentLines(live, x) > 0
    ensures added == AddedRun(own, live, r)
  {
    added := [];
    for i := 0 to |r.inputs|
      invariant added == AddedInputs(own, live, r.inputs[..i])
    {
      assert r.inputs[..i + 1][..i] == r.inputs[..i];
      var input := r.inputs[i];
      if !(input.text == "" || input.id in liveInputs || input.origin == MEMBER) {
        added := added + [RecordedMessage(own, input)];
      }
    }
    assert r.inputs[..|r.inputs|] == r.inputs;
    if r.result == "" {
      return;
    }
    if r.runID in liveRuns {
      return;
    }
    added := added + [RunMessage(r)];
  }

  method MarkInternalRounds(ms: seq<Message>, runs: seq<Run>) returns (out: seq<Message>)
    ensures out == Marked(ms, runs)
  {
    out := [];
    for i := 0 to |ms|
      invariant out == Marked(ms[..i], runs)
    {
      assert ms[..i + 1][..i] == ms[..i];
      out := out + [if Internal(runs, ms[i].runID) then ms[i].(internal := true) else ms[i]];
    }
    assert ms[..|ms|] == ms;
  }

  method MergeTranscript(own: string, live: seq<Message>, runs: seq<Run>) returns (out: seq<Message>)
    ensures out == Merged(own, live, runs)
  {
    var liveInputs, liveRuns := LiveIDs(live);
    var added: seq<Message> := [];
    for i := 0 to |runs|
      invariant added == Added(own, live, runs[..i])
    {
      assert runs[..i + 1][..i] == runs[..i];
      var more := AddRun(own, live, liveInputs, liveRuns, runs[i]);
      added := added + more;
    }
    assert runs[..|runs|] == runs;
    var marked := MarkInternalRounds(live + added, runs);
    var a := new Message[|marked|](i requires 0 <= i < |marked| => marked[i]);
    assert a[..] == marked;
    SortByTime(a);
    out := a[..];
  }
}
