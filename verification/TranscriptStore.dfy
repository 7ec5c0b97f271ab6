/**
 The live buffer of the console's threads: what it records of each delivery and of what is
 typed, and when a redelivery would show twice (platform/console/transcript.go).
 */
module TranscriptStore {
  import opened Wrappers
  import opened OpIds
  import opened TranscriptMerge

  const MAX_MESSAGES := 200
  const MAX_THREADS := 200
  const MAX_SEEN := 4096

  datatype OpKind = Answer | RelayOp | Notice | SignalOp

  /** A delivery: an op to send, and the thread it is for. */
  datatype Op = Op(id: string, thread: string, kind: OpKind, origin: string, sender: string, originKind: string,
                   body: string)

  datatype Delivery = Delivery(id: string, thread: string)

  /** `recorded` is the history the buffer does not keep: every delivery it took, in order. */
  datatype Store = Store(threads: map<string, seq<Message>>, order: seq<string>, seen: set<string>, ring: seq<string>,
                         recorded: seq<Delivery>)

  const EMPTY := Store(map[], [], {}, [], [])

  // ---- Operations --------------------------------------------------------------------

  /** The last n of a sequence. */
  function LastN<T>(s: seq<T>, n: nat): (r: seq<T>)
    ensures |r| <= n && |r| <= |s|
  {
    if |s| > n then s[|s| - n..] else s
  }

  function Log(s: Store, thread: string): seq<Message> {
    if thread in s.threads then s.threads[thread] else []
  }

  /** The kind of bubble a delivery makes, and whose words it shows. */
  function KindOf(op: Op, own: string): (Kind, string) {
    match op.kind
    case RelayOp =>
      if own != "" && op.origin == own then (Local, op.sender)
      else (Relay, if op.sender != "" then op.origin + "/" + op.sender else op.origin)
    case Notice => (Ack, "")
    case SignalOp => (Signal, if op.originKind == MANAGER then MANAGER else "")
    case Answer => (Agent, "")
  }

  /** Takes the op for seen; the oldest of too many is forgotten. */
  function Remember(s: Store, op: Op): Store {
    var ring, seen := s.ring + [op.id], s.seen + {op.id};
    var recorded := s.recorded + [Delivery(op.id, op.thread)];
    if |ring| > MAX_SEEN then s.(ring := ring[1..], seen := seen - {ring[0]}, recorded := recorded)
    else s.(ring := ring, seen := seen, recorded := recorded)
  }

  /** Where the first typed message is that a delivered copy from this sender can stand for. */
  function ConfirmIndex(log: seq<Message>, sender: string): (i: Option<nat>)
    ensures i.Some? ==> i.value < |log| && log[i.value].kind == Local && log[i.value].recordID == ""
  {
    if log == [] then None
    else
      var before := ConfirmIndex(log[..|log| - 1], sender);
      var m := log[|log| - 1];
      if before.Some? then before
      else if m.kind == Local && m.recordID == "" && (sender == "" || m.sender == "" || m.sender == sender)
      then Some(|log| - 1)
      else None
  }

  function Confirmed(log: seq<Message>, sender: string, record: string): seq<Message>
    requires ConfirmIndex(log, sender).Some?
  {
    var i := ConfirmIndex(log, sender).value;
    log[i := log[i].(pending := false, recordID := record)]
  }

  /** No message waits any longer. */
  function NonePending(log: seq<Message>): seq<Message> {
    if log == [] then [] else NonePending(log[..|log| - 1]) + [log[|log| - 1].(pending := false)]
  }

  /** The threads touched first, where there are too many. */
  function Oldest(order: seq<string>): set<string> {
    set i | 0 <= i < |order| - MAX_THREADS :: order[i]
  }

  /** A thread that is new takes its place, and the oldest give up theirs. */
  function WithThread(s: Store, thread: string): Store {
    if thread in s.threads then s
    else
      var order := s.order + [thread];
      s.(threads := s.threads[thread := []] - Oldest(order), order := LastN(order, MAX_THREADS))
  }

  function Extended(log: seq<Message>, msg: Message, confirm: bool): seq<Message> {
    LastN((if confirm then NonePending(log) else log) + [msg], MAX_MESSAGES)
  }

  function Append(s: Store, thread: string, msg: Message, confirm: bool): Store {
    var t := WithThread(s, thread);
    t.(threads := t.threads[thread := Extended(Log(s, thread), msg, confirm)])
  }

  function Typed(id: string, sender: string, text: string, now: Option<int>): Message {
    Message(id, Local, sender, text, now, true, "", "", false)
  }

  function Bubble(op: Op, own: string, now: Option<int>): Message {
    Message(op.id, KindOf(op, own).0, KindOf(op, own).1, op.body, now, false, InputIDOf(op.id), RunIDOf(op.id), false)
  }

  /** Coordination plumbing, which makes no bubble. */
  predicate Plumbing(op: Op) {
    op.kind == SignalOp && op.originKind == MEMBER
  }

  /** The delivery is one of this surface's own messages coming back, and its bubble is there. */
  predicate Confirms(s: Store, op: Op, own: string) {
    KindOf(op, own).0 == Local && ConfirmIndex(Log(s, op.thread), op.sender).Some?
  }

  function AppendOp(s: Store, op: Op, own: string, now: Option<int>): Store {
    if op.id in s.seen then s
    else
      var t := Remember(s, op);
      if Plumbing(op) then t
      else if Confirms(s, op, own) then
        t.(threads := t.threads[op.thread := Confirmed(Log(s, op.thread), op.sender, InputIDOf(op.id))])
      else
        var kind := KindOf(op, own).0;
        Append(t, op.thread, Bubble(op, own, now), kind == Ack || kind == Relay)
  }

  function AppendLocal(s: Store, id: string, thread: string, sender: string, text: string, now: Option<int>): Store {
    Append(s, thread, Typed(id, sender, text, now), false)
  }

  // ---- One delivery ------------------------------------------------------------------

  lemma {:induction false} NonePendingLines(log: seq<Message>, x: string)
    ensures InputLines(NonePending(log), x) == InputLines(log, x)
    ensures AgentLines(NonePending(log), x) == AgentLines(log, x)
    ensures |NonePending(log)| == |log|
  {
    if log != [] {
      var front, m := log[..|log| - 1], log[|log| - 1];
      NonePendingLines(front, x);
      LinesAppend(NonePending(front), [m.(pending := false)], x);
      OneLine(m.(pending := false), x);
    }
  }

  lemma {:induction false} NonePendingSuffix(log: seq<Message>, n: nat)
    requires n <= |log|
    ensures |NonePending(log)| == |log| && NonePending(log)[n..] == NonePending(log[n..])
  {
    if n < |log| {
      NonePendingSuffix(log[..|log| - 1], n);
      assert log[n..][..|log| - n - 1] == log[..|log| - 1][n..];
    } else {
      NonePendingLines(log, "");
    }
  }

  /** Adding a bubble to a full buffer drops the oldest message. */
  lemma ExtendedLines(log: seq<Message>, msg: Message, confirm: bool, x: string)
    ensures var kept := LastN(log, MAX_MESSAGES - 1);
            InputLines(Extended(log, msg, confirm), x) == InputLines(kept, x) + (if msg.recordID == x then 1 else 0)
            && AgentLines(Extended(log, msg, confirm), x)
               == AgentLines(kept, x) + (if msg.kind == Agent && msg.runID == x then 1 else 0)
  {
    var kept := LastN(log, MAX_MESSAGES - 1);
    var base := if confirm then NonePending(kept) else kept;
    NonePendingSuffix(log, |log| - |kept|);
    assert Extended(log, msg, confirm) == base + [msg];
    NonePendingLines(kept, x);
    LinesAppend(base, [msg], x);
    OneLine(msg, x);
  }

  lemma UpdatedLines(log: seq<Message>, i: nat, m: Message, x: string)
    requires i < |log|
    ensures InputLines(log[i := m], x) + InputLines([log[i]], x) == InputLines(log, x) + InputLines([m], x)
    ensures AgentLines(log[i := m], x) + AgentLines([log[i]], x) == AgentLines(log, x) + AgentLines([m], x)
  {
    var a, b := log[..i], log[i + 1..];
    assert log == a + [log[i]] + b && log[i := m] == a + [m] + b;
    LinesAppend(a + [log[i]], b, x);
    LinesAppend(a, [log[i]], x);
    LinesAppend(a + [m], b, x);
    LinesAppend(a, [m], x);
  }

  lemma ConfirmedLines(log: seq<Message>, sender: string, record: string, x: string)
    requires ConfirmIndex(log, sender).Some? && x != ""
    ensures InputLines(Confirmed(log, sender, record), x) == InputLines(log, x) + if record == x then 1 else 0
    ensures AgentLines(Confirmed(log, sender, record), x) == AgentLines(log, x)
  {
    var i := ConfirmIndex(log, sender).value;
    var m := log[i].(pending := false, recordID := record);
    UpdatedLines(log, i, m, x);
    OneLine(log[i], x);
    OneLine(m, x);
  }

  /** In no thread does anything stand for an input, or report a run, twice. */
  ghost predicate Unique(s: Store) {
    forall t :: Single(Log(s, t))
  }

  /** A message here stands for the same input, or reports the same run. */
  predicate Carries(log: seq<Message>, msg: Message) {
    (msg.recordID != "" && InputLines(log, msg.recordID) > 0)
    || (msg.kind == Agent && msg.runID != "" && AgentLines(log, msg.runID) > 0)
  }

  /** The buffer still holds a message for what this delivery stands for, and the delivery is
      not known. */
  predicate Doubles(s: Store, op: Op, own: string) {
    var log := Log(s, op.thread);
    op.id !in s.seen && !Plumbing(op)
    && if Confirms(s, op, own) then InputIDOf(op.id) != "" && InputLines(log, InputIDOf(op.id)) > 0
       else Carries(LastN(log, MAX_MESSAGES - 1), Bubble(op, own, None))
  }

  /** A thread is as it was, or was dropped. */
  predicate SameOrGone(before: seq<Message>, after: seq<Message>) {
    after == before || after == []
  }

  ghost predicate SameElsewhere(s: Store, t: Store, thread: string) {
    forall u :: u != thread ==> SameOrGone(Log(s, u), Log(t, u))
  }

  lemma AppendLogs(s: Store, thread: string, msg: Message, confirm: bool, t: string)
    ensures Log(Append(s, thread, msg, confirm), thread) == Extended(Log(s, thread), msg, confirm)
    ensures t != thread ==> SameOrGone(Log(s, t), Log(Append(s, thread, msg, confirm), t))
  {
  }

  lemma SuffixLines(log: seq<Message>, n: nat, x: string)
    ensures InputLines(LastN(log, n), x) <= InputLines(log, x)
    ensures AgentLines(LastN(log, n), x) <= AgentLines(log, x)
  {
    var kept := LastN(log, n);
    assert log == log[..|log| - |kept|] + kept;
    LinesAppend(log[..|log| - |kept|], kept, x);
  }

  lemma SingleWhenExtended(log: seq<Message>, msg: Message, confirm: bool)
    requires Single(log)
    ensures Single(Extended(log, msg, confirm)) <==> !Carries(LastN(log, MAX_MESSAGES - 1), msg)
  {
    var kept := LastN(log, MAX_MESSAGES - 1);
    forall x
      ensures InputLines(kept, x) <= InputLines(log, x) && AgentLines(kept, x) <= AgentLines(log, x)
      ensures InputLines(Extended(log, msg, confirm), x)
              == InputLines(kept, x) + (if msg.recordID == x then 1 else 0)
      ensures AgentLines(Extended(log, msg, confirm), x)
              == AgentLines(kept, x) + (if msg.kind == Agent && msg.runID == x then 1 else 0)
    {
      SuffixLines(log, MAX_MESSAGES - 1, x);
      ExtendedLines(log, msg, confirm, x);
    }
  }

  lemma SingleWhenConfirmed(log: seq<Message>, sender: string, record: string)
    requires Single(log) && ConfirmIndex(log, sender).Some?
    ensures Single(Confirmed(log, sender, record)) <==> !(record != "" && InputLines(log, record) > 0)
  {
    forall x | x != ""
      ensures InputLines(Confirmed(log, sender, record), x) == InputLines(log, x) + if record == x then 1 else 0
      ensures AgentLines(Confirmed(log, sender, record), x) == AgentLines(log, x)
    {
      ConfirmedLines(log, sender, record, x);
    }
  }

  lemma UniqueByThread(s: Store, t: Store, thread: string)
    requires Unique(s) && SameElsewhere(s, t, thread)
    ensures Unique(t) <==> Single(Log(t, thread))
  {
    if Single(Log(t, thread)) {
      forall u
        ensures Single(Log(t, u))
      {
        SameOrGoneIsSingle(s, t, thread, u);
      }
    }
  }

  lemma SameOrGoneIsSingle(s: Store, t: Store, thread: string, u: string)
    requires Single(Log(s, u)) && SameElsewhere(s, t, thread) && Single(Log(t, thread))
    ensures Single(Log(t, u))
  {
    assert u != thread ==> SameOrGone(Log(s, u), Log(t, u));
  }

  /** A delivery leaves the thread without doubles exactly when it is known, makes no bubble, or
      the buffer holds nothing any more for what it stands for. */
  lemma DeliveryDoublesExactlyWhen(s: Store, op: Op, own: string, now: Option<int>)
    requires Unique(s)
    ensures Unique(AppendOp(s, op, own, now)) <==> !Doubles(s, op, own)
  {
    if op.id !in s.seen {
      if Plumbing(op) {
        PlumbingIsUnique(s, op, own, now);
      } else if Confirms(s, op, own) {
        ConfirmingDoubles(s, op, own, now);
      } else {
        BubbleDoubles(s, op, own, now);
      }
    }
  }

  lemma PlumbingIsUnique(s: Store, op: Op, own: string, now: Option<int>)
    requires Unique(s) && op.id !in s.seen && Plumbing(op)
    ensures Unique(AppendOp(s, op, own, now))
  {
    assert forall u :: Log(AppendOp(s, op, own, now), u) == Log(s, u);
  }

  lemma ConfirmingDoubles(s: Store, op: Op, own: string, now: Option<int>)
    requires Unique(s) && op.id !in s.seen && !Plumbing(op) && Confirms(s, op, own)
    ensures Unique(AppendOp(s, op, own, now)) <==> !Doubles(s, op, own)
  {
    SingleWhenConfirmed(Log(s, op.thread), op.sender, InputIDOf(op.id));
    UniqueByThread(s, AppendOp(s, op, own, now), op.thread);
  }

  lemma BubbleDoubles(s: Store, op: Op, own: string, now: Option<int>)
    requires Unique(s) && op.id !in s.seen && !Plumbing(op) && !Confirms(s, op, own)
    ensures Unique(AppendOp(s, op, own, now)) <==> !Doubles(s, op, own)
  {
    var msg := Bubble(op, own, now);
    RememberedIsUnique(s, op);
    if Carries(LastN(Log(s, op.thread), MAX_MESSAGES - 1), msg) {
      AppendDoubles(Remember(s, op), op.thread, msg, msg.kind == Ack || msg.kind == Relay);
    } else {
      AppendStaysUnique(Remember(s, op), op.thread, msg, msg.kind == Ack || msg.kind == Relay);
    }
  }

  lemma RememberedIsUnique(s: Store, op: Op)
    requires Unique(s)
    ensures Unique(Remember(s, op)) && Log(Remember(s, op), op.thread) == Log(s, op.thread)
  {
    assert forall u :: Log(Remember(s, op), u) == Log(s, u);
  }

  lemma AppendedElsewhere(s: Store, thread: string, msg: Message, confirm: bool)
    ensures SameElsewhere(s, Append(s, thread, msg, confirm), thread)
    ensures Log(Append(s, thread, msg, confirm), thread) == Extended(Log(s, thread), msg, confirm)
  {
    forall u
      ensures u != thread ==> SameOrGone(Log(s, u), Log(Append(s, thread, msg, confirm), u))
      ensures Log(Append(s, thread, msg, confirm), thread) == Extended(Log(s, thread), msg, confirm)
    {
      AppendLogs(s, thread, msg, confirm, u);
    }
  }

  lemma StaysUnique(s: Store, t: Store, thread: string, msg: Message, confirm: bool)
    requires Unique(s) && SameElsewhere(s, t, thread) && Log(t, thread) == Extended(Log(s, thread), msg, confirm)
    requires !Carries(LastN(Log(s, thread), MAX_MESSAGES - 1), msg)
    ensures Unique(t)
  {
    SingleWhenExtended(Log(s, thread), msg, confirm);
    UniqueByThread(s, t, thread);
  }

  lemma GetsDoubled(s: Store, t: Store, thread: string, msg: Message, confirm: bool)
    requires Unique(s) && Log(t, thread) == Extended(Log(s, thread), msg, confirm)
    requires Carries(LastN(Log(s, thread), MAX_MESSAGES - 1), msg)
    ensures !Unique(t)
  {
    SingleWhenExtended(Log(s, thread), msg, confirm);
    assert !Single(Log(t, thread));
  }

  lemma AppendStaysUnique(s: Store, thread: string, msg: Message, confirm: bool)
    requires Unique(s) && !Carries(LastN(Log(s, thread), MAX_MESSAGES - 1), msg)
    ensures Unique(Append(s, thread, msg, confirm))
  {
    AppendedElsewhere(s, thread, msg, confirm);
    StaysUnique(s, Append(s, thread, msg, confirm), thread, msg, confirm);
  }

  lemma AppendDoubles(s: Store, thread: string, msg: Message, confirm: bool)
    requires Unique(s) && Carries(LastN(Log(s, thread), MAX_MESSAGES - 1), msg)
    ensures !Unique(Append(s, thread, msg, confirm))
  {
    AppendedElsewhere(s, thread, msg, confirm);
    GetsDoubled(s, Append(s, thread, msg, confirm), thread, msg, confirm);
  }

  /** Typing never doubles anything. */
  lemma TypingIsUnique(s: Store, id: string, thread: string, sender: string, text: string, now: Option<int>)
    requires Unique(s)
    ensures Unique(AppendLocal(s, id, thread, sender, text, now))
  {
    AppendStaysUnique(s, thread, Typed(id, sender, text, now), false);
  }
}
