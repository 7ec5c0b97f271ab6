/**
 The live buffer as the console keeps it (platform/console/transcript.go).
 */
module Transcripts {
  import opened Wrappers
  import opened OpIds
  import opened TranscriptMerge
  import opened TranscriptStore
  import opened TranscriptRuns

  // ---- First typed, first confirmed --------------------------------------------------

  /** Typed, and not yet standing for a delivered copy. */
  predicate Waits(m: Message) {
    m.kind == Local && m.recordID == ""
  }

  /** Typed by this sender, and standing for a delivered copy. */
  predicate Stands(m: Message, sender: string) {
    m.kind == Local && m.recordID != "" && m.sender == sender
  }

  /** Of one sender's typed messages none stands for a delivered copy while an earlier one still
      waits for its own. */
  predicate InTypedOrder(log: seq<Message>) {
    forall i, j :: 0 <= i < j < |log| && Waits(log[i]) ==> !Stands(log[j], log[i].sender)
  }

  lemma {:induction false} ConfirmIsFirst(log: seq<Message>, sender: string)
    ensures ConfirmIndex(log, sender).Some? ==>
              var k := ConfirmIndex(log, sender).value;
              (sender == "" || log[k].sender == "" || log[k].sender == sender)
              && forall i :: 0 <= i < k ==>
                   !(log[i].kind == Local && log[i].recordID == ""
                     && (sender == "" || log[i].sender == "" || log[i].sender == sender))
    ensures ConfirmIndex(log, sender).None? ==>
              forall i :: 0 <= i < |log| ==>
                !(log[i].kind == Local && log[i].recordID == ""
                  && (sender == "" || log[i].sender == "" || log[i].sender == sender))
  {
    if log != [] {
      ConfirmIsFirst(log[..|log| - 1], sender);
    }
  }

  /** A copy confirms the earliest message it can stand for. */
  lemma ConfirmingKeepsOrder(log: seq<Message>, sender: string, record: string)
    requires InTypedOrder(log) && ConfirmIndex(log, sender).Some?
    ensures InTypedOrder(Confirmed(log, sender, record))
  {
    ConfirmIsFirst(log, sender);
  }

  lemma {:induction false} NonePendingAt(log: seq<Message>, i: nat)
    requires i < |log|
    ensures |NonePending(log)| == |log| && NonePending(log)[i] == log[i].(pending := false)
    decreases |log|
  {
    var front := log[..|log| - 1];
    if front != [] {
      NonePendingAt(front, if i < |front| then i else 0);
    }
  }

  lemma PendingKeepsOrder(log: seq<Message>)
    requires InTypedOrder(log)
    ensures InTypedOrder(NonePending(log)) && |NonePending(log)| == |log|
    ensures forall i :: 0 <= i < |log| ==> NonePending(log)[i] == log[i].(pending := false)
  {
    NonePendingLines(log, "");
    forall i | 0 <= i < |log|
      ensures NonePending(log)[i] == log[i].(pending := false)
    {
      NonePendingAt(log, i);
    }
  }

  lemma LongerKeepsOrder(log: seq<Message>, msg: Message)
    requires InTypedOrder(log) && forall i :: 0 <= i < |log| && Waits(log[i]) ==> !Stands(msg, log[i].sender)
    ensures InTypedOrder(LastN(log + [msg], MAX_MESSAGES))
  {
    var all := log + [msg];
    assert InTypedOrder(all);
    if |all| > MAX_MESSAGES {
      var cut := |all| - MAX_MESSAGES;
      assert forall i :: 0 <= i < MAX_MESSAGES ==> all[cut..][i] == all[cut + i];
    }
  }

  lemma ExtendingKeepsOrder(log: seq<Message>, msg: Message, confirm: bool)
    requires InTypedOrder(log)
    requires Stands(msg, msg.sender) ==> ConfirmIndex(log, msg.sender).None?
    ensures InTypedOrder(Extended(log, msg, confirm))
  {
    ConfirmIsFirst(log, msg.sender);
    PendingKeepsOrder(log);
    LongerKeepsOrder(if confirm then NonePending(log) else log, msg);
  }

  /** Typed messages are confirmed in the order typed, whatever is delivered. */
  lemma DeliveryKeepsOrder(s: Store, op: Op, own: string, now: Option<int>)
    requires InTypedOrder(Log(s, op.thread))
    ensures InTypedOrder(Log(TranscriptStore.AppendOp(s, op, own, now), op.thread))
  {
    if op.id !in s.seen && !Plumbing(op) {
      if Confirms(s, op, own) {
        ConfirmingKeepsOrder(Log(s, op.thread), op.sender, InputIDOf(op.id));
      } else {
        var msg := Bubble(op, own, now);
        var confirm := msg.kind == Ack || msg.kind == Relay;
        AppendLogs(Remember(s, op), op.thread, msg, confirm, op.thread);
        ExtendingKeepsOrder(Log(s, op.thread), msg, confirm);
      }
    }
  }

  /** In every thread. */
  ghost predicate AllInTypedOrder(s: Store) {
    forall t :: InTypedOrder(Log(s, t))
  }

  lemma OrderByThread(s: Store, t: Store, thread: string)
    requires AllInTypedOrder(s) && SameElsewhere(s, t, thread) && InTypedOrder(Log(t, thread))
    ensures AllInTypedOrder(t)
  {
    forall u
      ensures InTypedOrder(Log(t, u))
    {
      assert u != thread ==> SameOrGone(Log(s, u), Log(t, u));
      assert InTypedOrder(Log(s, u));
    }
  }

  lemma DeliveredElsewhere(s: Store, op: Op, own: string, now: Option<int>)
    ensures SameElsewhere(s, TranscriptStore.AppendOp(s, op, own, now), op.thread)
  {
    var msg := Bubble(op, own, now);
    AppendedElsewhere(Remember(s, op), op.thread, msg, msg.kind == Ack || msg.kind == Relay);
  }

  lemma TypingKeepsOrder(s: Store, id: string, thread: string, sender: string, text: string, now: Option<int>)
    requires AllInTypedOrder(s)
    ensures AllInTypedOrder(TranscriptStore.AppendLocal(s, id, thread, sender, text, now))
  {
    var msg := Typed(id, sender, text, now);
    assert InTypedOrder(Log(s, thread));
    AppendLogs(s, thread, msg, false, thread);
    ExtendingKeepsOrder(Log(s, thread), msg, false);
    AppendedElsewhere(s, thread, msg, false);
    OrderByThread(s, TranscriptStore.AppendLocal(s, id, thread, sender, text, now), thread);
  }

  /** Over any run: whatever is typed and delivered, answers, notices and signals included, in no
      thread does a message stand for its delivered copy while an earlier one of its sender waits. */
  lemma TypedOrderHolds(own: string, events: seq<Event>)
    ensures AllInTypedOrder(After(own, events))
    decreases |events|
  {
    if events != [] {
      var s, e := After(own, events[..|events| - 1]), events[|events| - 1];
      TypedOrderHolds(own, events[..|events| - 1]);
      match e
      case Types(id, thread, sender, text, now) => TypingKeepsOrder(s, id, thread, sender, text, now);
      case Delivers(op, at) =>
        assert InTypedOrder(Log(s, op.thread));
        DeliveryKeepsOrder(s, op, own, at);
        DeliveredElsewhere(s, op, own, at);
        OrderByThread(s, TranscriptStore.AppendOp(s, op, own, at), op.thread);
    }
  }

  // ---- In place ----------------------------------------------------------------------

  class Transcripts {
    var threads: map<string, seq<Message>>
    var order: seq<string>
    var seen: set<string>
    var seenRing: seq<string>
    ghost var recorded: seq<Delivery>

    ghost function State(): Store
      reads this
    {
      Store(threads, order, seen, seenRing, recorded)
    }

    constructor ()
      ensures State() == EMPTY
    {
      threads, order, seen, seenRing, recorded := map[], [], {}, [], [];
    }

    /** Records one delivery; false when it is known already. */
    method AppendOp(op: Op, own: string, now: Option<int>) returns (isNew: bool)
      modifies this
      ensures isNew == (op.id !in old(seen))
      ensures State() == TranscriptStore.AppendOp(old(State()), op, own, now)
    {
      if op.id in seen {
        return false;
      }
      NoteSeen(op);
      if Plumbing(op) {
        return true;
      }
      var kind, sender := KindOf(op, own).0, KindOf(op, own).1;
      if kind == Local {
        var confirmed := ConfirmLocal(op.thread, sender, InputIDOf(op.id));
        if confirmed.Some? {
          return true;
        }
      }
      Append(op.thread, Bubble(op, own, now), kind == Ack || kind == Relay);
      return true;
    }

    method NoteSeen(op: Op)
      modifies this`seen, this`seenRing, this`recorded
      ensures State() == Remember(old(State()), op)
    {
      seen := seen + {op.id};
      seenRing := seenRing + [op.id];
      recorded := recorded + [Delivery(op.id, op.thread)];
      if |seenRing| > MAX_SEEN {
        seen := seen - {seenRing[0]};
        seenRing := seenRing[1..];
      }
    }

    /** Lets the first typed message it can stand for stand for a delivered copy. */
    method ConfirmLocal(thread: string, sender: string, record: string) returns (confirmed: Option<Message>)
      modifies this`threads
      ensures confirmed.Some? <==> ConfirmIndex(Log(old(State()), thread), sender).Some?
      ensures confirmed.Some? ==>
                State() == old(State()).(threads := old(threads)[thread := Confirmed(Log(old(State()), thread), sender, record)])
      ensures confirmed.None? ==> State() == old(State())
    {
      if thread !in threads {
        return None;
      }
      var log := threads[thread];
      for i := 0 to |log|
        invariant ConfirmIndex(log[..i], sender).None? && threads == old(threads)
      {
        assert log[..i + 1][..i] == log[..i];
        var m := log[i];
        if m.kind == Local && m.recordID == "" && !(sender != "" && m.sender != "" && m.sender != sender) {
          FoundFirst(log, sender, i);
          var done := m.(pending := false, recordID := record);
          threads := threads[thread := log[i := done]];
          return Some(done);
        }
      }
      assert log[..|log|] == log;
      return None;
    }

    method AppendLocal(id: string, thread: string, sender: string, text: string, now: Option<int>) returns (msg: Message)
      modifies this`threads, this`order
      ensures msg == Typed(id, sender, text, now)
      ensures State() == TranscriptStore.AppendLocal(old(State()), id, thread, sender, text, now)
    {
      msg := Typed(id, sender, text, now);
      Append(thread, msg, false);
    }

    method Append(thread: string, msg: Message, confirmPending: bool)
      modifies this`threads, this`order
      ensures State() == TranscriptStore.Append(old(State()), thread, msg, confirmPending)
    {
      var log := if thread in threads then threads[thread] else [];
      if thread !in threads {
        AddThread(thread);
      }
      if confirmPending {
        log := ConfirmAll(log);
      }
      log := log + [msg];
      if |log| > MAX_MESSAGES {
        log := log[|log| - MAX_MESSAGES..];
      }
      threads := threads[thread := log];
    }

    method AddThread(thread: string)
      requires thread !in threads
      modifies this`threads, this`order
      ensures State() == WithThread(old(State()), thread)
    {
      ghost var all, from := order + [thread], threads[thread := []];
      threads := threads[thread := []];
      order := order + [thread];
      ghost var gone := 0;
      while |order| > MAX_THREADS
        invariant 0 <= gone <= |all| && |order| == |all| - gone && order == all[gone..]
        invariant gone > 0 ==> |order| >= MAX_THREADS
        invariant threads == from - set i | 0 <= i < gone :: all[i]
      {
        threads := threads - {order[0]};
        order := order[1..];
        gone := gone + 1;
      }
      assert (set i | 0 <= i < gone :: all[i]) == Oldest(all);
    }

    method ConfirmAll(log: seq<Message>) returns (out: seq<Message>)
      ensures out == NonePending(log)
    {
      out := [];
      for i := 0 to |log|
        invariant out == NonePending(log[..i])
      {
        assert log[..i + 1][..i] == log[..i];
        out := out + [if log[i].pending then log[i].(pending := false) else log[i]];
      }
      assert log[..|log|] == log;
    }
  }

  lemma {:induction false} FoundFirst(log: seq<Message>, sender: string, i: nat)
    requires i < |log| && ConfirmIndex(log[..i], sender).None?
    requires log[i].kind == Local && log[i].recordID == "" && (sender == "" || log[i].sender == "" || log[i].sender == sender)
    ensures ConfirmIndex(log, sender) == Some(i)
    decreases |log|
  {
    if i < |log| - 1 {
      assert log[..|log| - 1][..i] == log[..i];
      FoundFirst(log[..|log| - 1], sender, i);
    }
  }
}
