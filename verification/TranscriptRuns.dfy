/**
 Whole runs of the live buffer: how late a delivery may come back and still show once
 (platform/console/transcript.go).
 */
module TranscriptRuns {
  import ByteStrings
  import opened Wrappers
  import opened Decimal
  import opened OpIds
  import opened TranscriptMerge
  import opened TranscriptStore

  datatype Event =
    | Types(id: string, thread: string, sender: string, text: string, now: Option<int>)
    | Delivers(op: Op, at: Option<int>)

  function Step(own: string, s: Store, e: Event): Store {
    match e
    case Types(id, thread, sender, text, now) => AppendLocal(s, id, thread, sender, text, now)
    case Delivers(op, now) => AppendOp(s, op, own, now)
  }

  function After(own: string, events: seq<Event>): Store {
    if events == [] then EMPTY else Step(own, After(own, events[..|events| - 1]), events[|events| - 1])
  }

  function Ids(ds: seq<Delivery>): (ids: seq<string>)
    ensures |ids| == |ds| && forall i :: 0 <= i < |ds| ==> ids[i] == ds[i].id
  {
    seq(|ds|, i requires 0 <= i < |ds| => ds[i].id)
  }

  /** A delivery recorded before comes back while fewer than this many have been recorded since. */
  predicate InTime(s: Store, op: Op, window: nat) {
    op.id in Ids(s.recorded) ==> op.id in Ids(LastN(s.recorded, window))
  }

  /** In one thread, an input and a run have one delivery each, however often it comes. */
  predicate NamedAlike(s: Store, op: Op) {
    forall k :: 0 <= k < |s.recorded| && s.recorded[k].thread == op.thread ==>
      (InputIDOf(op.id) != "" && InputIDOf(s.recorded[k].id) == InputIDOf(op.id) ==> s.recorded[k].id == op.id)
      && (RunIDOf(op.id) != "" && RunIDOf(s.recorded[k].id) == RunIDOf(op.id) ==> s.recorded[k].id == op.id)
  }

  /** Deliveries come as the manager makes them, and come back in time. */
  predicate Orderly(own: string, events: seq<Event>, window: nat)
    decreases |events|
  {
    events == []
    || (var s, e := After(own, events[..|events| - 1]), events[|events| - 1];
        Orderly(own, events[..|events| - 1], window)
        && (e.Delivers? ==> InTime(s, e.op, window) && NamedAlike(s, e.op)))
  }

  // ---- The ring ----------------------------------------------------------------------

  ghost predicate NoRepeats(ids: seq<string>) {
    forall i, j :: 0 <= i < j < |ids| ==> ids[i] != ids[j]
  }

  /** What is seen are the last deliveries recorded. */
  ghost predicate Remembers(s: Store) {
    s.ring == Ids(LastN(s.recorded, MAX_SEEN)) && NoRepeats(s.ring) && forall x :: x in s.seen <==> x in s.ring
  }

  lemma RingKeeps(s: Store, op: Op)
    requires Remembers(s) && op.id !in s.seen
    ensures Remembers(Remember(s, op))
  {
    var ring, more := s.ring + [op.id], s.recorded + [Delivery(op.id, op.thread)];
    var t := Remember(s, op);
    assert t.recorded == more;
    if |ring| > MAX_SEEN {
      assert t.ring == ring[1..] == Ids(LastN(more, MAX_SEEN));
      forall x
        ensures x in t.seen <==> x in t.ring
      {
        RestWithout(ring, x);
      }
    } else {
      assert t.ring == ring == Ids(LastN(more, MAX_SEEN));
    }
  }

  lemma RestWithout(ids: seq<string>, x: string)
    requires ids != [] && NoRepeats(ids)
    ensures x in ids[1..] <==> x in ids && x != ids[0]
  {
    if x in ids && x != ids[0] {
      var i :| 0 <= i < |ids| && ids[i] == x;
      assert ids[1..][i - 1] == x;
    }
  }

  // ---- Where messages come from ------------------------------------------------------

  function InputsOf(ds: seq<Delivery>, thread: string): set<string> {
    set d | d in ds && d.thread == thread :: InputIDOf(d.id)
  }

  function RunsOf(ds: seq<Delivery>, thread: string): set<string> {
    set d | d in ds && d.thread == thread :: RunIDOf(d.id)
  }

  /** What the message stands for was delivered to its thread. */
  predicate TracedIn(m: Message, ds: seq<Delivery>, thread: string) {
    (m.recordID == "" || m.recordID in InputsOf(ds, thread)) && (m.runID == "" || m.runID in RunsOf(ds, thread))
  }

  ghost predicate LogTraced(log: seq<Message>, ds: seq<Delivery>, thread: string) {
    forall m :: m in log ==> TracedIn(m, ds, thread)
  }

  ghost predicate Traced(s: Store) {
    forall t :: LogTraced(Log(s, t), s.recorded, t)
  }

  lemma TracedLonger(log: seq<Message>, ds: seq<Delivery>, d: Delivery, thread: string)
    requires LogTraced(log, ds, thread)
    ensures LogTraced(log, ds + [d], thread)
  {
    forall m | m in log
      ensures TracedIn(m, ds + [d], thread)
    {
      assert TracedIn(m, ds, thread);
      assert forall e :: e in ds ==> e in ds + [d];
    }
  }

  lemma {:induction false} NonePendingMembers(log: seq<Message>, m: Message)
    requires m in NonePending(log)
    ensures exists n :: n in log && m == n.(pending := false)
  {
    var front, last := log[..|log| - 1], log[|log| - 1];
    if m in NonePending(front) {
      NonePendingMembers(front, m);
      var n :| n in front && m == n.(pending := false);
      assert n in log;
    } else {
      assert last in log;
    }
  }

  lemma ExtendedTraced(log: seq<Message>, msg: Message, confirm: bool, ds: seq<Delivery>, thread: string)
    requires LogTraced(log, ds, thread) && TracedIn(msg, ds, thread)
    ensures LogTraced(Extended(log, msg, confirm), ds, thread)
  {
    forall m | m in Extended(log, msg, confirm)
      ensures TracedIn(m, ds, thread)
    {
      if m != msg && confirm {
        assert m in NonePending(log);
        NonePendingMembers(log, m);
        var n :| n in log && m == n.(pending := false);
        assert TracedIn(n, ds, thread);
      }
    }
  }

  lemma ConfirmedTraced(log: seq<Message>, sender: string, record: string, ds: seq<Delivery>, thread: string)
    requires LogTraced(log, ds, thread) && ConfirmIndex(log, sender).Some? && record in InputsOf(ds, thread)
    ensures LogTraced(Confirmed(log, sender, record), ds, thread)
  {
    var i := ConfirmIndex(log, sender).value;
    var more := Confirmed(log, sender, record);
    forall m | m in more
      ensures TracedIn(m, ds, thread)
    {
      var k :| 0 <= k < |more| && more[k] == m;
      assert log[k] in log && TracedIn(log[k], ds, thread);
    }
  }

  lemma RememberedTraced(s: Store, op: Op)
    requires Traced(s)
    ensures Traced(Remember(s, op))
  {
    var d := Delivery(op.id, op.thread);
    forall t
      ensures LogTraced(Log(Remember(s, op), t), s.recorded + [d], t)
    {
      assert LogTraced(Log(s, t), s.recorded, t);
      TracedLonger(Log(s, t), s.recorded, d, t);
    }
  }

  lemma TracedByThread(s: Store, t: Store, thread: string)
    requires Traced(s) && t.recorded == s.recorded
    requires SameElsewhere(s, t, thread) && LogTraced(Log(t, thread), s.recorded, thread)
    ensures Traced(t)
  {
    forall u
      ensures LogTraced(Log(t, u), s.recorded, u)
    {
      assert LogTraced(Log(s, u), s.recorded, u);
      assert u != thread ==> SameOrGone(Log(s, u), Log(t, u));
    }
  }

  lemma AppendedLogTraced(s: Store, t: Store, thread: string, msg: Message, confirm: bool)
    requires LogTraced(Log(s, thread), s.recorded, thread) && TracedIn(msg, s.recorded, thread)
    requires t == Append(s, thread, msg, confirm)
    ensures LogTraced(Log(t, thread), s.recorded, thread) && SameElsewhere(s, t, thread) && t.recorded == s.recorded
  {
    AppendedElsewhere(s, thread, msg, confirm);
    ExtendedTraced(Log(s, thread), msg, confirm, s.recorded, thread);
  }

  lemma AppendTraced(s: Store, t: Store, thread: string, msg: Message, confirm: bool)
    requires Traced(s) && TracedIn(msg, s.recorded, thread)
    requires t == Append(s, thread, msg, confirm)
    ensures Traced(t)
  {
    assert LogTraced(Log(s, thread), s.recorded, thread);
    AppendedLogTraced(s, t, thread, msg, confirm);
    TracedByThread(s, t, thread);
  }

  lemma DeliveredIsTraced(s: Store, op: Op)
    ensures InputIDOf(op.id) in InputsOf(Remember(s, op).recorded, op.thread)
    ensures RunIDOf(op.id) in RunsOf(Remember(s, op).recorded, op.thread)
  {
    assert Delivery(op.id, op.thread) in s.recorded + [Delivery(op.id, op.thread)];
  }

  lemma TypingTraced(s: Store, id: string, thread: string, sender: string, text: string, now: Option<int>)
    requires Traced(s)
    ensures Traced(AppendLocal(s, id, thread, sender, text, now))
  {
    AppendTraced(s, AppendLocal(s, id, thread, sender, text, now), thread, Typed(id, sender, text, now), false);
  }

  lemma TracedStep(own: string, s: Store, e: Event)
    requires Traced(s)
    ensures Traced(Step(own, s, e))
  {
    match e
    case Types(id, thread, sender, text, now) =>
      TypingTraced(s, id, thread, sender, text, now);
    case Delivers(op, now) =>
      if op.id !in s.seen {
        DeliveryTraced(own, s, op, now);
      }
  }

  lemma DeliveryTraced(own: string, s: Store, op: Op, now: Option<int>)
    requires Traced(s) && op.id !in s.seen
    ensures Traced(AppendOp(s, op, own, now))
  {
    RememberedTraced(s, op);
    DeliveredIsTraced(s, op);
    if Plumbing(op) {
    } else if Confirms(s, op, own) {
      ConfirmTraced(own, s, op, now);
    } else {
      var msg := Bubble(op, own, now);
      AppendTraced(Remember(s, op), AppendOp(s, op, own, now), op.thread, msg, msg.kind == Ack || msg.kind == Relay);
    }
  }

  lemma ConfirmTraced(own: string, s: Store, op: Op, now: Option<int>)
    requires Traced(Remember(s, op)) && op.id !in s.seen && !Plumbing(op) && Confirms(s, op, own)
    requires InputIDOf(op.id) in InputsOf(Remember(s, op).recorded, op.thread)
    ensures Traced(AppendOp(s, op, own, now))
  {
    var r, t := Remember(s, op), AppendOp(s, op, own, now);
    forall u
      ensures LogTraced(Log(t, u), r.recorded, u)
    {
      assert LogTraced(Log(r, u), r.recorded, u);
      if u == op.thread {
        ConfirmedTraced(Log(r, u), op.sender, InputIDOf(op.id), r.recorded, u);
      }
    }
  }

  // ---- No doubles --------------------------------------------------------------------

  lemma {:induction false} LinesMember(log: seq<Message>, x: string)
    ensures InputLines(log, x) > 0 ==> exists m :: m in log && m.recordID == x
    ensures AgentLines(log, x) > 0 ==> exists m :: m in log && m.runID == x
  {
    if log != [] {
      LinesMember(log[..|log| - 1], x);
      assert log[|log| - 1] in log;
    }
  }

  /** Within the ring's length, a delivery not seen is a new one. */
  lemma UnseenIsNew(s: Store, op: Op, window: nat)
    requires Remembers(s) && InTime(s, op, window) && window <= MAX_SEEN && op.id !in s.seen
    ensures op.id !in Ids(s.recorded)
  {
    if op.id in Ids(LastN(s.recorded, window)) {
      IdsOfLast(s.recorded, window, MAX_SEEN, op.id);
    }
  }

  lemma IdsOfLast(ds: seq<Delivery>, n: nat, m: nat, x: string)
    requires n <= m && x in Ids(LastN(ds, n))
    ensures x in Ids(LastN(ds, m))
  {
    var near, far := LastN(ds, n), LastN(ds, m);
    var i :| 0 <= i < |near| && Ids(near)[i] == x;
    assert far[|far| - |near| + i] == near[i];
    assert Ids(far)[|far| - |near| + i] == x;
  }

  lemma NewIsNotHeld(s: Store, op: Op)
    requires Traced(s) && NamedAlike(s, op) && op.id !in Ids(s.recorded)
    ensures InputIDOf(op.id) != "" ==> InputLines(Log(s, op.thread), InputIDOf(op.id)) == 0
    ensures RunIDOf(op.id) != "" ==> AgentLines(Log(s, op.thread), RunIDOf(op.id)) == 0
  {
    var log := Log(s, op.thread);
    assert LogTraced(log, s.recorded, op.thread);
    LinesMember(log, InputIDOf(op.id));
    LinesMember(log, RunIDOf(op.id));
    InputIsNew(s, op);
  }

  lemma InputIsNew(s: Store, op: Op)
    requires NamedAlike(s, op) && op.id !in Ids(s.recorded)
    ensures InputIDOf(op.id) != "" ==> InputIDOf(op.id) !in InputsOf(s.recorded, op.thread)
    ensures RunIDOf(op.id) != "" ==> RunIDOf(op.id) !in RunsOf(s.recorded, op.thread)
  {
    forall d | d in s.recorded && d.thread == op.thread
      ensures InputIDOf(op.id) != "" ==> InputIDOf(d.id) != InputIDOf(op.id)
      ensures RunIDOf(op.id) != "" ==> RunIDOf(d.id) != RunIDOf(op.id)
    {
      var k :| 0 <= k < |s.recorded| && s.recorded[k] == d;
      assert Ids(s.recorded)[k] == d.id;
    }
  }

  lemma NewDoesNotDouble(own: string, s: Store, op: Op)
    requires Traced(s) && NamedAlike(s, op) && op.id !in Ids(s.recorded)
    ensures !Doubles(s, op, own)
  {
    NewIsNotHeld(s, op);
    SuffixLines(Log(s, op.thread), MAX_MESSAGES - 1, InputIDOf(op.id));
    SuffixLines(Log(s, op.thread), MAX_MESSAGES - 1, RunIDOf(op.id));
  }

  ghost predicate Sound(s: Store) {
    Unique(s) && Remembers(s) && Traced(s)
  }

  lemma DeliveryIsSound(own: string, s: Store, op: Op, now: Option<int>, window: nat)
    requires Sound(s) && InTime(s, op, window) && NamedAlike(s, op) && window <= MAX_SEEN
    ensures Unique(AppendOp(s, op, own, now)) && Remembers(AppendOp(s, op, own, now))
  {
    if op.id !in s.seen {
      UnseenIsNew(s, op, window);
      NewDoesNotDouble(own, s, op);
      RingKeeps(s, op);
    }
    DeliveryDoublesExactlyWhen(s, op, own, now);
    SameRing(own, s, op, now);
  }

  lemma SameRing(own: string, s: Store, op: Op, now: Option<int>)
    ensures op.id !in s.seen ==>
              var t, r := AppendOp(s, op, own, now), Remember(s, op);
              t.ring == r.ring && t.seen == r.seen && t.recorded == r.recorded
    ensures op.id in s.seen ==> AppendOp(s, op, own, now) == s
  {
  }

  lemma {:induction false} OrderlyIsSound(own: string, events: seq<Event>, window: nat)
    requires Orderly(own, events, window) && window <= MAX_SEEN
    ensures Sound(After(own, events))
    decreases |events|
  {
    if events == [] {
      EmptyIsSound();
    } else {
      var s, e := After(own, events[..|events| - 1]), events[|events| - 1];
      OrderlyIsSound(own, events[..|events| - 1], window);
      TracedStep(own, s, e);
      match e
      case Types(id, thread, sender, text, now) =>
        TypingIsUnique(s, id, thread, sender, text, now);
      case Delivers(op, now) =>
        DeliveryIsSound(own, s, op, now, window);
    }
  }

  lemma EmptyIsSound()
    ensures Sound(EMPTY)
  {
    assert forall t :: Log(EMPTY, t) == [];
    assert Ids(LastN(EMPTY.recorded, MAX_SEEN)) == [];
  }

  // ---- Exactly when ------------------------------------------------------------------

  const X: Op := Op("input:c:x:k", "A", SignalOp, "", "", "", "")

  function Noise(k: nat): Op {
    Op(FormatInt(k), "B", Notice, "", "", "", "")
  }

  /** One message, then as many notices in another thread. */
  function Flood(n: nat): (events: seq<Event>)
    ensures |events| == n + 1
  {
    if n == 0 then [Delivers(X, None)] else Flood(n - 1) + [Delivers(Noise(n - 1), None)]
  }

  lemma NoiseIsPlain(k: nat)
    ensures InputIDOf(Noise(k).id) == "" && RunIDOf(Noise(k).id) == "" && Noise(k).id != X.id
  {
    FormatIsDigits(k);
    assert Digit(FormatInt(k)[0]) && !Digit('i') && X.id[0] == 'i' && INPUT[0] == 'i';
    assert forall i :: 0 <= i < |FormatInt(k)| ==> FormatInt(k)[i] != ':';
    ByteStrings.IndexByteIsFirst(FormatInt(k), ':', 0);
  }

  lemma NoiseDiffers(i: nat, j: nat)
    requires i != j
    ensures Noise(i).id != Noise(j).id
  {
    FormatIsDigits(i);
    FormatIsDigits(j);
  }

  /** What a run of notices has recorded. */
  function FloodIds(n: nat): (ds: seq<Delivery>)
    ensures |ds| == n + 1
  {
    if n == 0 then [Delivery(X.id, "A")] else FloodIds(n - 1) + [Delivery(Noise(n - 1).id, "B")]
  }

  lemma {:induction false} FloodAt(n: nat, k: nat)
    requires k <= n
    ensures FloodIds(n)[k] == if k == 0 then Delivery(X.id, "A") else Delivery(Noise(k - 1).id, "B")
  {
    if k < n {
      FloodAt(n - 1, k);
    }
  }

  lemma XStandsForX()
    ensures InputIDOf(X.id) == "x" && RunIDOf(X.id) == ""
  {
    InputRoundTrip("c", "x", "k");
    assert INPUT + "c" + ":" + "x" + ":" + "k" == X.id;
    OneOrTheOther(X.id);
  }

  ghost predicate Flooded(own: string, s: Store, n: nat) {
    s.recorded == FloodIds(n) && Remembers(s)
    && s.order == (if n == 0 then ["A"] else ["A", "B"])
    && "A" in s.threads && ("B" in s.threads <==> n > 0) && s.threads["A"] == [Bubble(X, own, None)]
  }

  /** A new delivery's id has not been recorded. */
  lemma FloodIsNew(n: nat)
    ensures Noise(n).id !in Ids(FloodIds(n))
  {
    forall k | 0 <= k <= n
      ensures Ids(FloodIds(n))[k] != Noise(n).id
    {
      FloodAt(n, k);
      NoiseIsPlain(n);
      if k > 0 {
        NoiseDiffers(k - 1, n);
      }
    }
  }

  lemma NoiseIsUnseen(s: Store, n: nat)
    requires s.recorded == FloodIds(n) && Remembers(s)
    ensures Noise(n).id !in s.seen
  {
    FloodIsNew(n);
    if Noise(n).id in s.seen {
      IdsOfLast(s.recorded, MAX_SEEN, |s.recorded| + MAX_SEEN, Noise(n).id);
    }
  }

  lemma NoiseThreads(own: string, s: Store, n: nat)
    requires Flooded(own, s, n) && Noise(n).id !in s.seen
    ensures var t := AppendOp(s, Noise(n), own, None);
            t.order == ["A", "B"] && "A" in t.threads && "B" in t.threads && t.threads["A"] == s.threads["A"]
  {
    NoOldest(s.order + ["B"]);
  }

  lemma NoiseFloods(own: string, s: Store, n: nat)
    requires Flooded(own, s, n)
    ensures Flooded(own, AppendOp(s, Noise(n), own, None), n + 1)
  {
    NoiseIsUnseen(s, n);
    NoiseThreads(own, s, n);
    RingKeeps(s, Noise(n));
    SameRing(own, s, Noise(n), None);
  }

  lemma NoOldest(order: seq<string>)
    requires |order| <= MAX_THREADS
    ensures Oldest(order) == {} && LastN(order, MAX_THREADS) == order
  {
  }

  lemma FirstFloods(own: string)
    ensures Flooded(own, AppendOp(EMPTY, X, own, None), 0)
  {
    EmptyIsSound();
    RingKeeps(EMPTY, X);
    SameRing(own, EMPTY, X, None);
    NoOldest(["A"]);
    assert [] + [Bubble(X, own, None)] == [Bubble(X, own, None)];
    assert EMPTY.order + ["A"] == ["A"];
    assert EMPTY.recorded + [Delivery(X.id, "A")] == FloodIds(0);
  }

  lemma {:induction false} FloodRuns(own: string, n: nat, window: nat)
    ensures Flooded(own, After(own, Flood(n)), n) && Orderly(own, Flood(n), window)
  {
    var events := Flood(n);
    if n == 0 {
      assert events[..0] == [];
      FirstFloods(own);
    } else {
      FloodRuns(own, n - 1, window);
      assert events[..n] == Flood(n - 1);
      NoiseFloods(own, After(own, Flood(n - 1)), n - 1);
      NoiseIsOrderly(own, After(own, Flood(n - 1)), n - 1, window);
    }
  }

  lemma NoiseIsOrderly(own: string, s: Store, n: nat, window: nat)
    requires Flooded(own, s, n)
    ensures InTime(s, Noise(n), window) && NamedAlike(s, Noise(n))
  {
    FloodIsNew(n);
    NoiseIsPlain(n);
  }

  /** After as many notices as the ring is long, the first message comes back unknown. */
  lemma LateDoubles(own: string, s: Store, window: nat)
    requires Flooded(own, s, MAX_SEEN) && Unique(s) && window > MAX_SEEN
    ensures InTime(s, X, window) && NamedAlike(s, X)
    ensures !Unique(AppendOp(s, X, own, None))
  {
    var last := LastN(s.recorded, MAX_SEEN);
    assert last == FloodIds(MAX_SEEN)[1..];
    forall k | 0 <= k < MAX_SEEN
      ensures Ids(last)[k] != X.id && s.recorded[k + 1].thread == "B"
    {
      FloodAt(MAX_SEEN, k + 1);
      NoiseIsPlain(k);
    }
    FloodAt(MAX_SEEN, 0);
    XStandsForX();
    assert Ids(s.recorded)[0] == X.id && LastN(s.recorded, window) == s.recorded;
    OneLine(Bubble(X, own, None), "x");
    assert LastN([Bubble(X, own, None)], MAX_MESSAGES - 1) == [Bubble(X, own, None)];
    DeliveryDoublesExactlyWhen(s, X, own, None);
  }

  lemma FloodIsUnique(own: string, s: Store)
    requires Flooded(own, s, MAX_SEEN) && Orderly(own, Flood(MAX_SEEN), MAX_SEEN) && s == After(own, Flood(MAX_SEEN))
    ensures Unique(s)
  {
    OrderlyIsSound(own, Flood(MAX_SEEN), MAX_SEEN);
  }

  lemma LateRun(own: string, window: nat)
    requires window > MAX_SEEN
    ensures exists events :: Orderly(own, events, window) && !Unique(After(own, events))
  {
    var events := Flood(MAX_SEEN) + [Delivers(X, None)];
    var s := After(own, Flood(MAX_SEEN));
    FloodRuns(own, MAX_SEEN, window);
    FloodRuns(own, MAX_SEEN, MAX_SEEN);
    FloodIsUnique(own, s);
    LateDoubles(own, s, window);
    assert events[..|events| - 1] == Flood(MAX_SEEN);
    assert After(own, events) == AppendOp(s, X, own, None);
    assert Orderly(own, events, window);
  }

  /** Every delivery shows once, in every run in which one that comes back does so while fewer
      than `window` others have been recorded; exactly when the window is no longer than the
      ring of ids the buffer remembers. */
  lemma ShownOnceExactlyWhen(own: string, window: nat)
    ensures (forall events :: Orderly(own, events, window) ==> Unique(After(own, events))) <==> window <= MAX_SEEN
  {
    if window <= MAX_SEEN {
      forall events | Orderly(own, events, window)
        ensures Unique(After(own, events))
      {
        OrderlyIsSound(own, events, window);
      }
    } else {
      LateRun(own, window);
    }
  }

  /** What the merged thread shows after such a run. */
  lemma ThreadShowsOnce(own: string, events: seq<Event>, thread: string, runs: seq<Run>, x: string)
    requires Orderly(own, events, MAX_SEEN) && SingleRecord(runs) && x != ""
    ensures var out := Merged(own, Log(After(own, events), thread), runs);
            (RecordedInputs(runs, x) == 1 ==> InputLines(out, x) == 1)
            && (RecordedRuns(runs, x) == 1 ==> AgentLines(out, x) == 1)
  {
    OrderlyIsSound(own, events, MAX_SEEN);
    RecordedShowsOnce(own, Log(After(own, events), thread), runs, x);
  }
}
