/**
 A subscriber of the watch cache that has drained its queue and owes no resync holds exactly the
 cache's store, in every run, any interleaving of events, relists, overflows and reads, provided
 it answers a RESYNC by reading everything again; with any other answer some run leaves it behind.
 */
module CacheTheorems {
  import opened Wrappers
  import opened CacheMachine

  function Get(s: Store, key: Key): Option<Object> {
    if key in s then Some(s[key]) else None
  }

  // ---- replaying a queue ----------------------------------------------------------

  /** A store after the events of a queue, in order. */
  function Replay(v: Store, q: seq<Delta>): Store
    decreases |q|
  {
    if q == [] then v else Applied(Replay(v, q[..|q| - 1]), q[|q| - 1])
  }

  predicate Touches(d: Delta, key: Key) {
    d.Event? && d.key == key
  }

  predicate Touched(q: seq<Delta>, key: Key)
    decreases |q|
  {
    q != [] && (Touches(q[|q| - 1], key) || Touched(q[..|q| - 1], key))
  }

  lemma ReplayUntouched(v: Store, q: seq<Delta>, key: Key)
    requires !Touched(q, key)
    ensures Get(Replay(v, q), key) == Get(v, key)
    decreases |q|
  {
    if q != [] {
      ReplayUntouched(v, q[..|q| - 1], key);
    }
  }

  /** What a queue leaves at a key depends on the key alone, and not at all when it is touched. */
  lemma ReplayPointwise(v: Store, w: Store, q: seq<Delta>, key: Key)
    requires Touched(q, key) || Get(v, key) == Get(w, key)
    ensures Get(Replay(v, q), key) == Get(Replay(w, q), key)
    decreases |q|
  {
    if q != [] && !Touches(q[|q| - 1], key) {
      ReplayPointwise(v, w, q[..|q| - 1], key);
    }
  }

  lemma ReplayHead(v: Store, q: seq<Delta>)
    requires q != []
    ensures Replay(v, q) == Replay(Applied(v, q[0]), q[1..])
    decreases |q|
  {
    if |q| > 1 {
      var front := q[..|q| - 1];
      ReplayHead(v, front);
      assert q[1..][..|q[1..]| - 1] == front[1..];
    }
  }

  // ---- resyncs in a queue ---------------------------------------------------------

  predicate HasResync(q: seq<Delta>)
    decreases |q|
  {
    q != [] && (q[|q| - 1].Resync? || HasResync(q[..|q| - 1]))
  }

  lemma HasResyncHead(q: seq<Delta>)
    requires q != []
    ensures HasResync(q) <==> q[0].Resync? || HasResync(q[1..])
    decreases |q|
  {
    if |q| > 1 {
      HasResyncHead(q[..|q| - 1]);
      assert q[1..][..|q[1..]| - 1] == q[..|q| - 1][1..];
    }
  }

  /** What follows the last RESYNC of a queue; all of it when there is none. */
  function Suffix(q: seq<Delta>): seq<Delta>
    decreases |q|
  {
    if q == [] || q[|q| - 1].Resync? then [] else Suffix(q[..|q| - 1]) + [q[|q| - 1]]
  }

  lemma SuffixOfPlain(q: seq<Delta>)
    requires !HasResync(q)
    ensures Suffix(q) == q
    decreases |q|
  {
    if q != [] {
      SuffixOfPlain(q[..|q| - 1]);
    }
  }

  /** Taking the head off a queue with a RESYNC leaves what follows the last RESYNC. */
  lemma SuffixOfTail(q: seq<Delta>)
    requires HasResync(q)
    ensures Suffix(q[1..]) == Suffix(q)
    decreases |q|
  {
    var front, d := q[..|q| - 1], q[|q| - 1];
    if |q| > 1 {
      assert q[1..][..|q[1..]| - 1] == front[1..] && q[1..][|q[1..]| - 1] == d;
      if !d.Resync? {
        SuffixOfTail(front);
      }
    }
  }

  // ---- the invariant --------------------------------------------------------------

  /** Keys whose change is made but not published. */
  predicate Unpublished(pending: map<Kind, Delta>, key: Key) {
    key.kind in pending && (pending[key.kind].Resync? || pending[key.kind].key == key)
  }

  /** Two stores agree on everything published. */
  ghost predicate Agree(s: Store, t: Store, pending: map<Kind, Delta>) {
    forall key :: !Unpublished(pending, key) ==> Get(s, key) == Get(t, key)
  }

  /** Replaying what follows the last RESYNC over the store gives the store back. */
  ghost predicate Settles(s: Store, pending: map<Kind, Delta>, q: seq<Delta>) {
    Agree(Replay(s, Suffix(q)), s, pending)
  }

  /** Replaying the queue over the subscriber's view gives the store. */
  ghost predicate Follows(s: Store, pending: map<Kind, Delta>, view: Store, q: seq<Delta>) {
    Agree(Replay(view, q), s, pending)
  }

  ghost predicate SubOk(s: State, id: nat)
    requires id in s.subs
  {
    var sub := s.subs[id];
    !sub.stale ==>
      && Settles(s.store, s.pending, sub.queue)
      && (id in s.views && !HasResync(sub.queue) ==> Follows(s.store, s.pending, s.views[id], sub.queue))
  }

  ghost predicate PendingOk(s: State) {
    forall k :: k in s.pending ==>
      KindOf(s.pending[k]) == k
      && (s.pending[k].Event? ==>
            Get(s.store, s.pending[k].key) == Get(Applied(map[], s.pending[k]), s.pending[k].key))
  }

  ghost predicate Inv(s: State) {
    && PendingOk(s)
    && (forall id :: id in s.subs ==> id < s.nextId && SubOk(s, id))
    && (forall id :: id in s.views ==> id in s.subs)
  }

  // ---- changes of the store -------------------------------------------------------

  /** A change of the store that touches only keys it leaves unpublished. */
  lemma ChangeKeepsSub(s: State, t: State, id: nat)
    requires id in s.subs && SubOk(s, id) && t.subs == s.subs && t.views == s.views
    requires forall key :: Unpublished(s.pending, key) ==> Unpublished(t.pending, key)
    requires Agree(s.store, t.store, t.pending)
    ensures SubOk(t, id)
  {
    var sub := s.subs[id];
    if !sub.stale {
      forall key | !Unpublished(t.pending, key)
        ensures Get(Replay(t.store, Suffix(sub.queue)), key) == Get(t.store, key)
      {
        assert Get(s.store, key) == Get(t.store, key);
        ReplayPointwise(s.store, t.store, Suffix(sub.queue), key);
      }
    }
  }

  lemma InvApply(c: Config, s: State, event: EventType, key: Key, obj: Object, t: State)
    requires Inv(s) && Next(c, s, Apply(event, key, obj)) == Some(t)
    ensures Inv(t)
  {
    forall id | id in s.subs
      ensures SubOk(t, id)
    {
      ChangeKeepsSub(s, t, id);
    }
  }

  lemma InvReplace(c: Config, s: State, kind: Kind, objs: map<Name, Object>, t: State)
    requires Inv(s) && Next(c, s, Replace(kind, objs)) == Some(t)
    ensures Inv(t)
  {
    forall id | id in s.subs
      ensures SubOk(t, id)
    {
      ChangeKeepsSub(s, t, id);
    }
  }

  // ---- publishing -----------------------------------------------------------------

  lemma OfferKeepsAgreement(s: Store, pending: map<Kind, Delta>, d: Delta, v: Store, q: seq<Delta>)
    requires KindOf(d) in pending && pending[KindOf(d)] == d && d.Event?
    requires Get(s, d.key) == Get(Applied(map[], d), d.key)
    requires Agree(Replay(v, q), s, pending)
    ensures Agree(Replay(v, q + [d]), s, pending - {KindOf(d)})
  {
    assert (q + [d])[..|q + [d]| - 1] == q;
    forall key | !Unpublished(pending - {KindOf(d)}, key)
      ensures Get(Replay(v, q + [d]), key) == Get(s, key)
    {
      if key != d.key {
        assert !Unpublished(pending, key);
      }
    }
  }

  lemma HasResyncAppend(q: seq<Delta>, d: Delta)
    ensures HasResync(q + [d]) <==> HasResync(q) || d.Resync?
  {
    assert (q + [d])[..|q + [d]| - 1] == q;
  }

  lemma SuffixAppend(q: seq<Delta>, d: Delta)
    ensures Suffix(q + [d]) == if d.Resync? then [] else Suffix(q) + [d]
  {
    assert (q + [d])[..|q + [d]| - 1] == q;
  }

  lemma InvPublish(c: Config, s: State, kind: Kind, t: State)
    requires Inv(s) && Next(c, s, Publish(kind)) == Some(t)
    ensures Inv(t)
  {
    var d := s.pending[kind];
    forall id | id in t.subs
      ensures SubOk(t, id)
    {
      PublishKeepsSub(c, s, kind, id, t);
    }
  }

  lemma PublishKeepsSub(c: Config, s: State, kind: Kind, id: nat, t: State)
    requires Inv(s) && Next(c, s, Publish(kind)) == Some(t) && id in s.subs
    ensures id in t.subs && SubOk(t, id)
  {
    var d := s.pending[kind];
    var sub, after := s.subs[id], t.subs[id];
    assert SubOk(s, id) && KindOf(d) == kind;
    if sub.stale {
      SuffixAppend(sub.queue, Resync(kind));
      HasResyncAppend(sub.queue, Resync(kind));
    } else if |sub.queue| < c.cap {
      SuffixAppend(sub.queue, d);
      HasResyncAppend(sub.queue, d);
      if d.Event? {
        OfferKeepsAgreement(s.store, s.pending, d, s.store, Suffix(sub.queue));
        if id in s.views && !HasResync(sub.queue) {
          OfferKeepsAgreement(s.store, s.pending, d, s.views[id], sub.queue);
        }
      }
    }
  }

  // ---- subscribers ----------------------------------------------------------------

  lemma InvSubscribe(c: Config, s: State, t: State)
    requires Inv(s) && Next(c, s, Subscribe) == Some(t)
    ensures Inv(t)
  {
    forall id | id in t.subs
      ensures SubOk(t, id)
    {
      assert id in s.subs ==> SubOk(s, id);
    }
  }

  lemma InvCancel(c: Config, s: State, id: nat, t: State)
    requires Inv(s) && Next(c, s, Cancel(id)) == Some(t)
    ensures Inv(t)
  {
    forall i | i in t.subs
      ensures SubOk(t, i)
    {
      assert SubOk(s, i);
    }
  }

  lemma InvReadSnapshot(c: Config, s: State, id: nat, t: State)
    requires Inv(s) && Next(c, s, ReadSnapshot(id)) == Some(t)
    ensures Inv(t)
  {
    forall i | i in t.subs
      ensures SubOk(t, i)
    {
      assert SubOk(s, i);
      if i == id && !HasResync(s.subs[i].queue) {
        SuffixOfPlain(s.subs[i].queue);
      }
    }
  }

  /** The suffix still settles without its head. */
  lemma SettlesWithoutHead(s: Store, pending: map<Kind, Delta>, q: seq<Delta>)
    requires q != [] && Agree(Replay(s, q), s, pending)
    ensures Agree(Replay(s, q[1..]), s, pending)
  {
    ReplayHead(s, q);
    forall key | !Unpublished(pending, key)
      ensures Get(Replay(s, q[1..]), key) == Get(s, key)
    {
      if Touched(q[1..], key) {
        ReplayPointwise(Applied(s, q[0]), s, q[1..], key);
      } else {
        ReplayUntouched(s, q[1..], key);
      }
    }
  }

  lemma ReceiveKeepsSettling(s: Store, pending: map<Kind, Delta>, q: seq<Delta>)
    requires q != [] && Settles(s, pending, q)
    ensures Settles(s, pending, q[1..])
  {
    if HasResync(q) {
      SuffixOfTail(q);
    } else {
      HasResyncHead(q);
      SuffixOfPlain(q);
      SuffixOfPlain(q[1..]);
      SettlesWithoutHead(s, pending, q);
    }
  }

  lemma ReceiveFollows(c: Config, s: State, id: nat, t: State)
    requires c.answer.Whole? && Inv(s) && Next(c, s, Receive(id)) == Some(t) && !s.subs[id].stale
    requires !HasResync(t.subs[id].queue)
    ensures Follows(t.store, t.pending, t.views[id], t.subs[id].queue)
  {
    var q := s.subs[id].queue;
    assert SubOk(s, id);
    HasResyncHead(q);
    if q[0].Resync? {
      ReceiveKeepsSettling(s.store, s.pending, q);
      SuffixOfPlain(q[1..]);
    } else {
      ReplayHead(s.views[id], q);
    }
  }

  lemma InvReceive(c: Config, s: State, id: nat, t: State)
    requires c.answer.Whole? && Inv(s) && Next(c, s, Receive(id)) == Some(t)
    ensures Inv(t)
  {
    forall i | i in t.subs
      ensures SubOk(t, i)
    {
      assert SubOk(s, i);
      if i == id && !s.subs[i].stale {
        ReceiveKeepsSettling(s.store, s.pending, s.subs[i].queue);
        if !HasResync(t.subs[i].queue) {
          ReceiveFollows(c, s, id, t);
        }
      }
    }
  }

  lemma InvStep(c: Config, s: State, a: Step, t: State)
    requires c.answer.Whole? && Inv(s) && Next(c, s, a) == Some(t)
    ensures Inv(t)
  {
    match a
    case Apply(event, key, obj) => InvApply(c, s, event, key, obj, t);
    case Replace(kind, objs) => InvReplace(c, s, kind, objs, t);
    case Publish(kind) => InvPublish(c, s, kind, t);
    case Subscribe => InvSubscribe(c, s, t);
    case Cancel(id) => InvCancel(c, s, id, t);
    case ReadSnapshot(id) => InvReadSnapshot(c, s, id, t);
    case Receive(id) => InvReceive(c, s, id, t);
  }

  lemma InvRun(c: Config, run: seq<Step>, t: State)
    requires c.answer.Whole? && Run(c, EMPTY, run) == Some(t)
    ensures Inv(t)
    decreases |run|
  {
    if run != [] {
      var s := Run(c, EMPTY, run[..|run| - 1]).value;
      InvRun(c, run[..|run| - 1], s);
      InvStep(c, s, run[|run| - 1], t);
    }
  }

  // ---- convergence ----------------------------------------------------------------

  /** A subscriber that has read its snapshot, drained its queue and owes nothing. */
  predicate Drained(s: State, id: nat) {
    id in s.subs && id in s.views && s.subs[id].queue == [] && !s.subs[id].stale
  }

  /** Whoever is drained agrees with the store on every key whose change was published, so it
      holds exactly the store once everything was. */
  lemma DrainedHoldsStore(c: Config, s: State, id: nat)
    requires c.answer.Whole? && Reaches(c, s) && Drained(s, id)
    ensures Agree(s.views[id], s.store, s.pending)
    ensures s.pending == map[] ==> s.views[id] == s.store
  {
    var run :| Run(c, EMPTY, run) == Some(s);
    InvRun(c, run, s);
    assert SubOk(s, id);
    assert Agree(s.views[id], s.store, s.pending);
    if s.pending == map[] {
      forall key
        ensures Get(s.views[id], key) == Get(s.store, key)
      {
      }
      SameStore(s.views[id], s.store);
    }
  }

  lemma SameStore(s: Store, t: Store)
    requires forall key :: Get(s, key) == Get(t, key)
    ensures s == t
  {
    forall key
      ensures key in s <==> key in t
      ensures key in s ==> s[key] == t[key]
    {
      assert Get(s, key) == Get(t, key);
    }
  }

  /** While a subscriber owes a resync nothing is queued for it but that resync: until then its
      queue only drains, so no ordinary delta lies between a dropped one and the RESYNC. */
  lemma StaleQueueOnlyDrains(c: Config, s: State, a: Step, t: State, id: nat)
    requires Next(c, s, a) == Some(t) && id in s.subs && id in t.subs && s.subs[id].stale && id < s.nextId
    ensures t.subs[id].queue == s.subs[id].queue || (s.subs[id].queue != [] && t.subs[id].queue == s.subs[id].queue[1..])
            || (a.Publish? && t.subs[id].queue == s.subs[id].queue + [Resync(KindOf(s.pending[a.kind]))])
    ensures t.subs[id].stale <==> |t.subs[id].queue| <= |s.subs[id].queue|
  {
  }

  // ---- any other answer, and a resync owed, are not enough ------------------------

  ghost predicate Converges(c: Config) {
    forall s, id :: Reaches(c, s) && Drained(s, id) && s.pending == map[] ==> s.views[id] == s.store
  }

  lemma After(c: Config, s: State, a: Step) returns (t: State)
    requires Reaches(c, s) && Next(c, s, a).Some?
    ensures Next(c, s, a) == Some(t) && Reaches(c, t)
  {
    var run :| Run(c, EMPTY, run) == Some(s);
    t := Next(c, s, a).value;
    assert (run + [a])[..|run + [a]| - 1] == run;
    assert Run(c, EMPTY, run + [a]) == Some(t);
  }

  const PODS := Key("pods", "a")
  const LOST := Key("pods", "b")
  const JOBS := Key("jobs", "c")
  const OBJ := Object(1, "")

  function Repeated(n: nat): seq<Delta> {
    seq(n, i => Event(Modified, PODS, OBJ))
  }

  /** n events about one object, none of them read yet. */
  lemma QueueFills(c: Config, n: nat) returns (s: State)
    requires n <= c.cap
    ensures Reaches(c, s) && s.pending == map[] && s.nextId == 1
    ensures s.subs == map[0 := Subscriber(Repeated(n), false)] && 0 in s.views
    ensures s.store == if n == 0 then map[] else map[PODS := OBJ]
    ensures LOST !in s.views[0]
  {
    if n == 0 {
      assert Run(c, EMPTY, []) == Some(EMPTY);
      s := After(c, EMPTY, Subscribe);
      s := After(c, s, ReadSnapshot(0));
    } else {
      s := QueueFills(c, n - 1);
      s := After(c, s, Apply(Modified, PODS, OBJ));
      s := After(c, s, Publish("pods"));
      assert Repeated(n) == Repeated(n - 1) + [Event(Modified, PODS, OBJ)];
    }
  }

  /** With the queue full an event about another pod is dropped; then one slot is read. */
  lemma EventIsLost(c: Config) returns (s: State)
    requires c.cap >= 1
    ensures Reaches(c, s) && s.pending == map[] && s.store.Keys == {PODS, LOST}
    ensures s.subs == map[0 := Subscriber(Repeated(c.cap - 1), true)] && 0 in s.views && LOST !in s.views[0]
  {
    s := QueueFills(c, c.cap);
    s := After(c, s, Apply(Added, LOST, OBJ));
    s := After(c, s, Publish("pods"));
    s := After(c, s, Receive(0));
    assert Repeated(c.cap)[1..] == Repeated(c.cap - 1);
  }

  /** The resync owed is named after the kind published next, which is not the kind of the event
      that was dropped. */
  lemma ResyncNamesAnotherKind(c: Config) returns (s: State)
    requires c.cap >= 1
    ensures Reaches(c, s) && s.pending == map[] && s.store.Keys == {PODS, LOST, JOBS}
    ensures s.subs == map[0 := Subscriber(Repeated(c.cap - 1) + [Resync("jobs")], false)]
    ensures 0 in s.views && LOST !in s.views[0]
  {
    s := EventIsLost(c);
    s := After(c, s, Apply(Added, JOBS, OBJ));
    s := After(c, s, Publish("jobs"));
  }

  /** The events about the first pod are read one by one; nothing about the lost one is. */
  lemma EventsDrain(c: Config, n: nat, rest: seq<Delta>, stale: bool, s: State) returns (t: State)
    requires Reaches(c, s) && s.pending == map[] && LOST in s.store
    requires s.subs == map[0 := Subscriber(Repeated(n) + rest, stale)]
    requires 0 in s.views && LOST !in s.views[0]
    ensures Reaches(c, t) && t.pending == map[] && LOST in t.store
    ensures t.subs == map[0 := Subscriber(rest, stale)] && 0 in t.views && LOST !in t.views[0]
    decreases n
  {
    if n == 0 {
      assert Repeated(0) + rest == rest;
      t := s;
    } else {
      var q := s.subs[0].queue;
      assert q[0] == Event(Modified, PODS, OBJ) && q[1..] == Repeated(n - 1) + rest;
      t := After(c, s, Receive(0));
      t := EventsDrain(c, n - 1, rest, stale, t);
    }
  }

  lemma QueueDrains(c: Config, s: State) returns (t: State)
    requires !c.answer.Whole? && c.cap >= 1 && Reaches(c, s) && s.pending == map[] && LOST in s.store
    requires s.subs == map[0 := Subscriber(Repeated(c.cap - 1) + [Resync("jobs")], false)]
    requires 0 in s.views && LOST !in s.views[0]
    ensures Reaches(c, t) && t.pending == map[] && Drained(t, 0) && LOST in t.store && LOST !in t.views[0]
  {
    t := EventsDrain(c, c.cap - 1, [Resync("jobs")], false, s);
    t := After(c, t, Receive(0));
  }

  /** The subscriber read its RESYNC, owes nothing, and still misses the object. */
  lemma AnswerMisses(c: Config) returns (s: State)
    requires !c.answer.Whole? && c.cap >= 1
    ensures Reaches(c, s) && s.pending == map[] && Drained(s, 0) && LOST in s.store && LOST !in s.views[0]
  {
    s := ResyncNamesAnotherKind(c);
    s := QueueDrains(c, s);
  }

  /** A drained subscriber holds the store in every run exactly when a RESYNC makes it read the
      whole snapshot again: not only the kind the RESYNC names, and not nothing. */
  lemma ConvergesExactlyWhen(c: Config)
    requires c.cap >= 1
    ensures Converges(c) <==> c.answer.Whole?
  {
    if c.answer.Whole? {
      forall s, id | Reaches(c, s) && Drained(s, id) && s.pending == map[]
        ensures s.views[id] == s.store
      {
        DrainedHoldsStore(c, s, id);
      }
    } else {
      var s := AnswerMisses(c);
      assert s.views[0] != s.store;
    }
  }

  /** An empty queue and everything published; `owed` says whether a resync is owed. */
  predicate Quiet(s: State, id: nat, owed: bool) {
    id in s.subs && id in s.views && s.subs[id].queue == [] && s.pending == map[] && s.subs[id].stale == owed
  }

  /** The resync owed is queued only when something is published again: until then the subscriber
      has read everything there was to read, and misses the object whose event was dropped. */
  lemma OwedMisses(c: Config) returns (s: State)
    requires c.cap >= 1
    ensures Reaches(c, s) && Quiet(s, 0, true) && LOST in s.store && LOST !in s.views[0]
  {
    s := EventIsLost(c);
    assert Repeated(c.cap - 1) + [] == Repeated(c.cap - 1);
    s := EventsDrain(c, c.cap - 1, [], true, s);
  }

  /** With nothing left to read and nothing left to publish, a subscriber is sure to hold the store
      exactly when it reads everything again on a RESYNC and owes none. */
  lemma QuietHoldsStoreExactlyWhen(c: Config, owed: bool)
    requires c.cap >= 1
    ensures (forall s, id :: Reaches(c, s) && Quiet(s, id, owed) ==> s.views[id] == s.store)
            <==> c.answer.Whole? && !owed
  {
    if c.answer.Whole? && !owed {
      forall s, id | Reaches(c, s) && Quiet(s, id, owed)
        ensures s.views[id] == s.store
      {
        DrainedHoldsStore(c, s, id);
      }
    } else {
      var s: State;
      if owed {
        s := OwedMisses(c);
      } else {
        s := AnswerMisses(c);
      }
      assert Quiet(s, 0, owed) && s.views[0] != s.store;
    }
  }
}
