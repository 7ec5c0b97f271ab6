/**
 The console's watch cache: one list-then-watch loop per kind keeps the store equal to the
 server's state at the version the loop remembers, and every change of the store is a pair of
 CacheMachine's steps, so what is proved there of subscribers holds of this code.
 */
module WatchCache {
  import opened Wrappers
  import opened CacheMachine
  import opened CacheTheorems

  // ---- the API server -------------------------------------------------------------

  /** One change the server recorded of a kind. */
  datatype Entry = Entry(version: nat, event: EventType, name: Name, obj: Object)

  /** Versions grow along a log. */
  ghost predicate Log(log: seq<Entry>) {
    forall i, j :: 0 <= i < j < |log| ==> log[i].version < log[j].version
  }

  function After(m: map<Name, Object>, e: Entry): map<Name, Object> {
    if e.event.Deleted? then m - {e.name} else m[e.name := e.obj]
  }

  /** The kind as it is at a version: every change up to it, in order. */
  function StateAt(log: seq<Entry>, v: nat): map<Name, Object> {
    if log == [] then map[]
    else
      var front, e := log[..|log| - 1], log[|log| - 1];
      if e.version <= v then After(StateAt(front, v), e) else StateAt(front, v)
  }

  /** What a watch callback is called with. */
  datatype Frame = Changed(entry: Entry) | Bookmark(version: nat)

  function VersionOf(f: Frame): nat {
    if f.Changed? then f.entry.version else f.version
  }

  ghost predicate NothingBetween(log: seq<Entry>, v: nat, w: nat) {
    forall e :: e in log ==> !(v < e.version <= w)
  }

  /** A frame the server may send to a watcher that has seen everything up to v: the next change,
      or a bookmark that skips none. */
  ghost predicate FrameOk(log: seq<Entry>, v: nat, f: Frame) {
    match f
    case Changed(e) => e in log && v < e.version && NothingBetween(log, v, e.version - 1)
    case Bookmark(w) => v <= w && NothingBetween(log, v, w)
  }

  /** The version a watcher from v has seen after these frames. */
  function Seen(v: nat, frames: seq<Frame>): nat {
    if frames == [] then v else VersionOf(frames[|frames| - 1])
  }

  ghost predicate Stream(log: seq<Entry>, v: nat, frames: seq<Frame>) {
    forall i :: 0 <= i < |frames| ==> FrameOk(log, Seen(v, frames[..i]), frames[i])
  }

  lemma StateUnchanged(log: seq<Entry>, v: nat, w: nat)
    requires v <= w && NothingBetween(log, v, w)
    ensures StateAt(log, v) == StateAt(log, w)
  {
    if log != [] {
      var front := log[..|log| - 1];
      assert log[|log| - 1] in log;
      forall e | e in front
        ensures !(v < e.version <= w)
      {
        assert e in log;
      }
      StateUnchanged(front, v, w);
    }
  }

  /** The state at the version of the next change is the state before it with that change. */
  lemma StateAfterNext(log: seq<Entry>, v: nat, e: Entry)
    requires Log(log) && FrameOk(log, v, Changed(e))
    ensures StateAt(log, e.version) == After(StateAt(log, v), e)
  {
    var front, last := log[..|log| - 1], log[|log| - 1];
    assert last in log;
    if last == e {
      forall x | x in front
        ensures !(v < x.version <= e.version)
      {
        assert x in log;
        var i :| 0 <= i < |front| && front[i] == x;
        assert log[i] == x;
      }
      StateUnchanged(front, v, e.version);
    } else {
      var i :| 0 <= i < |log| && log[i] == e;
      assert front[i] == e;
      forall x | x in front
        ensures !(v < x.version <= e.version - 1)
      {
        assert x in log;
      }
      StateAfterNext(front, v, e);
    }
  }

  // ---- the cache ------------------------------------------------------------------

  /** How a watch ends: the server closed a healthy stream, the resume point is too old, or
      anything else. */
  datatype End = Closed | Expired | Broken

  /** What one turn of the loop is answered. */
  datatype ListAnswer = ListFailed | Listed(objs: seq<(Name, Object)>, version: nat)

  const QUEUE_CAP: nat := 256
  /** The one subscriber of this cache passes a RESYNC on to the browser, which leaves the objects
      it holds as they are. */
  const CONFIG := Config(QUEUE_CAP, Ignored)

  /** The console's browser: an event is dropped while its queue is full, the RESYNC that follows is
      passed on and changes nothing it holds, and it misses the object with nothing left to read. */
  lemma ConsoleMissesObject() returns (s: State)
    ensures Reaches(CONFIG, s) && s.pending == map[] && Drained(s, 0) && LOST in s.store && LOST !in s.views[0]
  {
    s := AnswerMisses(CONFIG);
  }

  /** The objects of a list by name; the last of a name wins. */
  function ByName(objs: seq<(Name, Object)>): map<Name, Object> {
    if objs == [] then map[] else ByName(objs[..|objs| - 1])[objs[|objs| - 1].0 := objs[|objs| - 1].1]
  }

  /** One kind of the store is this map. */
  ghost predicate Mirrors(s: Store, kind: Kind, m: map<Name, Object>) {
    forall n :: Get(s, Key(kind, n)) == (if n in m then Some(m[n]) else None)
  }

  /** Every other kind is as it was. */
  ghost predicate OthersSame(before: Store, after: Store, kind: Kind) {
    forall key: Key :: key.kind != kind ==> Get(after, key) == Get(before, key)
  }

  function NextBackoff(d: nat): (r: nat)
    ensures 1 <= d <= 30 ==> d <= r <= 30
  {
    if 2 * d > 30 then 30 else 2 * d
  }

  /** The Kubernetes API for one kind: a log of changes, listed and watched at any of its versions. */
  class ApiServer {
    const log: seq<Entry>

    constructor (log: seq<Entry>)
      requires Log(log)
      ensures this.log == log
    {
      this.log := log;
    }

    /** A list is the state at some version, or an error. */
    method List() returns (a: ListAnswer)
      ensures a.Listed? ==> ByName(a.objs) == StateAt(log, a.version)
    {
      var fails: bool := *;
      if fails {
        return ListFailed;
      }
      var v: nat := *;
      var left := StateAt(log, v);
      var objs: seq<(Name, Object)> := [];
      ghost var whole := left;
      while left != map[]
        invariant left.Keys <= whole.Keys && forall n :: n in left ==> left[n] == whole[n]
        invariant ByName(objs) == whole - left.Keys
        decreases left.Keys
      {
        var n :| n in left;
        objs := objs + [(n, left[n])];
        assert objs[..|objs| - 1] + [(n, left[n])] == objs;
        left := left - {n};
      }
      return Listed(objs, v);
    }

    /** A watch from v delivers changes in order, with bookmarks between them, and ends anyhow. */
    method Watch(v: nat) returns (frames: seq<Frame>, end: End)
      requires Log(log)
      ensures Stream(log, v, frames)
    {
      frames, end := [], *;
      var n: nat := *;
      var i := 0;
      var at := v;
      while n > 0
        invariant 0 <= i <= |log| && Stream(log, v, frames) && at == Seen(v, frames)
        invariant forall k :: 0 <= k < i ==> log[k].version <= at
        decreases n
      {
        n := n - 1;
        var bookmark: nat := *;
        if i < |log| && log[i].version <= at {
          i := i + 1;
        } else if at <= bookmark && (i < |log| ==> bookmark < log[i].version) {
          StreamGrows(log, v, frames, Bookmark(bookmark), i);
          frames, at := frames + [Bookmark(bookmark)], bookmark;
        } else if i < |log| {
          StreamGrows(log, v, frames, Changed(log[i]), i);
          frames, at := frames + [Changed(log[i])], log[i].version;
        }
      }
    }
  }

  lemma StreamGrows(log: seq<Entry>, v: nat, frames: seq<Frame>, f: Frame, i: nat)
    requires Log(log) && Stream(log, v, frames) && i <= |log|
    requires forall k :: 0 <= k < i ==> log[k].version <= Seen(v, frames)
    requires i < |log| ==> Seen(v, frames) < log[i].version
    requires if f.Changed? then i < |log| && f.entry == log[i]
             else Seen(v, frames) <= f.version && (i < |log| ==> f.version < log[i].version)
    ensures Stream(log, v, frames + [f])
  {
    var after := frames + [f];
    forall k | 0 <= k < |after|
      ensures FrameOk(log, Seen(v, after[..k]), after[k])
    {
      if k < |frames| {
        assert after[..k] == frames[..k];
      } else {
        assert after[..k] == frames;
      }
    }
  }

  class Cache {
    var store: Store
    var synced: set<Kind>
    var subs: map<nat, Subscriber>
    var nextId: nat
    /** What each subscriber holds; the cache never reads it. */
    ghost var views: map<nat, Store>

    /** The machine's state between two changes of the store. */
    ghost function Now(): State
      reads this
    {
      State(store, map[], subs, views, nextId)
    }

    constructor ()
      ensures Now() == EMPTY && synced == {}
    {
      store, synced, subs, nextId, views := map[], {}, map[], 0, map[];
    }

    /** Queue a delta for every subscriber, waiting for none. */
    method Publish(d: Delta)
      modifies this`subs
      ensures subs == Offered(QUEUE_CAP, old(subs), d)
    {
      var left := subs.Keys;
      while left != {}
        invariant left <= old(subs).Keys && subs.Keys == old(subs).Keys
        invariant forall id :: id in subs ==>
                    subs[id] == if id in left then old(subs)[id] else Offer(QUEUE_CAP, old(subs)[id], d)
        decreases left
      {
        var id :| id in left;
        var s := subs[id];
        if s.stale {
          if |s.queue| < QUEUE_CAP {
            s := Subscriber(s.queue + [Resync(KindOf(d))], false);
          }
        } else if |s.queue| < QUEUE_CAP {
          s := Subscriber(s.queue + [d], false);
        } else {
          s := Subscriber(s.queue, true);
        }
        subs := subs[id := s];
        left := left - {id};
      }
    }

    /** Swap a kind's whole store after a list and tell subscribers to resync. */
    method Replace(kind: Kind, objs: seq<(Name, Object)>)
      modifies this
      ensures Next(CONFIG, old(Now()), CacheMachine.Replace(kind, ByName(objs))).Some?
      ensures Next(CONFIG, Next(CONFIG, old(Now()), CacheMachine.Replace(kind, ByName(objs))).value, CacheMachine.Publish(kind))
              == Some(Now())
      ensures Mirrors(store, kind, ByName(objs)) && synced == old(synced) + {kind}
      ensures OthersSame(old(store), store, kind)
    {
      var next: map<Name, Object> := map[];
      for i := 0 to |objs|
        invariant next == ByName(objs[..i])
      {
        assert objs[..i + 1][..i] == objs[..i];
        next := next[objs[i].0 := objs[i].1];
      }
      assert objs[..|objs|] == objs;
      store, synced := Replaced(store, kind, next), synced + {kind};
      Publish(Resync(kind));
      NoMore(kind, Resync(kind));
    }

    /** Apply one watch event and publish it. */
    method Apply(event: EventType, key: Key, obj: Object)
      modifies this`store, this`subs
      ensures Next(CONFIG, old(Now()), CacheMachine.Apply(event, key, obj)).Some?
      ensures Next(CONFIG, Next(CONFIG, old(Now()), CacheMachine.Apply(event, key, obj)).value, CacheMachine.Publish(key.kind))
              == Some(Now())
      ensures store == Applied(old(store), Event(event, key, obj))
    {
      if event.Deleted? {
        store := store - {key};
      } else {
        store := store[key := obj];
      }
      Publish(Event(event, key, obj));
      NoMore(key.kind, Event(event, key, obj));
    }

    method Subscribe() returns (id: nat)
      modifies this`subs, this`nextId
      ensures Next(CONFIG, old(Now()), CacheMachine.Subscribe) == Some(Now()) && id == old(nextId)
    {
      id := nextId;
      nextId := nextId + 1;
      subs := subs[id := Subscriber([], false)];
    }

    method Cancel(id: nat)
      modifies this`subs, this`views
      ensures if id in old(subs) then Next(CONFIG, old(Now()), CacheMachine.Cancel(id)) == Some(Now())
              else Now() == old(Now())
    {
      if id in subs {
        subs, views := subs - {id}, views - {id};
      }
    }

    /** The watch callback: whatever the frame, the kind is afterwards what the server had at the
        version the loop then remembers. */
    method OnFrame(kind: Kind, f: Frame, ghost log: seq<Entry>, v: nat) returns (w: nat)
      requires Log(log) && FrameOk(log, v, f) && Mirrors(store, kind, StateAt(log, v))
      modifies this`store, this`subs
      ensures w == VersionOf(f) && Mirrors(store, kind, StateAt(log, w))
      ensures OthersSame(old(store), store, kind)
    {
      w := VersionOf(f);
      match f
      case Bookmark(_) =>
        StateUnchanged(log, v, w);
      case Changed(e) =>
        StateAfterNext(log, v, e);
        Apply(e.event, Key(kind, e.name), e.obj);
    }

    method OnFrames(kind: Kind, frames: seq<Frame>, ghost log: seq<Entry>, v: nat) returns (w: nat)
      requires Log(log) && Stream(log, v, frames) && Mirrors(store, kind, StateAt(log, v))
      modifies this`store, this`subs
      ensures w == Seen(v, frames) && Mirrors(store, kind, StateAt(log, w))
      ensures OthersSame(old(store), store, kind)
    {
      w := v;
      for i := 0 to |frames|
        invariant w == Seen(v, frames[..i]) && Mirrors(store, kind, StateAt(log, w))
        invariant OthersSame(old(store), store, kind)
      {
        w := OnFrame(kind, frames[i], log, w);
        assert frames[..i + 1][|frames[..i + 1]| - 1] == frames[i];
      }
      assert frames[..|frames|] == frames;
    }

    /** List, then watch from there; resume after a healthy close, list again after anything else.
        The kind equals the server's state at the last version seen, whenever one was. */
    method RunKind(kind: Kind, src: ApiServer, turns: nat) returns (remembered: Option<nat>, backoff: nat)
      requires Log(src.log)
      modifies this
      ensures remembered.Some? ==> Mirrors(store, kind, StateAt(src.log, remembered.value)) && kind in synced
      ensures remembered.None? ==> store == old(store)
      ensures OthersSame(old(store), store, kind)
      ensures 1 <= backoff <= 30
    {
      backoff := 1;
      remembered := None;
      var resume: Option<nat> := None;
      for i := 0 to turns
        invariant remembered.Some? ==> Mirrors(store, kind, StateAt(src.log, remembered.value)) && kind in synced
        invariant remembered.None? ==> store == old(store)
        invariant resume.Some? ==> resume == remembered
        invariant OthersSame(old(store), store, kind)
        invariant 1 <= backoff <= 30
      {
        if resume.None? {
          var a := src.List();
          if a.ListFailed? {
            backoff := NextBackoff(backoff);
            continue;
          }
          Replace(kind, a.objs);
          resume, backoff := Some(a.version), 1;
        }
        var frames, end := src.Watch(resume.value);
        var w := OnFrames(kind, frames, src.log, resume.value);
        remembered, resume := Some(w), Some(w);
        match end
        case Closed =>
        case Expired => resume := None;
        case Broken =>
          backoff := NextBackoff(backoff);
          resume := None;
      }
    }
  }

  /** The only change pending is the one just made. */
  lemma NoMore(kind: Kind, d: Delta)
    ensures (map[][kind := d] - {kind}) == map[]
  {
  }
}
