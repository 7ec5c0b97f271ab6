/**
 The console's watch cache and its subscribers as a state machine. A change of the store and its
 publication are two steps, as they are in the code, with anything in between; each subscriber
 has a bounded queue and a debt of one resync.
 */
module CacheMachine {
  import opened Wrappers

  type Kind = string
  type Name = string

  datatype Key = Key(kind: Kind, name: Name)

  datatype Object = Object(version: nat, content: string)

  type Store = map<Key, Object>

  datatype EventType = Added | Modified | Deleted

  datatype Delta =
    | Event(event: EventType, key: Key, obj: Object)
    | Resync(about: Kind)

  function KindOf(d: Delta): Kind {
    if d.Event? then d.key.kind else d.about
  }

  /** What an event does to a store, the cache's or a subscriber's. */
  function Applied(s: Store, d: Delta): Store {
    if d.Resync? then s
    else if d.event.Deleted? then s - {d.key}
    else s[d.key := d.obj]
  }

  /** A store whose whole kind is what a list returned. */
  function Replaced(s: Store, kind: Kind, objs: map<Name, Object>): Store {
    map key | key in s.Keys + (set n | n in objs :: Key(kind, n)) && (key.kind == kind ==> key.name in objs)
      :: if key.kind == kind then objs[key.name] else s[key]
  }

  /** One kind of a store taken from another. */
  function Refreshed(view: Store, kind: Kind, s: Store): Store {
    map key | key in view.Keys + s.Keys && (if key.kind == kind then key in s else key in view)
      :: if key.kind == kind then s[key] else view[key]
  }

  datatype Subscriber = Subscriber(queue: seq<Delta>, stale: bool)

  /** Offer a delta to one subscriber without ever waiting for it. */
  function Offer(cap: nat, s: Subscriber, d: Delta): Subscriber {
    if s.stale then
      if |s.queue| < cap then Subscriber(s.queue + [Resync(KindOf(d))], false) else s
    else if |s.queue| < cap then s.(queue := s.queue + [d])
    else s.(stale := true)
  }

  function Offered(cap: nat, subs: map<nat, Subscriber>, d: Delta): map<nat, Subscriber> {
    map id | id in subs :: Offer(cap, subs[id], d)
  }

  /** What a subscriber does about a RESYNC it receives: read the whole snapshot again, read the
      kind it names again, or leave what it holds as it is. */
  datatype Answer = Whole | Named | Ignored

  /** `cap`: the length of a subscriber's queue. */
  datatype Config = Config(cap: nat, answer: Answer)

  /** `pending`: changes made but not yet published, at most one per kind, since one loop serves a
      kind. `views`: what each subscriber holds once it has read its first snapshot. */
  datatype State = State(store: Store, pending: map<Kind, Delta>, subs: map<nat, Subscriber>,
                         views: map<nat, Store>, nextId: nat)

  const EMPTY := State(map[], map[], map[], map[], 0)

  datatype Step =
    | Apply(event: EventType, key: Key, obj: Object)
    | Replace(kind: Kind, objs: map<Name, Object>)
    | Publish(kind: Kind)
    | Subscribe
    | Cancel(id: nat)
    | ReadSnapshot(id: nat)
    | Receive(id: nat)

  function Received(c: Config, s: Store, view: Store, d: Delta): Store {
    if d.Event? then Applied(view, d)
    else
      match c.answer
      case Whole => s
      case Named => Refreshed(view, d.about, s)
      case Ignored => view
  }

  function Next(c: Config, s: State, a: Step): Option<State> {
    match a
    case Apply(event, key, obj) =>
      var d := Event(event, key, obj);
      if key.kind in s.pending then None
      else Some(s.(store := Applied(s.store, d), pending := s.pending[key.kind := d]))
    case Replace(kind, objs) =>
      if kind in s.pending then None
      else Some(s.(store := Replaced(s.store, kind, objs), pending := s.pending[kind := Resync(kind)]))
    case Publish(kind) =>
      if kind !in s.pending then None
      else Some(s.(subs := Offered(c.cap, s.subs, s.pending[kind]), pending := s.pending - {kind}))
    case Subscribe =>
      Some(s.(subs := s.subs[s.nextId := Subscriber([], false)], nextId := s.nextId + 1))
    case Cancel(id) =>
      if id !in s.subs then None else Some(s.(subs := s.subs - {id}, views := s.views - {id}))
    case ReadSnapshot(id) =>
      if id !in s.subs then None else Some(s.(views := s.views[id := s.store]))
    case Receive(id) =>
      if id !in s.subs || id !in s.views || s.subs[id].queue == [] then None
      else
        var sub := s.subs[id];
        Some(s.(subs := s.subs[id := sub.(queue := sub.queue[1..])],
                views := s.views[id := Received(c, s.store, s.views[id], sub.queue[0])]))
  }

  ghost function Run(c: Config, s: State, run: seq<Step>): Option<State>
    decreases |run|
  {
    if run == [] then Some(s)
    else
      var t := Run(c, s, run[..|run| - 1]);
      if t.None? then None else Next(c, t.value, run[|run| - 1])
  }

  ghost predicate Reaches(c: Config, s: State) {
    exists run :: Run(c, EMPTY, run) == Some(s)
  }
}
