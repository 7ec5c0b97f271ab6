/**
 The gateway's own code: the one consumer of the bot's update stream forwards each update and has
 the next offset persisted downstream, through crashes and failed writes
 (gateways/telegram/main.go). `world` is the state of GatewayMachine the process is in; `Valid`
 ties the fields to it, and every method moves it by steps of that machine only.
 */
module TelegramGateway {
  import opened Wrappers
  import opened Decimal
  import opened GatewayMachine

  lemma Stays(c: Config, reach: State -> bool, s: State, a: Step, t: State)
    requires Inductive(c, reach) && reach(s) && Inv(s) && Next(c, s, a) == Some(t)
    ensures reach(t) && Inv(t)
  {
    InvStep(c, s, a, t);
  }

  /** What was tried once the first k updates of a batch were, each once, in order, at the adapter
      its surface belongs to. */
  function TriedAfter(before: seq<Attempt>, batch: seq<Update>, k: nat): (tried: seq<Attempt>)
    requires k <= |batch|
    ensures |tried| == |before| + k
  {
    if k == 0 then before
    else TriedAfter(before, batch, k - 1) + [Attempt(batch[k - 1].id, TargetOf(batch[k - 1]))]
  }

  /** The batch is the stretch of what has arrived from lo on. */
  ghost predicate Stretch(batch: seq<Update>, lo: nat, arrived: seq<Update>) {
    lo + |batch| <= |arrived| && forall i :: 0 <= i < |batch| ==> batch[i] == arrived[lo + i]
  }

  /** The stretch of n updates that begins where what lies below k ends. */
  function From(arrived: seq<Update>, k: int, n: nat): (batch: seq<Update>)
    requires Behind(arrived, k) + n <= |arrived|
    ensures |batch| == n && Stretch(batch, Behind(arrived, k), arrived) && (n > 0 ==> batch[0].id >= k)
  {
    arrived[Behind(arrived, k)..Behind(arrived, k) + n]
  }

  class Router {
    const c: Config
    /** Any predicate of states that holds at a first start and that every step keeps. */
    ghost const reach: State -> bool

    // Telegram's side
    var arrived: seq<Update>
    var confirmed: int
    // what the channel adapter keeps
    var stored: string
    // the process
    var offset: int
    // everything there is, what happened so far included
    ghost var world: State

    ghost predicate Valid()
      reads this
    {
      && world.arrived == arrived && world.confirmed == confirmed && world.stored == stored && world.offset == offset
      && Inductive(c, reach) && reach(world) && Inv(world)
    }

    /** Nothing has been stored yet, or nothing that reads as an offset. */
    constructor (c: Config, stored: string, ghost reach: State -> bool)
      requires Inductive(c, reach) && First(Start(stored))
      ensures Valid() && world == Start(stored) && this.c == c && this.reach == reach
    {
      this.c, this.reach, this.stored := c, reach, stored;
      arrived, confirmed, offset := [], 0, -1;
      world := Start(stored);
    }

    // ---- what happens around the process ------------------------------------------

    /** Updates arrive, each with a higher id than any before. */
    method Arrivals()
      requires Valid()
      modifies this`arrived, this`world
      ensures Valid() && old(arrived) <= arrived && world == old(world).(arrived := arrived)
    {
      var n: nat := *;
      while n > 0
        invariant Valid() && old(arrived) <= arrived && world == old(world).(arrived := arrived)
      {
        n := n - 1;
        var id: int := *;
        var topic: bool := *;
        var callback: string := *;
        if Frontier(arrived) <= id < MAX_INT64 {
          var u := Update(id, topic, callback);
          Stays(c, reach, world, Arrive(u), ArriveNext(world, u).value);
          world := ArriveNext(world, u).value;
          arrived := arrived + [u];
        }
      }
    }

    /** A crash and a restart: what the process knew is gone. */
    method Restart()
      requires Valid()
      modifies this`offset, this`world
      ensures Valid() && world == CrashNext(old(world)) && offset == -1
    {
      Stays(c, reach, world, Crash, CrashNext(world));
      world := CrashNext(world);
      offset := -1;
    }

    // ---- the pump -----------------------------------------------------------------

    /** Reads the persisted offset, which may fail. */
    method ResolveOffset() returns (next: int, ok: bool)
      requires Valid()
      ensures ok ==> next == ParseInt(stored)
      ensures !ok ==> next == 0
    {
      ok := *;
      next := if ok then ParseInt(stored) else 0;
    }

    /** Obtains the offset if it is not there yet. */
    method ObtainOffset() returns (ok: bool)
      requires Valid() && world.at == Polling
      modifies this`offset, this`world
      ensures Valid() && world == old(world).(offset := offset)
      ensures ok ==> offset >= 0
      ensures !ok ==> offset == old(offset) < 0
    {
      ok := true;
      if offset < 0 {
        var next, read := ResolveOffset();
        if !read {
          return false;
        }
        Stays(c, reach, world, Resolve, ResolveNext(world).value);
        world := ResolveNext(world).value;
        offset := next;
      }
    }

    /** getUpdates: asking from an offset confirms everything below it, whether or not the
        answer comes back; the answer is a stretch of what is left. */
    method FetchUpdates() returns (batch: seq<Update>, ok: bool, ghost lo: nat)
      requires Valid() && world.at == Polling && offset >= 0
      modifies this`confirmed, this`world
      ensures Valid() && confirmed == Later(old(confirmed), offset)
      ensures world == old(world).(confirmed := confirmed, at := world.at)
      ensures ok ==> Held(batch, 0, lo) && (batch != [] ==> batch[0].id >= confirmed)
      ensures !ok ==> world.at == Polling
    {
      var to := Later(confirmed, offset);
      lo := Behind(arrived, to);
      ok := *;
      var n: int := *;
      if !(0 <= n <= |arrived| - Behind(arrived, to)) {
        n := 0;
      }
      batch := From(arrived, to, n);
      AnswerFrom(lo, n, ok);
    }

    /** Telegram takes the question and answers, or does not, with n updates. */
    method AnswerFrom(ghost lo: nat, ghost n: nat, ghost answered: bool)
      requires Valid() && world.at == Polling && offset >= 0
      requires lo == Behind(arrived, Later(confirmed, offset)) && lo + n <= |arrived|
      modifies this`confirmed, this`world
      ensures Valid() && confirmed == Later(old(confirmed), offset)
      ensures world == old(world).(confirmed := confirmed, at := if answered then Holding(lo, lo + n) else Polling)
    {
      Stays(c, reach, world, Fetch(n, answered), FetchNext(world, n, answered).value);
      world := FetchNext(world, n, answered).value;
      confirmed := Later(confirmed, offset);
    }

    /** The process has forwarded the first k updates of the batch and has the rest to forward. */
    ghost predicate Held(batch: seq<Update>, k: nat, lo: nat)
      reads this
    {
      world.at == Holding(lo + k, lo + |batch|) && k <= |batch| && Stretch(batch, lo, arrived)
    }

    /** Forwards one update to the adapter its surface belongs to; a failure is only logged. */
    method Route(u: Update) returns (ghost arrives: bool)
      requires Valid() && world.at.Holding? && world.at.next < world.at.end <= |arrived| && u == arrived[world.at.next]
      modifies this`world
      ensures Valid() && world.at == Forwarded(old(world).at.next, old(world).at.end)
      ensures world.attempts == old(world).attempts + [Attempt(u.id, if u.isTopicMessage then Channel else Signal)]
      ensures world.lives == old(world).lives && (c.reliable ==> arrives)
      ensures if arrives then world.delivered == old(world).delivered + {u.id} && world.failed == old(world).failed
              else world.failed == old(world).failed + {u.id} && world.delivered == old(world).delivered
    {
      var taken: bool := *;
      arrives := c.reliable || taken;
      Stays(c, reach, world, Forward(arrives), ForwardNext(c, world, arrives).value);
      world := ForwardNext(c, world, arrives).value;
    }

    /** Moves the offset past the update just forwarded. */
    method MovePast(u: Update)
      requires Valid() && world.at.Forwarded? && world.at.next < |arrived| && u == arrived[world.at.next]
      modifies this`offset, this`world
      ensures Valid() && offset == u.id + 1
      ensures world == old(world).(offset := offset, at := Moved(old(world).at.next + 1, old(world).at.end))
    {
      Stays(c, reach, world, GatewayMachine.Advance, AdvanceNext(world).value);
      world := AdvanceNext(world).value;
      offset := u.id + 1;
    }

    /** Has the offset stored; an error does not tell whether it was, and ends the batch. */
    method PutOffset(value: nat) returns (ok: bool)
      requires Valid() && world.at.Moved? && value == offset
      modifies this`stored, this`world
      ensures Valid() && (stored == FormatInt(value) || stored == old(stored))
      ensures ok ==> ParseInt(stored) == value
      ensures world == old(world).(stored := stored,
                                   at := if ok then Holding(old(world).at.next, old(world).at.end) else Polling)
    {
      ok := *;
      var kept: bool := *;
      Stays(c, reach, world, Report(ok, kept), ReportNext(world, ok, kept).value);
      OffsetInRange(world);
      OffsetRoundTrip(value);
      world := ReportNext(world, ok, kept).value;
      if ok || kept {
        stored := FormatInt(value);
      }
    }

    /** So many updates of the batch have been forwarded since `s`, and the offset is the one after. */
    ghost predicate Underway(s: State, batch: seq<Update>, k: nat)
      reads this
    {
      && k <= |batch| && world.attempts == TriedAfter(s.attempts, batch, k) && world.lives == s.lives
      && offset == (if k > 0 then batch[k - 1].id + 1 else s.offset)
    }

    /** Forwards one update of a batch, moves the offset past it and reports that. */
    method DeliverOne(batch: seq<Update>, k: nat, ghost lo: nat, ghost s: State) returns (reported: bool)
      requires Valid() && Underway(s, batch, k) && k < |batch| && Held(batch, k, lo)
      modifies this`offset, this`stored, this`world
      ensures Valid() && Underway(s, batch, k + 1)
      ensures reported ==> Held(batch, k + 1, lo) && ParseInt(stored) == offset
      ensures !reported ==> world.at == Polling
    {
      var _ := Route(batch[k]);
      MovePast(batch[k]);
      reported := PutOffset(offset);
    }

    /** The process dies when it has forwarded an update and not yet moved past it. */
    method ForwardAndDie(batch: seq<Update>, k: nat, ghost lo: nat, ghost s: State)
      requires Valid() && Underway(s, batch, k) && k < |batch| && Held(batch, k, lo)
      modifies this`offset, this`world
      ensures Valid() && world.at == Polling && offset == -1
      ensures world.lives == s.lives + [TriedAfter(s.attempts, batch, k + 1)]
    {
      var _ := Route(batch[k]);
      Restart();
    }

    /** Nothing of the batch is left. */
    method EndBatch()
      requires Valid() && world.at.Holding? && world.at.next >= world.at.end
      modifies this`world
      ensures Valid() && world == old(world).(at := Polling)
    {
      Stays(c, reach, world, Done, DoneNext(world).value);
      world := DoneNext(world).value;
    }

    /** Forwards a batch in order, the offset after each update reported before the next; a
        failed report leaves the rest to the next poll, and so does a crash, which may come after
        any forward. */
    method DeliverUpdates(batch: seq<Update>, ghost lo: nat) returns (ghost n: nat)
      requires Valid() && Held(batch, 0, lo)
      modifies this`offset, this`stored, this`world
      ensures Valid() && world.at == Polling && n <= |batch|
      ensures offset == -1 || Underway(old(world), batch, n)
      ensures offset == -1 ==> world.lives == old(world).lives + [TriedAfter(old(world).attempts, batch, n)]
    {
      n := 0;
      ghost var s := world;
      for k := 0 to |batch|
        invariant n == k && Valid() && Underway(s, batch, k) && Held(batch, k, lo)
      {
        var dies: bool := *;
        n := k + 1;
        if dies {
          ForwardAndDie(batch, k, lo, s);
          return;
        }
        var reported := DeliverOne(batch, k, lo, s);
        if !reported {
          return;
        }
      }
      EndBatch();
    }

    /** One turn of the pump. */
    method PollOnce()
      requires Valid() && world.at == Polling
      modifies this
      ensures Valid() && world.at == Polling && old(arrived) <= arrived
    {
      var obtained := ObtainOffset();
      if !obtained {
        return;
      }
      Arrivals();
      var batch, ok, lo := FetchUpdates();
      if !ok {
        return;
      }
      ghost var _ := DeliverUpdates(batch, lo);
    }

    /** The pump through any number of turns and crashes. Whatever has been confirmed to Telegram,
        stored, or passed in memory was forwarded, and delivered when the adapters take what is
        forwarded to them; each life forwards in order and nothing twice. */
    method Poll(turns: nat)
      requires Valid() && world.at == Polling
      modifies this
      ensures Valid() && world.at == Polling
      ensures forall i :: 0 <= i < |arrived| && Passed(world, arrived[i].id) ==>
                arrived[i].id in world.delivered || arrived[i].id in world.failed
      ensures c.reliable && (forall s :: reach(s) ==> Reaches(c, s)) ==>
                forall i :: 0 <= i < |arrived| && Passed(world, arrived[i].id) ==> arrived[i].id in world.delivered
      ensures InOrder(world.attempts) && forall i :: 0 <= i < |world.lives| ==> InOrder(world.lives[i])
    {
      for i := 0 to turns
        invariant Valid() && world.at == Polling
      {
        var crash: bool := *;
        if crash {
          Restart();
        }
        Arrivals();
        PollOnce();
      }
      PassedHere();
    }

    lemma PassedHere()
      requires Valid()
      ensures forall i :: 0 <= i < |arrived| && Passed(world, arrived[i].id) ==>
                arrived[i].id in world.delivered || arrived[i].id in world.failed
      ensures c.reliable && (forall s :: reach(s) ==> Reaches(c, s)) ==>
                forall i :: 0 <= i < |arrived| && Passed(world, arrived[i].id) ==> arrived[i].id in world.delivered
    {
      forall i | 0 <= i < |arrived| && Passed(world, arrived[i].id)
        ensures arrived[i].id in world.delivered || arrived[i].id in world.failed
        ensures c.reliable && (forall s :: reach(s) ==> Reaches(c, s)) ==> arrived[i].id in world.delivered
      {
        PassedWasTried(world, i);
        if c.reliable && (forall s :: reach(s) ==> Reaches(c, s)) {
          ReliableDelivers(c, world, i);
        }
      }
    }
  }

  lemma OffsetInRange(s: State)
    requires Inv(s) && s.at.Moved?
    ensures 0 <= s.offset <= MAX_INT64
  {
  }
}
