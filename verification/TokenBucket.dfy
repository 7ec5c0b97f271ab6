/**
 Outbound pacing: a token bucket that refills continuously, and the pacer that spends one
 token of a global bucket and one of every chat's (channels/telegram/limiter.go). Times and
 tokens are reals.
 */
module TokenBucket {
  import opened Wrappers

  const NANO := 1000000000.0
  const MILLI := 0.001

  // ---- Rates -------------------------------------------------------------------------

  /** So many grants and so much left are no more than a full bucket and what has flowed in. */
  predicate Covered(grants: int, left: real, capacity: real, rate: real, elapsed: real) {
    left + grants as real <= capacity + rate * elapsed
  }

  /** Grants at these times never outrun the rate: from any one to any later one they are at
      most a full bucket and what flows in meanwhile. */
  ghost predicate Paced(grants: seq<real>, capacity: real, rate: real) {
    forall i, j :: 0 <= i <= j < |grants| ==> Covered(j - i + 1, 0.0, capacity, rate, grants[j] - grants[i])
  }

  /** How many grants fall in a window. */
  function Within(grants: seq<real>, from: real, to: real): nat {
    if grants == [] then 0
    else
      Within(grants[..|grants| - 1], from, to) + if from <= grants[|grants| - 1] <= to then 1 else 0
  }

  lemma {:induction false} Span(grants: seq<real>, from: real, to: real) returns (i: nat, j: nat)
    requires Within(grants, from, to) > 0
    ensures i <= j < |grants| && from <= grants[i] && grants[j] <= to && Within(grants, from, to) <= j - i + 1
  {
    var front, last := grants[..|grants| - 1], |grants| - 1;
    if Within(front, from, to) > 0 {
      i, j := Span(front, from, to);
      if from <= grants[last] <= to {
        j := last;
      }
    } else {
      i, j := last, last;
    }
  }

  lemma Scale(rate: real, x: real, y: real)
    requires rate >= 0.0 && x <= y
    ensures rate * x <= rate * y
  {
  }

  lemma CoveredLess(n: int, m: int, left: real, less: real, capacity: real, rate: real, x: real, y: real)
    requires rate >= 0.0 && Covered(m, left, capacity, rate, x) && n <= m && less <= left && x <= y
    ensures Covered(n, less, capacity, rate, y)
  {
    Scale(rate, x, y);
    assert n as real <= m as real;
  }

  /** In every window of time, at most a full bucket and what flows in during the window. */
  lemma WindowBound(grants: seq<real>, capacity: real, rate: real, from: real, to: real)
    requires Paced(grants, capacity, rate) && capacity >= 0.0 && rate >= 0.0 && from <= to
    ensures Covered(Within(grants, from, to), 0.0, capacity, rate, to - from)
  {
    if Within(grants, from, to) > 0 {
      var i, j := Span(grants, from, to);
      CoveredLess(Within(grants, from, to), j - i + 1, 0.0, 0.0, capacity, rate, grants[j] - grants[i], to - from);
    } else {
      Scale(rate, 0.0, to - from);
    }
  }

  // ---- The clock ---------------------------------------------------------------------

  /** A clock that does not run backwards, on which others run too. */
  class Clock {
    var now: real

    constructor ()
      ensures now == 0.0
    {
      now := 0.0;
    }

    method Read() returns (t: real)
      modifies this
      ensures t == now >= old(now)
    {
      var passed: real := *;
      if passed > 0.0 {
        now := now + passed;
      }
      t := now;
    }

    /** Sleeps at least this long, or says that the context ended first. */
    method Sleep(d: real) returns (ok: bool)
      modifies this
      ensures now >= old(now) && (ok ==> now >= old(now) + d)
    {
      ok := *;
      var over: real := *;
      if ok {
        now := if d > 0.0 then now + d else now;
      }
      if over > 0.0 {
        now := now + over;
      }
    }
  }

  // ---- One bucket --------------------------------------------------------------------

  /** What is in the bucket after an interval. */
  function Refilled(tokens: real, capacity: real, rate: real, elapsed: real): (r: real)
    requires tokens <= capacity && rate >= 0.0
    ensures r <= capacity && (elapsed > 0.0 ==> tokens <= r && r - tokens <= rate * elapsed)
  {
    if elapsed <= 0.0 then tokens
    else
      Scale(rate, 0.0, elapsed);
      if tokens + elapsed * rate > capacity then capacity else tokens + elapsed * rate
  }

  /** How long until a token is there, in whole nanoseconds, and a millisecond. */
  function Pause(tokens: real, rate: real): real
    requires rate > 0.0
  {
    ((1.0 - tokens) / rate * NANO).Floor as real / NANO + MILLI
  }

  /** The grants so far are paced, and what is left in the bucket is not owed twice. */
  ghost predicate Sound(capacity: real, rate: real, tokens: real, last: real, grants: seq<real>) {
    0.0 <= tokens <= capacity && Paced(grants, capacity, rate)
    && forall i :: 0 <= i < |grants| ==>
         grants[i] <= last && Covered(|grants| - i, tokens, capacity, rate, last - grants[i])
  }

  lemma CoveredRefilled(n: int, tokens: real, capacity: real, rate: real, x: real, elapsed: real)
    requires rate >= 0.0 && elapsed >= 0.0 && tokens <= capacity && Covered(n, tokens, capacity, rate, x)
    ensures Covered(n, Refilled(tokens, capacity, rate, elapsed), capacity, rate, x + elapsed)
  {
    assert rate * (x + elapsed) == rate * x + rate * elapsed;
  }

  /** What flows in during an interval is what the bound allows for it. */
  lemma RefillKeeps(capacity: real, rate: real, tokens: real, last: real, now: real, grants: seq<real>)
    requires rate >= 0.0 && last <= now && Sound(capacity, rate, tokens, last, grants)
    ensures Sound(capacity, rate, Refilled(tokens, capacity, rate, now - last), now, grants)
  {
    forall i | 0 <= i < |grants|
      ensures Covered(|grants| - i, Refilled(tokens, capacity, rate, now - last), capacity, rate, now - grants[i])
    {
      CoveredRefilled(|grants| - i, tokens, capacity, rate, last - grants[i], now - last);
      assert last - grants[i] + (now - last) == now - grants[i];
    }
  }

  /** A token granted is a token gone. */
  lemma CoveredGrant(n: int, tokens: real, capacity: real, rate: real, x: real)
    requires Covered(n, tokens, capacity, rate, x)
    ensures Covered(n + 1, tokens - 1.0, capacity, rate, x)
  {
  }

  lemma GrantKeeps(capacity: real, rate: real, tokens: real, now: real, grants: seq<real>)
    requires rate >= 0.0 && tokens >= 1.0 && Sound(capacity, rate, tokens, now, grants)
    ensures Sound(capacity, rate, tokens - 1.0, now, grants + [now])
  {
    var more := grants + [now];
    forall i | 0 <= i < |more|
      ensures more[i] <= now && Covered(|more| - i, tokens - 1.0, capacity, rate, now - more[i])
      ensures Covered(|more| - i, 0.0, capacity, rate, now - more[i])
    {
      if i < |grants| {
        CoveredGrant(|grants| - i, tokens, capacity, rate, now - grants[i]);
      } else {
        assert Covered(1, tokens - 1.0, capacity, rate, 0.0);
      }
      CoveredLess(|more| - i, |more| - i, tokens - 1.0, 0.0, capacity, rate, now - more[i], now - more[i]);
    }
    forall i, j | 0 <= i <= j < |more|
      ensures Covered(j - i + 1, 0.0, capacity, rate, more[j] - more[i])
    {
      if j < |grants| {
        assert more[j] == grants[j] && more[i] == grants[i];
      }
    }
  }

  /** Floor loses less than the millisecond adds. */
  lemma PauseCovers(tokens: real, rate: real)
    requires rate > 0.0 && tokens < 1.0
    ensures Pause(tokens, rate) > 0.0 && rate * Pause(tokens, rate) >= 1.0 - tokens
  {
    var need := (1.0 - tokens) / rate;
    assert rate * need == 1.0 - tokens;
    assert need > 0.0 by {
      if need <= 0.0 {
        Scale(rate, need, 0.0);
      }
    }
    var n := (need * NANO).Floor as real;
    assert need * NANO - 1.0 < n && n >= 0.0;
    assert n / NANO > need - 1.0 / NANO;
    Scale(rate, need, Pause(tokens, rate));
  }

  /** Who found the bucket short and slept the pause finds a token; exactly when the bucket
      can hold one. */
  lemma SleeperSucceedsExactlyWhen(tokens: real, capacity: real, rate: real, slept: real)
    requires rate > 0.0 && tokens <= capacity && tokens < 1.0 && slept >= Pause(tokens, rate)
    ensures Refilled(tokens, capacity, rate, slept) >= 1.0 <==> capacity >= 1.0
  {
    PauseCovers(tokens, rate);
    Scale(rate, Pause(tokens, rate), slept);
  }

  class Bucket {
    const capacity: real
    const perSecond: real
    ghost const owner: string
    var tokens: real
    var last: Option<real>
    ghost var grants: seq<real>

    ghost predicate Valid()
      reads this
    {
      perSecond > 0.0
      && Sound(capacity, perSecond, tokens, last.GetOr(0.0), grants) && (last.None? ==> grants == [])
    }

    constructor (perSecond: real, capacity: nat, ghost owner: string)
      requires perSecond > 0.0
      ensures Valid() && this.owner == owner && this.perSecond == perSecond && this.capacity == capacity as real
      ensures tokens == capacity as real && last == None && grants == []
    {
      this.perSecond := perSecond;
      this.capacity := capacity as real;
      this.owner := owner;
      tokens := capacity as real;
      last := None;
      grants := [];
    }

    method Refill(now: real)
      requires Valid() && (last.Some? ==> last.value <= now)
      modifies this
      ensures Valid() && last == Some(now) && grants == old(grants)
      ensures tokens == Refilled(old(tokens), capacity, perSecond, now - old(last).GetOr(now))
    {
      if last.None? {
        last := Some(now);
      }
      RefillKeeps(capacity, perSecond, tokens, last.value, now, grants);
      ghost var filled := Refilled(tokens, capacity, perSecond, now - last.value);
      var elapsed := now - last.value;
      if elapsed > 0.0 {
        tokens := tokens + elapsed * perSecond;
        if tokens > capacity {
          tokens := capacity;
        }
        last := Some(now);
      }
      assert tokens == filled && last.value == now;
    }

    /** Takes a token at this moment if there is one, else says how long until there is. */
    method Take(now: real) returns (ok: bool, pause: real)
      requires Valid() && (last.Some? ==> last.value <= now)
      modifies this
      ensures Valid() && last == Some(now)
      ensures var filled := Refilled(old(tokens), capacity, perSecond, now - old(last).GetOr(now));
              ok == (filled >= 1.0)
              && tokens == (if ok then filled - 1.0 else filled)
              && grants == (if ok then old(grants) + [now] else old(grants))
              && (!ok ==> pause == Pause(filled, perSecond))
    {
      Refill(now);
      if tokens >= 1.0 {
        GrantKeeps(capacity, perSecond, tokens, now, grants);
        tokens := tokens - 1.0;
        grants := grants + [now];
        return true, 0.0;
      }
      return false, Pause(tokens, perSecond);
    }

    /** Waits for one token, through as many attempts as the context leaves time for. Alone at a
        bucket that can hold a token, nobody sleeps more than once. */
    method Wait(clock: Clock, attempts: nat) returns (ok: bool, ended: bool)
      requires Valid() && (last.Some? ==> last.value <= clock.now)
      modifies this, clock
      ensures Valid() && clock.now >= old(clock.now) && (last.Some? ==> last.value <= clock.now)
      ensures grants == if ok then old(grants) + [last.GetOr(0.0)] else old(grants)
      ensures ok ==> capacity >= 1.0
      ensures capacity >= 1.0 && attempts >= 2 ==> ok || ended
    {
      var left := attempts;
      ghost var slept := false;
      while left > 0
        invariant left <= attempts
        invariant Valid() && clock.now >= old(clock.now) && (last.Some? ==> last.value <= clock.now)
        invariant grants == old(grants)
        invariant slept <==> left < attempts
        invariant slept ==> last.Some? && tokens < 1.0 && clock.now >= last.value + Pause(tokens, perSecond)
        invariant slept && capacity >= 1.0 ==> left == attempts - 1
      {
        left := left - 1;
        var now := clock.Read();
        if slept {
          SleeperSucceedsExactlyWhen(tokens, capacity, perSecond, now - last.value);
        }
        var pause: real;
        ok, pause := Take(now);
        if ok {
          return true, false;
        }
        var whole := clock.Sleep(pause);
        if !whole {
          return false, true;
        }
        slept := true;
      }
      return false, false;
    }
  }

  // ---- The pacer ---------------------------------------------------------------------

  /** The chats named among the first n, an empty name aside, each as often as it is. */
  ghost function Named(ids: seq<string>, n: nat): multiset<string>
    requires n <= |ids|
  {
    if n == 0 then multiset{} else Named(ids, n - 1) + if ids[n - 1] != "" then multiset{ids[n - 1]} else multiset{}
  }

  class Pacer {
    const clock: Clock
    const global: Bucket
    var chats: map<string, Bucket>
    /** The chats charged so far, each as often as it was. */
    ghost var spent: multiset<string>

    ghost predicate Tuned(b: Bucket, perSecond: real, capacity: real)
      reads b, clock
    {
      b.Valid() && (b.last.Some? ==> b.last.value <= clock.now) && b.perSecond == perSecond && b.capacity == capacity
    }

    /** No two chats share a bucket, none shares the global one, and a chat's bucket has
        granted what the chat was charged. */
    ghost predicate Valid()
      reads this, global, chats.Values, clock
    {
      global !in chats.Values && Tuned(global, 30.0, 30.0)
      && (forall id :: id in chats ==> chats[id].owner == id && Tuned(chats[id], 20.0 / 60.0, 20.0) && spent[id] == |chats[id].grants|)
      && forall id :: id !in chats ==> spent[id] == 0
    }

    constructor ()
      ensures Valid() && fresh(global) && fresh(clock) && chats == map[] && global.grants == []
    {
      clock := new Clock();
      global := new Bucket(30.0, 30, "");
      chats := map[];
      spent := multiset{};
    }

    method ForChat(id: string) returns (b: Bucket)
      requires Valid()
      modifies this
      ensures Valid() && spent == old(spent) && id in chats && b == chats[id]
      ensures if id in old(chats) then b == old(chats)[id] && b in old(chats.Values) else fresh(b) && b.grants == []
      ensures chats == old(chats)[id := b]
    {
      if id in chats {
        b := chats[id];
      } else {
        b := new Bucket(20.0 / 60.0, 20, id);
        chats := chats[id := b];
      }
    }

    /** Waits for a token of one chat's bucket. */
    method Spend(id: string, attempts: nat) returns (ok: bool)
      requires Valid() && id in chats
      modifies this`spent, chats[id], clock
      ensures Valid() && spent == old(spent) + if ok then multiset{id} else multiset{}
    {
      var b := chats[id];
      assert b in chats.Values && b.owner == id;
      var ended: bool;
      ok, ended := b.Wait(clock, attempts);
      if ok {
        spent := spent + multiset{id};
      }
    }

    method SpendOne(id: string, attempts: nat) returns (ok: bool)
      requires Valid()
      modifies this, chats.Values, clock
      ensures Valid()
      ensures forall b :: b in chats.Values ==> b in old(chats.Values) || fresh(b)
      ensures spent == old(spent) + if ok then multiset{id} else multiset{}
    {
      var b := ForChat(id);
      ok := Spend(id, attempts);
    }

    /** A token of the chat named, if it is named. */
    method SpendNamed(id: string, attempts: nat) returns (ok: bool)
      requires Valid()
      modifies this, chats.Values, clock
      ensures Valid()
      ensures forall b :: b in chats.Values ==> b in old(chats.Values) || fresh(b)
      ensures spent == old(spent) + if ok && id != "" then multiset{id} else multiset{}
    {
      ok := true;
      if id != "" {
        ok := SpendOne(id, attempts);
      }
    }

    /** Spends a token of each chat named, an empty name aside, until one has none. */
    method SpendEach(chatIDs: seq<string>, attempts: nat) returns (ok: bool, ghost n: nat)
      requires Valid()
      modifies this, chats.Values, clock
      ensures Valid() && global.grants == old(global.grants)
      ensures n <= |chatIDs| && (ok ==> n == |chatIDs|)
      ensures spent == old(spent) + Named(chatIDs, n)
    {
      n := 0;
      ghost var before := spent;
      for i := 0 to |chatIDs|
        invariant Valid() && n == i
        invariant forall b :: b in chats.Values ==> b in old(chats.Values) || fresh(b)
        invariant spent == before + Named(chatIDs, i)
      {
        ok := SpendNamed(chatIDs[i], attempts);
        if !ok {
          return;
        }
        n := i + 1;
      }
      ok := true;
    }

    /** Spends one token of the global bucket and one of each chat named, an empty name aside.
        Without a token the pacer stops there: nothing is given back. */
    method Wait(chatIDs: seq<string>, attempts: nat) returns (ok: bool, ghost n: nat)
      requires Valid()
      modifies this, global, chats.Values, clock
      ensures Valid()
      ensures n <= |chatIDs| && spent == old(spent) + Named(chatIDs, n)
      ensures ok ==> n == |chatIDs| && |global.grants| == |old(global.grants)| + 1
      ensures n > 0 ==> |global.grants| == |old(global.grants)| + 1
    {
      var ended: bool;
      n := 0;
      ok, ended := global.Wait(clock, attempts);
      if ok {
        ok, n := SpendEach(chatIDs, attempts);
      }
    }

    /** Neither the bot nor any chat is ever sent more, in any window, than its burst and what
        its rate lets flow in. */
    lemma Bounds(id: string, from: real, to: real)
      requires Valid() && from <= to
      ensures Covered(Within(global.grants, from, to), 0.0, 30.0, 30.0, to - from)
      ensures id in chats ==> Covered(Within(chats[id].grants, from, to), 0.0, 20.0, 20.0 / 60.0, to - from)
    {
      WindowBound(global.grants, 30.0, 30.0, from, to);
      if id in chats {
        WindowBound(chats[id].grants, 20.0, 20.0 / 60.0, from, to);
      }
    }
  }
}
