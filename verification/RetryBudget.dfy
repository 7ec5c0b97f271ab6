/**
 One operation's calls to the Bot API: every call of it retries against the same deadline
 (channels/telegram/telegram.go). Times are seconds.
 */
module RetryBudget {
  import opened Wrappers

  const DEFAULT_BUDGET := 60.0
  const BACKOFF := 2

  /** How long an operation may spend waiting: half its claim. */
  function Budget(reclaimAfterSeconds: int): (b: real)
    ensures b > 0.0 && (reclaimAfterSeconds > 0 ==> b + b == reclaimAfterSeconds as real)
  {
    if reclaimAfterSeconds <= 0 then DEFAULT_BUDGET else reclaimAfterSeconds as real / 2.0
  }

  /** What one request comes back with. */
  datatype Answer =
    | NetError
    | NotJson(status: int)
    | Reply(ok: bool, errorCode: int, retryAfter: int, unsupportedQuote: bool)

  datatype Outcome = Done | Refused(unsupportedQuote: bool) | Unbuilt | OverBudget | Ended

  /** What a message is sent with: its text, and the topic it goes to. */
  datatype Body = Body(text: string, thread: Option<int>)

  // ---- What an operation does, as it does it ------------------------------------------

  /** A call begins; a request took so long; a whole wait was slept. */
  datatype Event = CallStarts | Request(took: real) | Waits(seconds: nat)

  function Took(e: Event): real {
    match e
    case CallStarts => 0.0
    case Request(took) => took
    case Waits(seconds) => seconds as real
  }

  function Elapsed(trace: seq<Event>): real {
    if trace == [] then 0.0 else Elapsed(trace[..|trace| - 1]) + Took(trace[|trace| - 1])
  }

  function Calls(trace: seq<Event>): nat {
    if trace == [] then 0 else Calls(trace[..|trace| - 1]) + if trace[|trace| - 1].CallStarts? then 1 else 0
  }

  function Requests(trace: seq<Event>): nat {
    if trace == [] then 0 else Requests(trace[..|trace| - 1]) + if trace[|trace| - 1].Request? then 1 else 0
  }

  /** The seconds slept. */
  function Waited(trace: seq<Event>): nat {
    if trace == [] then 0
    else Waited(trace[..|trace| - 1]) + if trace[|trace| - 1].Waits? then trace[|trace| - 1].seconds else 0
  }

  /** The call at work has still to send its next request. */
  predicate Due(trace: seq<Event>) {
    trace != [] && !trace[|trace| - 1].Request?
  }

  /** A request takes its round trip at most, and there is one to a turn of the loop; a wait is of
      whole seconds, follows a request, and ends within the budget. */
  predicate Allowed(budget: real, roundTrip: real, trace: seq<Event>, e: Event) {
    match e
    case CallStarts => true
    case Request(took) => 0.0 <= took <= roundTrip && Due(trace)
    case Waits(seconds) =>
      seconds >= 1 && trace != [] && trace[|trace| - 1].Request? && Elapsed(trace) + seconds as real <= budget
  }

  predicate Legal(budget: real, roundTrip: real, trace: seq<Event>) {
    trace == []
    || (Legal(budget, roundTrip, trace[..|trace| - 1])
        && Allowed(budget, roundTrip, trace[..|trace| - 1], trace[|trace| - 1]))
  }

  lemma Appended(budget: real, roundTrip: real, trace: seq<Event>, e: Event)
    ensures Elapsed(trace + [e]) == Elapsed(trace) + Took(e)
    ensures Calls(trace + [e]) == Calls(trace) + if e.CallStarts? then 1 else 0
    ensures Requests(trace + [e]) == Requests(trace) + if e.Request? then 1 else 0
    ensures Waited(trace + [e]) == Waited(trace) + if e.Waits? then e.seconds else 0
    ensures Legal(budget, roundTrip, trace + [e]) <==> Legal(budget, roundTrip, trace) && Allowed(budget, roundTrip, trace, e)
    ensures Due(trace + [e]) <==> !e.Request?
  {
    assert (trace + [e])[..|trace + [e]| - 1] == trace;
  }

  // ---- How long that can take ---------------------------------------------------------

  /** So many round trips. */
  function Trips(n: nat, roundTrip: real): (t: real)
    ensures roundTrip >= 0.0 ==> t >= 0.0
  {
    if n == 0 then 0.0 else Trips(n - 1, roundTrip) + roundTrip
  }

  lemma {:induction false} TripsIsProduct(n: nat, roundTrip: real)
    ensures Trips(n, roundTrip) == n as real * roundTrip
  {
    if n > 0 {
      TripsIsProduct(n - 1, roundTrip);
      assert n as real * roundTrip == (n - 1) as real * roundTrip + roundTrip;
    }
  }

  lemma {:induction false} TripsGrow(n: nat, m: nat, roundTrip: real)
    requires n <= m && roundTrip >= 0.0
    ensures Trips(n, roundTrip) <= Trips(m, roundTrip)
  {
    if n < m {
      TripsGrow(n, m - 1, roundTrip);
    }
  }

  /** The calls that have sent their last request so far. */
  function Spent(trace: seq<Event>): nat {
    if Due(trace) && Calls(trace) > 0 then Calls(trace) - 1 else Calls(trace)
  }

  lemma {:induction false} DueHasCall(budget: real, roundTrip: real, trace: seq<Event>)
    requires Legal(budget, roundTrip, trace) && trace != []
    ensures Calls(trace) > 0
  {
    if |trace| > 1 {
      DueHasCall(budget, roundTrip, trace[..|trace| - 1]);
    }
  }

  /** Waits end within the budget, and a call sends one request that no wait follows. */
  lemma {:induction false} WithinBudget(budget: real, roundTrip: real, trace: seq<Event>)
    requires budget >= 0.0 && roundTrip >= 0.0 && Legal(budget, roundTrip, trace)
    ensures Elapsed(trace) <= budget + Trips(Spent(trace), roundTrip)
    ensures Elapsed(trace) >= Waited(trace) as real && Waited(trace) as real <= budget
  {
    if trace != [] {
      var front := trace[..|trace| - 1];
      WithinBudget(budget, roundTrip, front);
      if front != [] {
        DueHasCall(budget, roundTrip, front);
      }
    }
  }

  lemma {:induction false} FewRequests(budget: real, roundTrip: real, trace: seq<Event>)
    requires roundTrip >= 0.0 && Legal(budget, roundTrip, trace)
    ensures Requests(trace) <= Waited(trace) + Spent(trace)
    ensures Elapsed(trace) <= Waited(trace) as real + Trips(Requests(trace), roundTrip)
  {
    if trace != [] {
      var front := trace[..|trace| - 1];
      FewRequests(budget, roundTrip, front);
      if front != [] {
        DueHasCall(budget, roundTrip, front);
      }
    }
  }

  function Least(a: real, b: real): real {
    if a < b then a else b
  }

  /** The whole seconds of the budget. */
  function Seconds(budget: real): nat
    requires budget >= 0.0
  {
    budget.Floor
  }

  /** When the last wait can end at the latest: at the deadline, or, as waits are of whole seconds,
      after as many of them as fit, each behind a request. */
  function LastWait(budget: real, roundTrip: real): real
    requires budget >= 0.0
  {
    Least(budget, Seconds(budget) as real + Trips(Seconds(budget), roundTrip))
  }

  lemma {:induction false} TripsAdd(n: nat, m: nat, roundTrip: real)
    ensures Trips(n + m, roundTrip) == Trips(n, roundTrip) + Trips(m, roundTrip)
  {
    if m > 0 {
      TripsAdd(n, m - 1, roundTrip);
    }
  }

  /** No operation takes longer than this. */
  lemma TakesAtMost(budget: real, roundTrip: real, trace: seq<Event>)
    requires budget >= 0.0 && roundTrip >= 0.0 && Legal(budget, roundTrip, trace)
    ensures Elapsed(trace) <= LastWait(budget, roundTrip) + Trips(Calls(trace), roundTrip)
  {
    WithinBudget(budget, roundTrip, trace);
    FewRequests(budget, roundTrip, trace);
    var k := Seconds(budget);
    assert Waited(trace) <= k;
    TripsGrow(Spent(trace), Calls(trace), roundTrip);
    TripsGrow(Requests(trace), k + Calls(trace), roundTrip);
    TripsAdd(k, Calls(trace), roundTrip);
  }

  // ---- And does -----------------------------------------------------------------------

  /** n turns of the loop, each a request and a wait of one second. */
  function Turns(n: nat, took: real): seq<Event> {
    if n == 0 then [CallStarts] else Turns(n - 1, took) + [Request(took)] + [Waits(1)]
  }

  lemma {:induction false} TurnsAreLegal(budget: real, roundTrip: real, n: nat, took: real)
    requires 0.0 <= took <= roundTrip && n as real + Trips(n, took) <= budget
    ensures Legal(budget, roundTrip, Turns(n, took)) && Due(Turns(n, took))
    ensures Elapsed(Turns(n, took)) == n as real + Trips(n, took) && Calls(Turns(n, took)) == 1
  {
    if n == 0 {
      Appended(budget, roundTrip, [], CallStarts);
      assert [] + [CallStarts] == [CallStarts];
    } else {
      TurnsAreLegal(budget, roundTrip, n - 1, took);
      Appended(budget, roundTrip, Turns(n - 1, took), Request(took));
      Appended(budget, roundTrip, Turns(n - 1, took) + [Request(took)], Waits(1));
    }
  }

  /** Then the last request of that call, and n more calls of one request each. */
  function Overrun(turns: seq<Event>, n: nat, roundTrip: real): seq<Event> {
    if n == 0 then turns + [Request(roundTrip)]
    else Overrun(turns, n - 1, roundTrip) + [CallStarts] + [Request(roundTrip)]
  }

  lemma {:induction false} OverrunIsLegal(budget: real, roundTrip: real, turns: seq<Event>, n: nat)
    requires roundTrip >= 0.0 && Legal(budget, roundTrip, turns) && Due(turns)
    ensures Legal(budget, roundTrip, Overrun(turns, n, roundTrip))
    ensures Elapsed(Overrun(turns, n, roundTrip)) == Elapsed(turns) + Trips(n + 1, roundTrip)
    ensures Calls(Overrun(turns, n, roundTrip)) == Calls(turns) + n
  {
    if n == 0 {
      Appended(budget, roundTrip, turns, Request(roundTrip));
      assert Trips(1, roundTrip) == Trips(0, roundTrip) + roundTrip;
    } else {
      OverrunIsLegal(budget, roundTrip, turns, n - 1);
      Appended(budget, roundTrip, Overrun(turns, n - 1, roundTrip), CallStarts);
      Appended(budget, roundTrip, Overrun(turns, n - 1, roundTrip) + [CallStarts], Request(roundTrip));
    }
  }

  /** How long each request before a wait takes, for the last wait to end as late as it can. */
  lemma Share(budget: real, roundTrip: real) returns (took: real)
    requires budget >= 0.0 && roundTrip >= 0.0
    ensures 0.0 <= took <= roundTrip
    ensures Seconds(budget) as real + Trips(Seconds(budget), took) == LastWait(budget, roundTrip)
  {
    var k := Seconds(budget);
    TripsIsProduct(k, roundTrip);
    if k as real + Trips(k, roundTrip) <= budget {
      took := roundTrip;
    } else {
      took := (budget - k as real) / k as real;
      TripsIsProduct(k, took);
      ShareIsLess(k as real, budget - k as real, roundTrip);
    }
  }

  lemma ScaleKeepsOrder(k: real, a: real, b: real)
    requires k > 0.0 && a <= b
    ensures k * a <= k * b
  {
  }

  lemma ShareIsLess(k: real, rest: real, roundTrip: real)
    requires k > 0.0 && 0.0 <= rest < k * roundTrip
    ensures k * (rest / k) == rest && 0.0 <= rest / k <= roundTrip
  {
    var share := rest / k;
    assert k * share == rest;
    if share > roundTrip {
      ScaleKeepsOrder(k, roundTrip, share);
    }
  }

  /** An operation of that many calls that takes so long. */
  lemma CanTake(budget: real, roundTrip: real, calls: nat) returns (trace: seq<Event>)
    requires budget >= 0.0 && roundTrip >= 0.0 && calls > 0
    ensures Legal(budget, roundTrip, trace) && Calls(trace) == calls
    ensures Elapsed(trace) == LastWait(budget, roundTrip) + Trips(calls, roundTrip)
  {
    var took := Share(budget, roundTrip);
    var turns := Turns(Seconds(budget), took);
    TurnsAreLegal(budget, roundTrip, Seconds(budget), took);
    OverrunIsLegal(budget, roundTrip, turns, calls - 1);
    trace := Overrun(turns, calls - 1, roundTrip);
  }

  /** No more requests than calls and seconds to wait, and over by the deadline and one round trip
      for each call. */
  lemma BoundsOf(budget: real, roundTrip: real, trace: seq<Event>)
    requires budget >= 0.0 && roundTrip >= 0.0 && Legal(budget, roundTrip, trace)
    ensures Requests(trace) <= Calls(trace) + Seconds(budget)
    ensures Elapsed(trace) <= budget + Trips(Calls(trace), roundTrip)
  {
    WithinBudget(budget, roundTrip, trace);
    FewRequests(budget, roundTrip, trace);
    TripsGrow(Spent(trace), Calls(trace), roundTrip);
  }

  /** Whatever its requests come back with, an operation of that many calls ends inside its claim. */
  ghost predicate EndsInClaim(reclaimAfterSeconds: int, roundTrip: real, calls: nat) {
    forall trace :: Legal(Budget(reclaimAfterSeconds), roundTrip, trace) && Calls(trace) == calls ==>
      Elapsed(trace) < reclaimAfterSeconds as real
  }

  /** The claim holds to the end of every operation of that many calls exactly when the latest end
      of a wait and a round trip for each call fit it. */
  lemma ClaimHoldsExactlyWhen(reclaimAfterSeconds: int, roundTrip: real, calls: nat)
    requires reclaimAfterSeconds > 0 && roundTrip >= 0.0
    ensures EndsInClaim(reclaimAfterSeconds, roundTrip, calls)
            <==> LastWait(Budget(reclaimAfterSeconds), roundTrip) + calls as real * roundTrip < reclaimAfterSeconds as real
  {
    var budget := Budget(reclaimAfterSeconds);
    TripsIsProduct(calls, roundTrip);
    forall trace | Legal(budget, roundTrip, trace) && Calls(trace) == calls
      ensures Elapsed(trace) <= LastWait(budget, roundTrip) + Trips(calls, roundTrip)
    {
      TakesAtMost(budget, roundTrip, trace);
    }
    if calls > 0 {
      var trace := CanTake(budget, roundTrip, calls);
    }
  }

  /** For a claim of an even number of seconds that is: the round trips fit its other half. */
  lemma EvenClaimHoldsExactlyWhen(reclaimAfterSeconds: int, roundTrip: real, calls: nat)
    requires reclaimAfterSeconds > 0 && reclaimAfterSeconds % 2 == 0 && roundTrip >= 0.0
    ensures EndsInClaim(reclaimAfterSeconds, roundTrip, calls)
            <==> calls as real * roundTrip < Budget(reclaimAfterSeconds)
  {
    ClaimHoldsExactlyWhen(reclaimAfterSeconds, roundTrip, calls);
    var budget := Budget(reclaimAfterSeconds);
    assert budget == (reclaimAfterSeconds / 2) as real;
    assert Seconds(budget) as real == budget;
    assert LastWait(budget, roundTrip) == budget;
  }

  class Operation {
    const start: real
    const budget: real
    const roundTrip: real // how long a request takes at most
    var now: real
    ghost var trace: seq<Event>
    ghost var sent: seq<Body>

    /** The operation did what is allowed, and took the time that takes. */
    ghost predicate Valid()
      reads this
    {
      budget >= 0.0 && roundTrip >= 0.0 && Legal(budget, roundTrip, trace) && now == start + Elapsed(trace)
    }

    function Deadline(): real {
      start + budget
    }

    /** WithRetryBudget: the deadline is set once, when the operation is claimed. */
    constructor (start: real, budget: real, roundTrip: real)
      requires budget >= 0.0 && roundTrip >= 0.0
      ensures Valid() && this.start == start && this.budget == budget && this.roundTrip == roundTrip
      ensures trace == [] && sent == []
    {
      this.start, this.budget, this.roundTrip := start, budget, roundTrip;
      now := start;
      trace, sent := [], [];
    }

    /** One request: it takes its time, and may fail in any way. */
    method Do() returns (answer: Answer, ghost took: real)
      requires Valid() && Due(trace)
      modifies this`now, this`trace
      ensures Valid() && trace == old(trace) + [Request(took)] && now == old(now) + took && took >= 0.0
    {
      var time: real := *;
      if !(0.0 <= time <= roundTrip) {
        time := 0.0;
      }
      took := time;
      Appended(budget, roundTrip, trace, Request(took));
      now := now + time;
      trace := trace + [Request(took)];
      answer := *;
    }

    /** Waits, if the budget allows the wait. */
    method Pause(seconds: nat) returns (stop: Option<Outcome>)
      requires Valid() && seconds >= 1 && trace != [] && trace[|trace| - 1].Request?
      modifies this`now, this`trace
      ensures Valid()
      ensures stop.None? ==> now == old(now) + seconds as real <= Deadline() && trace == old(trace) + [Waits(seconds)]
      ensures stop.Some? ==> stop.value in {OverBudget, Ended} && now == old(now) && trace == old(trace)
      ensures old(now) + seconds as real > Deadline() ==> stop == Some(OverBudget)
    {
      if now + seconds as real > Deadline() {
        return Some(OverBudget);
      }
      var whole: bool := *;
      if !whole {
        return Some(Ended);
      }
      Appended(budget, roundTrip, trace, Waits(seconds));
      now := now + seconds as real;
      trace := trace + [Waits(seconds)];
      return None;
    }

    /** What an answer asks for: to be done, to fail, or to wait and try again. */
    function Verdict(answer: Answer): (v: (Option<Outcome>, nat))
      ensures v.0.None? ==> v.1 >= 1
    {
      match answer
      case NetError => (None, BACKOFF)
      case NotJson(status) => if status < 500 then (Some(Refused(false)), 0) else (None, BACKOFF)
      case Reply(ok, errorCode, retryAfter, unsupportedQuote) =>
        if ok then (Some(Done), 0)
        else if retryAfter > 0 then (None, retryAfter)
        else if errorCode >= 500 then (None, BACKOFF)
        else (Some(Refused(unsupportedQuote)), 0)
    }

    /** One turn of the retry loop: build the request, send it, and wait if that is called for. */
    method Turn() returns (stop: Option<Outcome>)
      requires Valid() && Due(trace)
      modifies this`now, this`trace
      ensures Valid() && Calls(trace) == Calls(old(trace)) && now >= old(now)
      ensures stop.None? ==> Due(trace) && old(now) + 1.0 <= now <= Deadline()
    {
      var built: bool := *;
      if !built {
        return Some(Unbuilt);
      }
      var answer, took := Do();
      Appended(budget, roundTrip, old(trace), Request(took));
      var (outcome, wait) := Verdict(answer);
      if outcome.Some? {
        return outcome;
      }
      ghost var before := trace;
      stop := Pause(wait);
      Appended(budget, roundTrip, before, Waits(wait));
    }

    /** The one retry loop. It ends because each turn of it waits a second of a budget that does
        not grow. */
    method Call(body: Body) returns (outcome: Outcome)
      requires Valid()
      modifies this
      ensures Valid() && now >= old(now)
      ensures Calls(trace) == Calls(old(trace)) + 1 && sent == old(sent) + [body]
    {
      Appended(budget, roundTrip, trace, CallStarts);
      trace := trace + [CallStarts];
      sent := sent + [body];
      while true
        invariant Valid() && Due(trace) && now >= old(now)
        invariant Calls(trace) == Calls(old(trace)) + 1 && sent == old(sent) + [body]
        decreases (Deadline() - now).Floor + 1
      {
        var stop := Turn();
        if stop.Some? {
          return stop.value;
        }
      }
    }

    /** Sends one message. Refused for its quote tag it goes again without one, and refused at all
        it goes to the general surface, the text as it stood last. */
    method SendWith(html: string, degraded: string, thread: Option<int>, expandable: bool)
      returns (outcome: Outcome, stillExpandable: bool)
      requires Valid()
      modifies this
      ensures Valid() && now >= old(now)
      ensures Calls(old(trace)) < Calls(trace) <= Calls(old(trace)) + 3
      ensures stillExpandable ==> expandable
      ensures var plain := [Body(html, thread)];
              var again := if expandable && !stillExpandable then plain + [Body(degraded, thread)] else plain;
              sent == old(sent) + again
              || (thread.Some?
                  && sent == old(sent) + again + [Body(if expandable && !stillExpandable then degraded else html, None)])
      ensures outcome != Done && thread.Some? ==> sent[|sent| - 1].thread == None
    {
      var body := Body(html, thread);
      stillExpandable := expandable;
      outcome := Call(body);
      if outcome.Refused? && outcome.unsupportedQuote && expandable {
        stillExpandable := false;
        body := body.(text := degraded);
        outcome := Call(body);
      }
      if outcome != Done && thread.Some? {
        body := body.(thread := None);
        outcome := Call(body);
      }
    }

    /** Uploads a document, to the general surface when its topic refuses it. */
    method SendDocument(caption: string, thread: Option<int>) returns (outcome: Outcome)
      requires Valid()
      modifies this
      ensures Valid() && now >= old(now)
      ensures sent == old(sent) + [Body(caption, thread)]
              || (thread.Some? && sent == old(sent) + [Body(caption, thread), Body(caption, None)])
      ensures outcome != Done && thread.Some? ==> sent[|sent| - 1].thread == None
    {
      outcome := Call(Body(caption, thread));
      if outcome != Done && thread.Some? {
        outcome := Call(Body(caption, None));
      }
    }

    /** However its calls fail, an operation sends no more requests than it makes calls and has
        seconds to wait, and it is over by its deadline and one round trip for each call. */
    lemma Bounds()
      requires Valid()
      ensures Requests(trace) <= Calls(trace) + Seconds(budget)
      ensures now <= Deadline() + Calls(trace) as real * roundTrip
    {
      BoundsOf(budget, roundTrip, trace);
      TripsIsProduct(Calls(trace), roundTrip);
    }

    /** An operation still holds its claim when it ends, if operations of as many calls do. */
    lemma ClaimHolds(reclaimAfterSeconds: int)
      requires Valid() && reclaimAfterSeconds > 0 && budget == Budget(reclaimAfterSeconds)
      requires LastWait(budget, roundTrip) + Calls(trace) as real * roundTrip < reclaimAfterSeconds as real
      ensures now < start + reclaimAfterSeconds as real
    {
      ClaimHoldsExactlyWhen(reclaimAfterSeconds, roundTrip, Calls(trace));
    }
  }
}
