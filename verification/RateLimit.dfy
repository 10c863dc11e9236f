/** The in-memory failure counter per address: checked before the handler runs, incremented
    after it, and cleared once a day, with any number of requests in between. */
module RateLimit {

  /** Counters, the requests between their check and their end, and the notices sent since the
      counters were last cleared. */
  datatype State<Ip> = State(counters: map<Ip, nat>, inFlight: multiset<Ip>, notices: multiset<Ip>)

  datatype Op<Ip> =
    | Enter(ip: Ip)
    | Leave(ip: Ip, authFailed: bool)
    | Clear

  function Counter<Ip>(s: State<Ip>, ip: Ip): nat { if ip in s.counters then s.counters[ip] else 0 }

  predicate Admits<Ip>(limit: nat, s: State<Ip>, ip: Ip) { Counter(s, ip) < limit }

  /** The check creates the counter; a request over the limit never enters. */
  function AfterEnter<Ip>(limit: nat, s: State<Ip>, ip: Ip): State<Ip> {
    var checked := s.(counters := s.counters[ip := Counter(s, ip)]);
    if Admits(limit, s, ip) then checked.(inFlight := s.inFlight + multiset{ip}) else checked
  }

  function AfterLeave<Ip>(limit: nat, s: State<Ip>, ip: Ip, authFailed: bool): State<Ip> {
    if ip !in s.inFlight then s
    else
      var left := s.(inFlight := s.inFlight - multiset{ip});
      if !authFailed then left
      else
        var count := Counter(s, ip) + 1;
        left.(counters := s.counters[ip := count],
              notices := if count == limit then s.notices + multiset{ip} else s.notices)
  }

  function Step<Ip>(limit: nat, s: State<Ip>, op: Op<Ip>): State<Ip> {
    match op
    case Enter(ip) => AfterEnter(limit, s, ip)
    case Leave(ip, authFailed) => AfterLeave(limit, s, ip, authFailed)
    case Clear => s.(counters := map[], notices := multiset{})
  }

  function Exec<Ip>(limit: nat, ops: seq<Op<Ip>>): State<Ip> {
    if ops == [] then State(map[], multiset{}, multiset{})
    else Step(limit, Exec(limit, ops[..|ops| - 1]), ops[|ops| - 1])
  }

  /** The two halves of the middleware around the handler, and the daily reset. */
  class RateLimiter<Ip(==)> {
    const limit: nat
    var state: State<Ip>

    constructor (limit: nat)
      ensures this.limit == limit && state == Exec<Ip>(limit, [])
    {
      this.limit := limit;
      state := State(map[], multiset{}, multiset{});
    }

    method Before(ip: Ip) returns (admitted: bool)
      modifies this
      ensures admitted <==> Admits(limit, old(state), ip)
      ensures state == Step(limit, old(state), Enter(ip))
    {
      if ip !in state.counters { state := state.(counters := state.counters[ip := 0]); }
      var current := state.counters[ip];
      if current >= limit { return false; }
      state := state.(inFlight := state.inFlight + multiset{ip});
      return true;
    }

    method After(ip: Ip, authFailed: bool) returns (notify: bool)
      requires ip in state.inFlight
      modifies this
      ensures state == Step(limit, old(state), Leave(ip, authFailed))
      ensures notify <==> state.notices != old(state).notices
    {
      state := state.(inFlight := state.inFlight - multiset{ip});
      if !authFailed { return false; }
      var count := (if ip in state.counters then state.counters[ip] else 0) + 1;
      state := state.(counters := state.counters[ip := count]);
      notify := count == limit;
      if notify {
        state := state.(notices := state.notices + multiset{ip});
        assert state.notices[ip] == old(state).notices[ip] + 1;
      }
    }

    method Reset()
      modifies this
      ensures state == Step(limit, old(state), Clear)
    {
      state := state.(counters := map[], notices := multiset{});
    }
  }

  /** At most `m` requests of `ip` are in flight at every instant of the run. */
  ghost predicate AtMostInFlight<Ip>(limit: nat, ops: seq<Op<Ip>>, ip: Ip, m: nat) {
    forall k | 0 <= k <= |ops| :: Exec(limit, ops[..k]).inFlight[ip] <= m
  }

  lemma StepKeepsDebt<Ip>(limit: nat, s: State<Ip>, op: Op<Ip>, ip: Ip, m: nat)
    requires limit >= 1 && Counter(s, ip) + s.inFlight[ip] <= limit - 1 + m
    requires Step(limit, s, op).inFlight[ip] <= m
    ensures var t := Step(limit, s, op); Counter(t, ip) + t.inFlight[ip] <= limit - 1 + m
  {
  }

  /** Every admitted request is paid for in advance: the counter and the requests still in
      flight together never exceed `limit - 1 + m`. */
  lemma {:induction false} DebtIsBounded<Ip>(limit: nat, ops: seq<Op<Ip>>, ip: Ip, m: nat)
    requires limit >= 1 && AtMostInFlight(limit, ops, ip, m)
    ensures var s := Exec(limit, ops); Counter(s, ip) + s.inFlight[ip] <= limit - 1 + m
  {
    if ops != [] {
      hide Step;
      var shorter := ops[..|ops| - 1];
      forall k | 0 <= k <= |shorter| ensures Exec(limit, shorter[..k]).inFlight[ip] <= m {
        assert shorter[..k] == ops[..k];
      }
      DebtIsBounded(limit, shorter, ip, m);
      assert ops[..|ops|] == ops;
      StepKeepsDebt(limit, Exec(limit, shorter), ops[|ops| - 1], ip, m);
    }
  }

  /** The overshoot bound: with at most `m` requests in flight the counter stays below
      `limit + m`, however checks, failures and daily clears interleave. */
  lemma CounterIsBounded<Ip>(limit: nat, ops: seq<Op<Ip>>, ip: Ip, m: nat)
    requires limit >= 1 && AtMostInFlight(limit, ops, ip, m)
    ensures Counter(Exec(limit, ops), ip) <= limit - 1 + m
  {
    DebtIsBounded(limit, ops, ip, m);
  }

  /** Since the last clear one notice has been sent for `ip` if its counter has reached the
      limit, and none otherwise. */
  lemma {:induction false} OneNoticePerClear<Ip>(limit: nat, ops: seq<Op<Ip>>, ip: Ip)
    requires limit >= 1
    ensures Exec(limit, ops).notices[ip] == if Counter(Exec(limit, ops), ip) >= limit then 1 else 0
  {
    if ops != [] { OneNoticePerClear(limit, ops[..|ops| - 1], ip); }
  }

  // ---------------------------------------------------------------- the bound is attained

  function Repeat<Ip>(op: Op<Ip>, n: nat): seq<Op<Ip>> { seq(n, _ => op) }

  /** Requests that fail one after the other. */
  function FailOneByOne<Ip>(ip: Ip, n: nat): seq<Op<Ip>> {
    if n == 0 then [] else FailOneByOne(ip, n - 1) + [Enter(ip), Leave(ip, true)]
  }

  function WorstRun<Ip>(ip: Ip, limit: nat, m: nat): seq<Op<Ip>>
    requires limit >= 1
  {
    FailOneByOne(ip, limit - 1) + Repeat(Enter(ip), m) + Repeat(Leave(ip, true), m)
  }

  lemma {:induction false} OneByOneCounts<Ip>(limit: nat, ip: Ip, n: nat)
    requires n < limit
    ensures var s := Exec(limit, FailOneByOne(ip, n));
            Counter(s, ip) == n && s.inFlight == multiset{}
  {
    hide Step;
    if n > 0 {
      OneByOneCounts(limit, ip, n - 1);
      var before := FailOneByOne(ip, n - 1);
      var ops := FailOneByOne(ip, n);
      assert ops[..|ops| - 1] == before + [Enter(ip)];
      assert (before + [Enter(ip)])[..|before|] == before;
      OneFailure(limit, Exec(limit, before), ip);
    }
  }

  lemma OneFailure<Ip>(limit: nat, s: State<Ip>, ip: Ip)
    requires Counter(s, ip) < limit && s.inFlight == multiset{}
    ensures var t := Step(limit, Step(limit, s, Enter(ip)), Leave(ip, true));
            Counter(t, ip) == Counter(s, ip) + 1 && t.inFlight == multiset{}
  {
    var entered := Step(limit, s, Enter(ip));
    assert entered.inFlight == multiset{ip};
    assert ip in entered.inFlight;
  }

  lemma OneMoreEnters<Ip>(limit: nat, s: State<Ip>, ip: Ip)
    requires Counter(s, ip) < limit
    ensures var t := Step(limit, s, Enter(ip));
            Counter(t, ip) == Counter(s, ip) && t.inFlight[ip] == s.inFlight[ip] + 1
  {
  }

  lemma OneMoreFails<Ip>(limit: nat, s: State<Ip>, ip: Ip)
    requires s.inFlight[ip] > 0
    ensures var t := Step(limit, s, Leave(ip, true));
            Counter(t, ip) == Counter(s, ip) + 1 && t.inFlight[ip] == s.inFlight[ip] - 1
  {
  }

  lemma {:induction false} EntersPileUp<Ip>(limit: nat, before: seq<Op<Ip>>, ip: Ip, m: nat)
    requires Counter(Exec(limit, before), ip) < limit
    ensures var s := Exec(limit, before + Repeat(Enter(ip), m));
            && Counter(s, ip) == Counter(Exec(limit, before), ip)
            && s.inFlight[ip] == Exec(limit, before).inFlight[ip] + m
  {
    var ops := before + Repeat(Enter(ip), m);
    hide Step;
    if m == 0 {
      assert ops == before;
    } else {
      EntersPileUp(limit, before, ip, m - 1);
      OneMoreEnters(limit, Exec(limit, before + Repeat(Enter(ip), m - 1)), ip);
      assert ops[..|ops| - 1] == before + Repeat(Enter(ip), m - 1);
    }
  }

  lemma {:induction false} LeavesPileUp<Ip>(limit: nat, before: seq<Op<Ip>>, ip: Ip, m: nat)
    requires Exec(limit, before).inFlight[ip] >= m
    ensures var s := Exec(limit, before + Repeat(Leave(ip, true), m));
            && Counter(s, ip) == Counter(Exec(limit, before), ip) + m
            && s.inFlight[ip] == Exec(limit, before).inFlight[ip] - m
  {
    var ops := before + Repeat(Leave(ip, true), m);
    hide Step;
    if m == 0 {
      assert ops == before;
    } else {
      LeavesPileUp(limit, before, ip, m - 1);
      OneMoreFails(limit, Exec(limit, before + Repeat(Leave(ip, true), m - 1)), ip);
      assert ops[..|ops| - 1] == before + Repeat(Leave(ip, true), m - 1);
    }
  }

  /** The bound cannot be improved: `m` requests admitted just below the limit all count. */
  lemma BoundIsAttained<Ip>(limit: nat, ip: Ip, m: nat)
    requires limit >= 1
    ensures Counter(Exec(limit, WorstRun(ip, limit, m)), ip) == limit - 1 + m
  {
    hide Step, FailOneByOne, Repeat;
    var slow := FailOneByOne(ip, limit - 1);
    OneByOneCounts(limit, ip, limit - 1);
    EntersPileUp(limit, slow, ip, m);
    LeavesPileUp(limit, slow + Repeat(Enter(ip), m), ip, m);
  }

  // ---------------------------------------------------------------- what the counter counts

  /** Failed authentications of admitted requests of `ip` since the counters were last cleared. */
  ghost function FailuresSinceClear<Ip>(limit: nat, ops: seq<Op<Ip>>, ip: Ip): nat {
    if ops == [] then 0
    else
      var (before, op) := (ops[..|ops| - 1], ops[|ops| - 1]);
      if op.Clear? then 0
      else
        FailuresSinceClear(limit, before, ip)
        + if op == Leave(ip, true) && ip in Exec(limit, before).inFlight then 1 else 0
  }

  lemma StepCounts<Ip>(limit: nat, s: State<Ip>, op: Op<Ip>, ip: Ip)
    ensures Counter(Step(limit, s, op), ip)
         == if op.Clear? then 0 else Counter(s, ip) + if op == Leave(ip, true) && ip in s.inFlight then 1 else 0
  {
  }

  /** In every run the counter of an address is exactly that number; what succeeds does not count. */
  lemma {:induction false} CounterCountsFailures<Ip>(limit: nat, ops: seq<Op<Ip>>, ip: Ip)
    ensures Counter(Exec(limit, ops), ip) == FailuresSinceClear(limit, ops, ip)
  {
    if ops != [] {
      hide Step, Counter;
      var before := ops[..|ops| - 1];
      CounterCountsFailures(limit, before, ip);
      StepCounts(limit, Exec(limit, before), ops[|ops| - 1], ip);
    } else {
      assert Counter(Exec(limit, ops), ip) == 0;
    }
  }

  /** So a request is let in exactly while fewer than `limit` have failed since the last clear, and whether it is
      changes no counter and no other address. */
  lemma AdmittedExactly<Ip>(limit: nat, ops: seq<Op<Ip>>, ip: Ip, other: Ip)
    ensures var (s, t) := (Exec(limit, ops), Exec(limit, ops + [Enter(ip)]));
            && t.inFlight[ip] == s.inFlight[ip] + (if FailuresSinceClear(limit, ops, ip) < limit then 1 else 0)
            && Counter(t, other) == Counter(s, other)
            && (other != ip ==> t.inFlight[other] == s.inFlight[other])
  {
    CounterCountsFailures(limit, ops, ip);
    assert (ops + [Enter(ip)])[..|ops|] == ops;
  }

  /** A request that leaves is in flight no more, whatever it was answered. */
  lemma LeavingEnds<Ip>(limit: nat, ops: seq<Op<Ip>>, ip: Ip, authFailed: bool, other: Ip)
    requires ip in Exec(limit, ops).inFlight
    ensures var (s, t) := (Exec(limit, ops), Exec(limit, ops + [Leave(ip, authFailed)]));
            && t.inFlight[ip] == s.inFlight[ip] - 1
            && (other != ip ==> t.inFlight[other] == s.inFlight[other] && Counter(t, other) == Counter(s, other))
  {
    assert (ops + [Leave(ip, authFailed)])[..|ops|] == ops;
  }
}
