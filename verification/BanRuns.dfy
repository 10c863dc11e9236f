/** Any number of `authorize_key` calls interleaved statement by statement with each other, with
    `unban`, cleanup, policy updates, device deletion and the clock. */
module BanRuns {
  import opened Basics
  import opened Escalation
  import opened Policy
  import opened Bans

  datatype Outcome = Permitted | Refused | Failed

  /** How far a call has come: the names say which statement it has just executed. */
  datatype Stage =
    | Arrived
    | FoundUnbanned
    | FoundForbidden
    | RowPresent
    | Counted(count: nat)
    | Finished(outcome: Outcome)

  datatype Call = Call(device: Id, owner: string, key: string, stage: Stage)

  datatype State = State(now: int, owners: map<Id, string>, policies: map<Id, PolicyRow>,
                         policyKeys: KeyTable, bans: BanTable, calls: map<nat, Call>)

  datatype Action =
    | Begin(call: nat, device: Id, owner: string, key: string)
    | Advance(call: nat)
    | Unban(owner: string, device: Id)
    | Cleanup
    | SavePolicy(owner: string, device: Id, policy: Normalised)
    | DeleteDevice(device: Id)
    | Tick(secs: nat)

  /** Call `c` moved on to `stage`. */
  function At(s: State, c: nat, stage: Stage): State
    requires c in s.calls
  {
    s.(calls := s.calls[c := s.calls[c].(stage := stage)])
  }

  /** The next statement of one call. */
  function AdvanceCall(base: nat, s: State, c: nat): State
    requires c in s.calls
  {
    var call := s.calls[c];
    match call.stage
    case Arrived =>
      At(s, c, if Banned(s.bans, call.device, s.now) then Finished(Refused) else FoundUnbanned)
    case FoundUnbanned =>
      At(s, c, if KeyPermitted(s.policies, s.policyKeys, call.device, call.key)
               then Finished(Permitted) else FoundForbidden)
    case FoundForbidden =>
      if call.device !in s.owners then At(s, c, Finished(Failed))
      else At(s, c, RowPresent).(bans := OpenRow(s.bans, call.device, call.owner))
    case RowPresent =>
      At(s, c, if call.device !in s.bans then Finished(Failed)
               else if BanActive(s.bans[call.device], s.now) then Finished(Refused)
               else Counted(s.bans[call.device].banCount))
    case Counted(count) =>
      At(s, c, Finished(Refused)).(bans := ApplyBan(s.bans, call.device, count, base, s.now, call.key))
    case Finished(_) => s
  }

  function Step(base: nat, s: State, a: Action): State {
    match a
    case Begin(c, device, owner, key) =>
      if c in s.calls then s else s.(calls := s.calls[c := Call(device, owner, key, Arrived)])
    case Advance(c) => if c in s.calls then AdvanceCall(base, s, c) else s
    case Unban(owner, device) => s.(bans := LiftBan(s.bans, s.owners, owner, device, s.now))
    case Cleanup => s.(bans := ClearExpired(s.bans, s.now))
    case SavePolicy(owner, device, n) =>
      if device !in s.owners then s
      else s.(policies := SavedPolicies(s.policies, owner, device, n),
              policyKeys := SavedKeys(s.policyKeys, device, n))
    case DeleteDevice(device) =>
      s.(owners := s.owners - {device}, policies := s.policies - {device},
         policyKeys := WithoutDevice(s.policyKeys, device), bans := s.bans - {device})
    case Tick(secs) => s.(now := s.now + secs)
  }

  function Exec(base: nat, s: State, actions: seq<Action>): State {
    if actions == [] then s
    else Step(base, Exec(base, s, actions[..|actions| - 1]), actions[|actions| - 1])
  }

  lemma ExecAppend(base: nat, s: State, actions: seq<Action>, a: Action)
    ensures Exec(base, s, actions + [a]) == Step(base, Exec(base, s, actions), a)
  {
    hide Step;
    assert (actions + [a])[..|actions|] == actions;
  }

  /** A call whose statements run one right after another. */
  function Uninterrupted(c: nat, device: Id, owner: string, key: string): seq<Action> {
    [Begin(c, device, owner, key)] + [Advance(c)] + [Advance(c)] + [Advance(c)] + [Advance(c)] + [Advance(c)]
  }

  /** Such a call answers and changes the ban table as the whole of `authorize_key` does. */
  lemma UninterruptedIsAtomic(base: nat, s: State, c: nat, device: Id, owner: string, key: string)
    requires c !in s.calls && s.bans.Keys <= s.owners.Keys
    ensures var t := Exec(base, s, Uninterrupted(c, device, owner, key));
            c in t.calls && (t.calls[c].stage, t.bans) ==
              if Banned(s.bans, device, s.now) then (Finished(Refused), s.bans)
              else if KeyPermitted(s.policies, s.policyKeys, device, key) then (Finished(Permitted), s.bans)
              else if device !in s.owners then (Finished(Failed), s.bans)
              else (Finished(Refused), AfterViolation(s.bans, device, owner, base, s.now, key))
  {
    hide KeyPermitted, Exec;
    var begin, next := Begin(c, device, owner, key), Advance(c);
    ExecNothing(base, s);
    ExecAppend(base, s, [], begin);
    assert [] + [begin] == [begin];
    ExecAppend(base, s, [begin], next);
    ExecAppend(base, s, [begin] + [next], next);
    ExecAppend(base, s, [begin] + [next] + [next], next);
    ExecAppend(base, s, [begin] + [next] + [next] + [next], next);
    ExecAppend(base, s, [begin] + [next] + [next] + [next] + [next], next);
  }

  /** Besides bans only call `c` differs, and it is for the same device and name. */
  ghost predicate OnlyCall(s: State, t: State, c: nat) {
    && t.now == s.now && t.owners == s.owners && t.policies == s.policies && t.policyKeys == s.policyKeys
    && (forall e | e != c :: e in t.calls <==> e in s.calls)
    && (forall e | e != c && e in s.calls :: t.calls[e] == s.calls[e])
    && (c in s.calls ==> c in t.calls && t.calls[c] == s.calls[c].(stage := t.calls[c].stage))
  }

  lemma AdvanceTouchesOnly(base: nat, s: State, c: nat)
    requires c in s.calls
    ensures var t := AdvanceCall(base, s, c);
            && t == s.(bans := t.bans, calls := t.calls)
            && c in t.calls && t.calls == s.calls[c := s.calls[c].(stage := t.calls[c].stage)]
  {
    hide KeyPermitted, OpenRow, ApplyBan, Banned, BanActive;
  }

  lemma OnlyCallContinues(r: State, s: State, t: State, c: nat)
    requires OnlyCall(r, s, c) && c in s.calls && c in t.calls
    requires t == s.(bans := t.bans, calls := t.calls)
    requires t.calls == s.calls[c := s.calls[c].(stage := t.calls[c].stage)]
    ensures OnlyCall(r, t, c)
  {
  }

  /** The first `n` statements of a call. */
  function Advances(c: nat, n: nat): seq<Action> { if n == 0 then [] else Advances(c, n - 1) + [Advance(c)] }

  lemma {:induction false} AdvancesTouchOnly(base: nat, s: State, c: nat, device: Id, owner: string, key: string, n: nat)
    requires c !in s.calls
    ensures var t := Exec(base, s, [Begin(c, device, owner, key)] + Advances(c, n));
            && OnlyCall(s, t, c) && c in t.calls
            && t.calls[c] == Call(device, owner, key, t.calls[c].stage)
  {
    var begin := [Begin(c, device, owner, key)];
    if n == 0 {
      assert begin + Advances(c, 0) == [] + begin;
      ExecNothing(base, s);
      ExecAppend(base, s, [], begin[0]);
    } else {
      hide Exec, AdvanceCall, OnlyCall;
      AdvancesTouchOnly(base, s, c, device, owner, key, n - 1);
      assert begin + Advances(c, n) == begin + Advances(c, n - 1) + [Advance(c)];
      ExecAppend(base, s, begin + Advances(c, n - 1), Advance(c));
      var before := Exec(base, s, begin + Advances(c, n - 1));
      AdvanceTouchesOnly(base, before, c);
      OnlyCallContinues(s, before, AdvanceCall(base, before, c), c);
    }
  }

  lemma UninterruptedIsFiveAdvances(c: nat, device: Id, owner: string, key: string)
    ensures Uninterrupted(c, device, owner, key) == [Begin(c, device, owner, key)] + Advances(c, 5)
  {
    assert Advances(c, 1) == [Advance(c)];
    assert Advances(c, 2) == [Advance(c)] + [Advance(c)];
    assert Advances(c, 3) == [Advance(c)] + [Advance(c)] + [Advance(c)];
    assert Advances(c, 4) == [Advance(c)] + [Advance(c)] + [Advance(c)] + [Advance(c)];
    assert Advances(c, 5) == [Advance(c)] + [Advance(c)] + [Advance(c)] + [Advance(c)] + [Advance(c)];
  }

  lemma {:induction false} ExecConcat(base: nat, s: State, a: seq<Action>, b: seq<Action>)
    ensures Exec(base, s, a + b) == Exec(base, Exec(base, s, a), b)
  {
    hide Step;
    if b == [] {
      assert a + b == a;
    } else {
      var n := |b| - 1;
      ExecConcat(base, s, a, b[..n]);
      assert (a + b)[..|a| + n] == a + b[..n];
    }
  }

  lemma ExecNothing(base: nat, s: State)
    ensures Exec(base, s, []) == s
  {
  }

  /** A server on which nobody was ever banned and no call is under way. */
  predicate Fresh(s: State) { s.bans == map[] && s.calls == map[] }

  // ---------------------------------------------------------------- the invariant

  predicate RowSound(base: nat, row: BanRow) {
    && (row.bannedAt.Some? <==> row.unbanAt.Some?)
    && row.banCount <= I64_MAX
    && (row.bannedAt.Some? ==>
          row.banCount >= 1
          && row.unbanAt.value - row.bannedAt.value == EscalatedSecs(base, row.banCount))
  }

  /** A call that has read a count read it from an inactive row; since then the count can only
      have grown, and while it is unchanged the row is still inactive. */
  predicate CallSound(s: State, call: Call) {
    call.stage.Counted? ==>
      if call.device in s.bans then
        var row := s.bans[call.device];
        && call.stage.count <= row.banCount
        && (call.stage.count == row.banCount < I64_MAX ==> !BanActive(row, s.now))
      else call.device !in s.owners
  }

  ghost predicate Sound(base: nat, s: State) {
    && s.bans.Keys <= s.owners.Keys
    && (forall d | d in s.bans :: RowSound(base, s.bans[d]))
    && (forall c | c in s.calls :: CallSound(s, s.calls[c]))
  }

  lemma AdvanceKeepsRowsSound(base: nat, s: State, c: nat)
    requires base >= 1 && Sound(base, s) && c in s.calls
    ensures AdvanceCall(base, s, c).bans.Keys <= s.owners.Keys
    ensures forall d | d in AdvanceCall(base, s, c).bans :: RowSound(base, AdvanceCall(base, s, c).bans[d])
  {
    hide KeyPermitted, EscalatedSecs, CallSound;
  }

  /** The next statement of `c` leaves what call `e` relies on. */
  lemma AdvanceKeepsCallSound(base: nat, s: State, c: nat, e: nat)
    requires base >= 1 && Sound(base, s) && c in s.calls && e in s.calls
    ensures CallSound(AdvanceCall(base, s, c), AdvanceCall(base, s, c).calls[e])
  {
    hide KeyPermitted, EscalatedSecs;
    assert CallSound(s, s.calls[e]);
    assert s.calls[c].device in s.bans ==> RowSound(base, s.bans[s.calls[c].device]);
  }

  lemma AdvanceKeepsSound(base: nat, s: State, c: nat)
    requires base >= 1 && Sound(base, s) && c in s.calls
    ensures Sound(base, AdvanceCall(base, s, c))
  {
    hide RowSound, CallSound, KeyPermitted, ApplyBan, OpenRow;
    AdvanceKeepsRowsSound(base, s, c);
    forall e | e in s.calls ensures CallSound(AdvanceCall(base, s, c), AdvanceCall(base, s, c).calls[e]) {
      AdvanceKeepsCallSound(base, s, c, e);
    }
  }

  lemma StepKeepsSound(base: nat, s: State, a: Action)
    requires base >= 1 && Sound(base, s)
    ensures Sound(base, Step(base, s, a))
  {
    var s' := Step(base, s, a);
    if a.Advance? && a.call in s.calls {
      AdvanceKeepsSound(base, s, a.call);
    } else {
      forall e | e in s'.calls ensures CallSound(s', s'.calls[e]) {
        if e in s.calls { assert CallSound(s, s.calls[e]); }
      }
    }
  }

  lemma {:induction false} RunIsSound(base: nat, s: State, actions: seq<Action>)
    requires base >= 1 && Fresh(s)
    ensures Sound(base, Exec(base, s, actions))
  {
    if actions != [] {
      RunIsSound(base, s, actions[..|actions| - 1]);
      StepKeepsSound(base, Exec(base, s, actions[..|actions| - 1]), actions[|actions| - 1]);
    }
  }

  // ---------------------------------------------------------------- wins

  /** Call `c` is about to run its guarded update and the guard will hold. */
  predicate AboutToWin(s: State, c: nat) {
    && c in s.calls && s.calls[c].stage.Counted?
    && GuardHolds(s.bans, s.calls[c].device, s.calls[c].stage.count)
  }

  /** In every run a winning update finds no ban in force, as long as the count can still grow. */
  lemma WinFindsNoBan(base: nat, s: State, actions: seq<Action>, c: nat)
    requires base >= 1 && Fresh(s)
    requires AboutToWin(Exec(base, s, actions), c)
    requires Exec(base, s, actions).calls[c].stage.count < I64_MAX
    ensures var t := Exec(base, s, actions); !Banned(t.bans, t.calls[c].device, t.now)
  {
    RunIsSound(base, s, actions);
    assert CallSound(Exec(base, s, actions), Exec(base, s, actions).calls[c]);
  }

  /** Once the count has saturated the guard no longer separates two racing calls: after one of
      them has won, the other one still wins and replaces the ban that is in force. */
  lemma SaturatedWinsOverwrite(base: nat, s: State, c: nat, e: nat, secs: nat)
    requires 1 <= base && c != e && AboutToWin(s, c) && AboutToWin(s, e)
    requires s.calls[c].device == s.calls[e].device
    requires s.calls[c].stage.count == s.calls[e].stage.count == I64_MAX
    requires 0 < secs < MAX_SECS
    ensures var d := s.calls[c].device;
            var first := Step(base, Step(base, s, Advance(c)), Tick(secs));
            var second := Step(base, first, Advance(e));
            && Banned(first.bans, d, first.now) && AboutToWin(first, e)
            && d in second.bans && second.bans[d].unbanAt != first.bans[d].unbanAt
  {
    assert EscalatedSecs(base, I64_MAX) == MAX_SECS by {
      EscalatedSecsExact(base, I64_MAX);
      LongEscalation(base, I64_MAX);
    }
  }

  /** In no run does an update with this count win over a ban in force. */
  ghost predicate GuardSeparates(base: nat, count: nat) {
    forall s: State, actions: seq<Action>, c: nat |
      Fresh(s) && AboutToWin(Exec(base, s, actions), c) && Exec(base, s, actions).calls[c].stage.count == count ::
      !Banned(Exec(base, s, actions).bans, Exec(base, s, actions).calls[c].device, Exec(base, s, actions).now)
  }

  /** A server with one device whose policy allows it nothing. */
  const LOCKED: State :=
    State(0, map[0 := "owner"], map[0 := PolicyRow("owner", "allow_list", None)], [], map[], map[])

  /** The device violates its policy, and its owner lifts the ban. No time passes. */
  function Round(c: nat): seq<Action> { Uninterrupted(c, 0, "owner", "key") + [Unban("owner", 0)] }

  function Rounds(n: nat): seq<Action> { if n == 0 then [] else Rounds(n - 1) + Round(n - 1) }

  /** The locked device is not banned now and has been banned `n` times; calls are numbered below `m`. */
  predicate BannedBefore(t: State, n: nat, m: nat) {
    && t.owners == LOCKED.owners && t.policies == LOCKED.policies && t.policyKeys == []
    && t.bans.Keys <= {0} && (forall c | c in t.calls :: c < m)
    && (n > 0 ==> 0 in t.bans) && (0 in t.bans ==> t.bans[0].banCount == n) && !Banned(t.bans, 0, t.now)
  }

  lemma NothingIsPermitted(t: State, key: string)
    requires t.policies == LOCKED.policies && t.policyKeys == []
    ensures !KeyPermitted(t.policies, t.policyKeys, 0, key)
  {
    assert KeysOf([], 0) == [];
    assert ParseMode("allow_list") == Some(AllowList);
  }

  lemma RoundCounts(base: nat, t: State, n: nat)
    requires base >= 1 && n < I64_MAX && BannedBefore(t, n, n)
    ensures BannedBefore(Exec(base, t, Round(n)), n + 1, n + 1)
  {
    hide KeyPermitted, Exec, EscalatedSecs;
    NothingIsPermitted(t, "key");
    UninterruptedIsAtomic(base, t, n, 0, "owner", "key");
    UninterruptedIsFiveAdvances(n, 0, "owner", "key");
    AdvancesTouchOnly(base, t, n, 0, "owner", "key", 5);
    var banned := Exec(base, t, Uninterrupted(n, 0, "owner", "key"));
    EscalatedSecsPositive(base, n + 1);
    ExecAppend(base, t, Uninterrupted(n, 0, "owner", "key"), Unban("owner", 0));
  }

  /** Every count up to the last one is reached. */
  lemma {:induction false} RoundsCount(base: nat, n: nat)
    requires base >= 1 && n <= I64_MAX
    ensures BannedBefore(Exec(base, LOCKED, Rounds(n)), n, n)
  {
    if n > 0 {
      hide BannedBefore;
      RoundsCount(base, n - 1);
      RoundCounts(base, Exec(base, LOCKED, Rounds(n - 1)), n - 1);
      ExecConcat(base, LOCKED, Rounds(n - 1), Round(n - 1));
    }
  }

  /** A violation that has read the count and is about to update it. */
  function Reading(c: nat): seq<Action> { [Begin(c, 0, "owner", "key")] + Advances(c, 4) }

  lemma ReadingCounts(base: nat, t: State, n: nat, c: nat)
    requires n > 0 && BannedBefore(t, n, c)
    ensures var u := Exec(base, t, Reading(c));
            && BannedBefore(u, n, c + 1) && AboutToWin(u, c) && u.calls[c].stage.count == n && u.calls[c].device == 0
            && (forall e | e in t.calls :: e in u.calls && u.calls[e] == t.calls[e])
            && u.bans == t.bans
  {
    hide KeyPermitted, Exec, AdvanceCall;
    NothingIsPermitted(t, "key");
    AdvancesTouchOnly(base, t, c, 0, "owner", "key", 4);
    FourStatements(base, t, c);
  }

  /** Four statements take a violation of an inactive row to its update, with the row unchanged. */
  lemma FourStatements(base: nat, t: State, c: nat)
    requires c !in t.calls && 0 in t.owners && 0 in t.bans && !Banned(t.bans, 0, t.now)
    requires !KeyPermitted(t.policies, t.policyKeys, 0, "key")
    ensures var u := Exec(base, t, Reading(c));
            c in u.calls && u.calls[c].stage == Counted(t.bans[0].banCount) && u.bans == t.bans
  {
    hide KeyPermitted, Exec;
    var (begin, next) := (Begin(c, 0, "owner", "key"), Advance(c));
    assert Reading(c) == [begin] + [next] + [next] + [next] + [next] by {
      assert Advances(c, 1) == [next];
      assert Advances(c, 2) == [next] + [next];
      assert Advances(c, 3) == [next] + [next] + [next];
      assert Advances(c, 4) == [next] + [next] + [next] + [next];
    }
    ExecNothing(base, t);
    ExecAppend(base, t, [], begin);
    assert [] + [begin] == [begin];
    ExecAppend(base, t, [begin], next);
    ExecAppend(base, t, [begin] + [next], next);
    ExecAppend(base, t, [begin] + [next] + [next], next);
    ExecAppend(base, t, [begin] + [next] + [next] + [next], next);
  }

  /** The run in which two violations read the last count that fits. */
  function SaturatedRun(): seq<Action> { Rounds(I64_MAX) + Reading(I64_MAX) + Reading(I64_MAX + 1) }

  lemma SaturatedRunRaces(base: nat)
    requires base >= 1
    ensures var s := Exec(base, LOCKED, SaturatedRun());
            && AboutToWin(s, I64_MAX) && AboutToWin(s, I64_MAX + 1)
            && s.calls[I64_MAX].device == s.calls[I64_MAX + 1].device == 0
            && s.calls[I64_MAX].stage.count == s.calls[I64_MAX + 1].stage.count == I64_MAX
  {
    hide Exec, Rounds;
    RoundsCount(base, I64_MAX);
    var t := Exec(base, LOCKED, Rounds(I64_MAX));
    ExecConcat(base, LOCKED, Rounds(I64_MAX), Reading(I64_MAX));
    ReadingCounts(base, t, I64_MAX, I64_MAX);
    var u := Exec(base, t, Reading(I64_MAX));
    ExecConcat(base, LOCKED, Rounds(I64_MAX) + Reading(I64_MAX), Reading(I64_MAX + 1));
    ReadingCounts(base, u, I64_MAX, I64_MAX + 1);
  }

  /** Then the second update wins over the ban that the first one has put in force, and moves its end. */
  lemma SaturatedRunOverwrites(base: nat)
    requires base >= 1
    ensures Fresh(LOCKED)
    ensures var actions := SaturatedRun() + [Advance(I64_MAX)] + [Tick(1)];
            var (first, second) := (Exec(base, LOCKED, actions), Exec(base, LOCKED, actions + [Advance(I64_MAX + 1)]));
            && AboutToWin(first, I64_MAX + 1) && first.calls[I64_MAX + 1].stage.count == I64_MAX
            && first.calls[I64_MAX + 1].device == 0 && Banned(first.bans, 0, first.now)
            && 0 in second.bans && second.bans[0].unbanAt != first.bans[0].unbanAt
  {
    hide Exec, SaturatedRun, AdvanceCall;
    SaturatedRunRaces(base);
    var s := Exec(base, LOCKED, SaturatedRun());
    SaturatedWinsOverwrite(base, s, I64_MAX, I64_MAX + 1, 1);
    ExecAppend(base, LOCKED, SaturatedRun(), Advance(I64_MAX));
    ExecAppend(base, LOCKED, SaturatedRun() + [Advance(I64_MAX)], Tick(1));
    ExecAppend(base, LOCKED, SaturatedRun() + [Advance(I64_MAX)] + [Tick(1)], Advance(I64_MAX + 1));
    OtherCallWaits(base, s);
  }

  lemma OtherCallWaits(base: nat, s: State)
    requires AboutToWin(s, I64_MAX) && AboutToWin(s, I64_MAX + 1)
    ensures var first := Step(base, Step(base, s, Advance(I64_MAX)), Tick(1));
            I64_MAX + 1 in first.calls && first.calls[I64_MAX + 1] == s.calls[I64_MAX + 1]
  {
    hide KeyPermitted;
  }

  /** The guard on the count does its work, over all runs, exactly as long as the count can still grow. */
  lemma GuardSeparatesExactlyBelowSaturation(base: nat, count: nat)
    requires base >= 1 && count <= I64_MAX
    ensures GuardSeparates(base, count) <==> count < I64_MAX
  {
    hide Exec, SaturatedRun;
    if count < I64_MAX {
      forall s: State, actions: seq<Action>, c: nat |
        Fresh(s) && AboutToWin(Exec(base, s, actions), c) && Exec(base, s, actions).calls[c].stage.count == count
        ensures !Banned(Exec(base, s, actions).bans, Exec(base, s, actions).calls[c].device, Exec(base, s, actions).now)
      {
        WinFindsNoBan(base, s, actions, c);
      }
    } else {
      SaturatedRunOverwrites(base);
    }
  }

  /** Two bans of one device: the first is in force right after it was applied, and at the
      instant before the second one none is. */
  lemma TwoWinsAreSeparated(base: nat, s: State, actions: seq<Action>, i: nat, c: nat, e: nat)
    requires base >= 1 && Fresh(s) && i < |actions| && actions[i] == Advance(c)
    requires AboutToWin(Exec(base, s, actions[..i]), c)
    requires AboutToWin(Exec(base, s, actions), e)
    requires Exec(base, s, actions[..i]).calls[c].device == Exec(base, s, actions).calls[e].device
    requires Exec(base, s, actions).calls[e].stage.count < I64_MAX
    ensures var d := Exec(base, s, actions).calls[e].device;
            var (first, second) := (Exec(base, s, actions[..i + 1]), Exec(base, s, actions));
            Banned(first.bans, d, first.now) && !Banned(second.bans, d, second.now)
  {
    WinFindsNoBan(base, s, actions, e);
    RunIsSound(base, s, actions[..i]);
    WinBans(base, Exec(base, s, actions[..i]), c);
    assert actions[..i + 1][..i] == actions[..i];
  }

  /** A won update puts a ban in force. */
  lemma WinBans(base: nat, s: State, c: nat)
    requires base >= 1 && AboutToWin(s, c)
    ensures var s' := Step(base, s, Advance(c)); Banned(s'.bans, s.calls[c].device, s'.now)
  {
    EscalatedSecsPositive(base, SaturatingIncrement(s.calls[c].stage.count));
  }

  /** No step changes the end of a ban that is in force, other than lifting it or deleting the
      device. */
  lemma ActiveBanIsKept(base: nat, s: State, actions: seq<Action>, a: Action, d: Id)
    requires base >= 1 && Fresh(s)
    requires var t := Exec(base, s, actions); Banned(t.bans, d, t.now) && t.bans[d].banCount < I64_MAX
    ensures var (t, t') := (Exec(base, s, actions), Step(base, Exec(base, s, actions), a));
            d in t'.bans && t'.bans[d].unbanAt.Some? ==> t'.bans[d] == t.bans[d]
  {
    var t := Exec(base, s, actions);
    RunIsSound(base, s, actions);
    if a.Advance? && a.call in t.calls { assert CallSound(t, t.calls[a.call]); }
  }

  // ---------------------------------------------------------------- every refusal has a witness

  ghost predicate BannedAt(base: nat, s: State, actions: seq<Action>, d: Id, k: nat)
    requires k <= |actions|
  {
    var t := Exec(base, s, actions[..k]);
    Banned(t.bans, d, t.now)
  }

  /** The device was banned at some instant between `from` and the end of the run. */
  ghost predicate Witnessed(base: nat, s: State, actions: seq<Action>, d: Id, from: nat) {
    exists k | from <= k <= |actions| :: BannedAt(base, s, actions, d, k)
  }

  lemma WitnessPersists(base: nat, s: State, actions: seq<Action>, d: Id, from: nat)
    requires actions != [] && Witnessed(base, s, actions[..|actions| - 1], d, from)
    ensures Witnessed(base, s, actions, d, from)
  {
    var shorter := actions[..|actions| - 1];
    var k :| from <= k <= |shorter| && BannedAt(base, s, shorter, d, k);
    assert shorter[..k] == actions[..k];
    assert BannedAt(base, s, actions, d, k);
  }

  lemma WitnessNow(base: nat, s: State, actions: seq<Action>, d: Id, from: nat)
    requires from <= |actions| && Banned(Exec(base, s, actions).bans, d, Exec(base, s, actions).now)
    ensures Witnessed(base, s, actions, d, from)
  {
    assert actions[..|actions|] == actions;
    assert BannedAt(base, s, actions, d, |actions|);
  }

  /** What the call that began at `from` may rely on. */
  ghost predicate CallExplained(base: nat, s: State, actions: seq<Action>, c: nat, d: Id, from: nat) {
    var t := Exec(base, s, actions);
    && c in t.calls && t.calls[c].device == d
    && (t.calls[c].stage.Counted? ==>
          || d !in t.owners
          || GuardHolds(t.bans, d, t.calls[c].stage.count)
          || Witnessed(base, s, actions, d, from))
    && (t.calls[c].stage == Finished(Refused) ==>
          d !in t.owners || Witnessed(base, s, actions, d, from))
  }

  /** The guard of call `c` can only stop holding, and `c` can only be refused, at an instant
      next to which the device is banned or gone. */
  lemma StepExplains(base: nat, t: State, a: Action, c: nat)
    requires base >= 1 && Sound(base, t) && c in t.calls
    requires var call := t.calls[c];
             && (call.stage.Counted? ==> call.device !in t.owners || GuardHolds(t.bans, call.device, call.stage.count))
             && (call.stage == Finished(Refused) ==> call.device !in t.owners)
    ensures var t' := Step(base, t, a);
            var d := t.calls[c].device;
            && c in t'.calls && t'.calls[c].device == d
            && (|| Banned(t.bans, d, t.now)
                || Banned(t'.bans, d, t'.now)
                || d !in t'.owners
                || (t'.calls[c].stage != Finished(Refused)
                    && (t'.calls[c].stage.Counted? ==> GuardHolds(t'.bans, d, t'.calls[c].stage.count))))
  {
    hide KeyPermitted, SavedPolicies, SavedKeys, RowSound;
    assert CallSound(t, t.calls[c]);
    if a.Advance? && AboutToWin(t, a.call) && t.calls[a.call].device == t.calls[c].device {
      WinBans(base, t, a.call);
    }
  }

  lemma StepKeepsCall(base: nat, t: State, a: Action, c: nat)
    requires c in t.calls
    ensures c in Step(base, t, a).calls && Step(base, t, a).calls[c].device == t.calls[c].device
  {
  }

  lemma CallStaysExplained(base: nat, s: State, actions: seq<Action>, c: nat, d: Id, from: nat)
    requires base >= 1 && Fresh(s) && actions != []
    requires from < |actions| && CallExplained(base, s, actions[..|actions| - 1], c, d, from)
    ensures CallExplained(base, s, actions, c, d, from)
  {
    hide Step;
    var shorter, a := actions[..|actions| - 1], actions[|actions| - 1];
    var t, t' := Exec(base, s, shorter), Exec(base, s, actions);
    RunIsSound(base, s, shorter);
    StepKeepsCall(base, t, a, c);
    if Witnessed(base, s, shorter, d, from) {
      WitnessPersists(base, s, actions, d, from);
    } else {
      StepExplains(base, t, a, c);
      if Banned(t.bans, d, t.now) { WitnessNow(base, s, shorter, d, from); }
      if Banned(t'.bans, d, t'.now) { WitnessNow(base, s, actions, d, from); }
    }
  }

  lemma {:induction false} CallIsExplained(base: nat, s: State, actions: seq<Action>, c: nat, d: Id, from: nat)
    requires base >= 1 && Fresh(s) && from < |actions|
    requires actions[from].Begin? && actions[from].call == c && actions[from].device == d
    requires c !in Exec(base, s, actions[..from]).calls
    ensures CallExplained(base, s, actions, c, d, from)
    decreases |actions|
  {
    var shorter := actions[..|actions| - 1];
    if from < |shorter| {
      assert shorter[..from] == actions[..from];
      CallIsExplained(base, s, shorter, c, d, from);
      CallStaysExplained(base, s, actions, c, d, from);
    } else {
      assert shorter == actions[..from];
    }
  }

  /** Every refusal, also the one after a lost race, is explained by a ban that was in force at
      some instant while the call was under way, unless the device has been deleted. */
  lemma RefusalIsWitnessed(base: nat, s: State, actions: seq<Action>, c: nat, from: nat)
    requires base >= 1 && Fresh(s) && from < |actions|
    requires actions[from].Begin? && actions[from].call == c
    requires c !in Exec(base, s, actions[..from]).calls
    requires c in Exec(base, s, actions).calls && Exec(base, s, actions).calls[c].stage == Finished(Refused)
    ensures var d := actions[from].device;
            d !in Exec(base, s, actions).owners || Witnessed(base, s, actions, d, from)
  {
    CallIsExplained(base, s, actions, c, actions[from].device, from);
  }

  // ---------------------------------------------------------------- counting bans

  /** The number of updates won for `d` during a run. */
  function BansApplied(base: nat, s: State, actions: seq<Action>, d: Id): nat {
    if actions == [] then 0
    else
      var shorter, a := actions[..|actions| - 1], actions[|actions| - 1];
      var t := Exec(base, s, shorter);
      BansApplied(base, s, shorter, d)
      + if a.Advance? && AboutToWin(t, a.call) && t.calls[a.call].device == d then 1 else 0
  }

  /** One step moves the count of `d` by one if it is a won update for `d`, else not at all. */
  lemma StepCounts(base: nat, t: State, a: Action, d: Id)
    requires t.bans.Keys <= t.owners.Keys
    ensures var t' := Step(base, t, a);
            var won := a.Advance? && AboutToWin(t, a.call) && t.calls[a.call].device == d;
            var count := if d in t.bans then t.bans[d].banCount else 0;
            && (d in t'.bans ==> t'.bans[d].banCount == if won then SaturatingIncrement(count) else count)
            && (d in t'.owners ==> d in t.owners && (d in t.bans ==> d in t'.bans))
  {
  }

  lemma {:induction false} CountIsBansApplied(base: nat, s: State, actions: seq<Action>, d: Id)
    requires base >= 1 && Fresh(s)
    ensures var t := Exec(base, s, actions);
            var applied := BansApplied(base, s, actions, d);
            && (d in t.bans ==> t.bans[d].banCount == Min(applied, I64_MAX))
            && (d in t.owners && d !in t.bans ==> applied == 0)
  {
    if actions != [] {
      var shorter, a := actions[..|actions| - 1], actions[|actions| - 1];
      CountIsBansApplied(base, s, shorter, d);
      RunIsSound(base, s, shorter);
      RunIsSound(base, s, actions);
      StepCounts(base, Exec(base, s, shorter), a, d);
    }
  }

  /** In every reachable state both ban timestamps are set or none, and a set pair is apart by
      the plain capped doubling for the number of bans applied so far. */
  lemma BanLengthIsExact(base: nat, s: State, actions: seq<Action>, d: Id)
    requires base >= 1 && Fresh(s) && d in Exec(base, s, actions).bans
    ensures var row := Exec(base, s, actions).bans[d];
            var applied := BansApplied(base, s, actions, d);
            && (row.bannedAt.Some? <==> row.unbanAt.Some?)
            && (row.bannedAt.Some? ==>
                  applied >= 1
                  && row.unbanAt.value - row.bannedAt.value == Min(base * Pow2(applied - 1), MAX_SECS))
  {
    hide Step, EscalatedSecs, Pow2;
    RunIsSound(base, s, actions);
    CountIsBansApplied(base, s, actions, d);
    var row := Exec(base, s, actions).bans[d];
    var applied := BansApplied(base, s, actions, d);
    if row.bannedAt.Some? {
      assert RowSound(base, row);
      EscalatedSecsExact(base, row.banCount);
      if applied > I64_MAX {
        LongEscalation(base, I64_MAX);
        LongEscalation(base, applied);
      }
    }
  }

  /** Past the fortieth offence every ban has the maximal length. */
  lemma LongEscalation(base: nat, n: nat)
    requires base >= 1 && n > 40
    ensures Min(base * Pow2(n - 1), MAX_SECS) == MAX_SECS
  {
    Pow2Grows(40, n - 1);
    Pow2At40();
    ProductGrows(Pow2(n - 1), 1, base);
  }

  // ---------------------------------------------------------------- cleanup is invisible

  /** Rows that no request can tell apart at time `now`. */
  predicate AlikeRow(p: BanRow, q: BanRow, now: int) {
    || p == q
    || (!BanActive(p, now) && !BanActive(q, now)
        && p.owner == q.owner && p.banCount == q.banCount && p.lastKey == q.lastKey)
  }

  ghost predicate AlikeTables(p: BanTable, q: BanTable, now: int) {
    p.Keys == q.Keys && forall d | d in p :: AlikeRow(p[d], q[d], now)
  }

  /** States that differ at most in how inactive bans are written down. */
  ghost predicate Alike(s: State, t: State) {
    s.(bans := t.bans) == t && AlikeTables(s.bans, t.bans, s.now)
  }

  lemma StatementsKeepAlike(p: BanTable, q: BanTable, now: int, d: Id, owner: string, base: nat, count: nat, key: string)
    requires AlikeTables(p, q, now)
    ensures AlikeTables(OpenRow(p, d, owner), OpenRow(q, d, owner), now)
    ensures AlikeTables(ApplyBan(p, d, count, base, now, key), ApplyBan(q, d, count, base, now, key), now)
    ensures Banned(p, d, now) <==> Banned(q, d, now)
  {
    assert d in p ==> AlikeRow(p[d], q[d], now);
  }

  lemma AdvanceKeepsAlike(base: nat, s: State, t: State, c: nat)
    requires Alike(s, t) && c in s.calls
    ensures Alike(AdvanceCall(base, s, c), AdvanceCall(base, t, c))
  {
    hide AlikeTables, AdvanceCall;
    if s.calls[c].stage.FoundForbidden? || s.calls[c].stage.Counted? {
      WriteKeepsAlike(base, s, t, c);
    } else {
      ReadKeepsAlike(base, s, t, c);
    }
  }

  /** Statements that only read see no difference. */
  lemma ReadKeepsAlike(base: nat, s: State, t: State, c: nat)
    requires Alike(s, t) && c in s.calls && !s.calls[c].stage.FoundForbidden? && !s.calls[c].stage.Counted?
    ensures AdvanceCall(base, t, c) == AdvanceCall(base, s, c).(bans := t.bans)
    ensures AdvanceCall(base, s, c).bans == s.bans && AdvanceCall(base, s, c).now == s.now
  {
    hide KeyPermitted, AlikeTables, Banned, BanActive;
    var call := s.calls[c];
    StatementsKeepAlike(s.bans, t.bans, s.now, call.device, call.owner, base, 0, call.key);
    RowsLookAlike(s.bans, t.bans, s.now, call.device);
  }

  lemma WriteKeepsAlike(base: nat, s: State, t: State, c: nat)
    requires Alike(s, t) && c in s.calls && (s.calls[c].stage.FoundForbidden? || s.calls[c].stage.Counted?)
    ensures Alike(AdvanceCall(base, s, c), AdvanceCall(base, t, c))
  {
    hide OpenRow, ApplyBan, AlikeTables;
    var call := s.calls[c];
    var count := if call.stage.Counted? then call.stage.count else 0;
    StatementsKeepAlike(s.bans, t.bans, s.now, call.device, call.owner, base, count, call.key);
  }

  lemma RowsLookAlike(p: BanTable, q: BanTable, now: int, d: Id)
    requires AlikeTables(p, q, now)
    ensures d in p <==> d in q
    ensures d in p ==> p[d].banCount == q[d].banCount && (BanActive(p[d], now) <==> BanActive(q[d], now))
  {
    assert d in p ==> AlikeRow(p[d], q[d], now);
  }

  lemma StepKeepsAlike(base: nat, s: State, t: State, a: Action)
    requires Alike(s, t)
    ensures Alike(Step(base, s, a), Step(base, t, a))
  {
    if a.Advance? && a.call in s.calls { AdvanceKeepsAlike(base, s, t, a.call); }
  }

  lemma CleanupIsAlike(base: nat, s: State)
    ensures Alike(Step(base, s, Cleanup), s)
  {
  }

  /** A cleanup inserted anywhere in a run changes no stage, answer or offence count later on. */
  lemma {:induction false} CleanupIsInvisible(base: nat, s: State, before: seq<Action>, after: seq<Action>)
    ensures Alike(Exec(base, s, before + [Cleanup] + after), Exec(base, s, before + after))
  {
    hide Step;
    if after == [] {
      assert (before + [Cleanup] + after)[..|before|] == before == before + after;
      CleanupIsAlike(base, Exec(base, s, before));
    } else {
      var last := after[|after| - 1];
      CleanupIsInvisible(base, s, before, after[..|after| - 1]);
      assert (before + [Cleanup] + after)[..|before| + |after|] == before + [Cleanup] + after[..|after| - 1];
      assert (before + after)[..|before| + |after| - 1] == before + after[..|after| - 1];
      StepKeepsAlike(base, Exec(base, s, before + [Cleanup] + after[..|after| - 1]),
                     Exec(base, s, before + after[..|after| - 1]), last);
    }
  }
}
