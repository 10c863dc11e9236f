/** Failure counting and escalating temporary blocks per client address bucket. */
module IpBlock {
  import opened Basics
  import opened Escalation

  type Octet = x: int | 0 <= x < 256

  datatype Ip = V4(octets: seq<Octet>) | V6(octets: seq<Octet>)

  predicate IsIp(ip: Ip) { |ip.octets| == if ip.V4? then 4 else 16 }

  const ZEROS: seq<Octet> := [0, 0, 0, 0, 0, 0, 0, 0]

  /** The unit that is counted and blocked: an IPv4 address, or the /64 of an IPv6 address. */
  function Bucket(ip: Ip): Ip
    requires IsIp(ip)
  {
    match ip
    case V4(_) => ip
    case V6(octets) => V6(octets[..8] + ZEROS)
  }

  /** `counter_bucket`, with its loop over the low octets. */
  method CounterBucket(ip: Ip) returns (b: Ip)
    requires IsIp(ip)
    ensures b == Bucket(ip)
  {
    match ip
    case V4(_) => return ip;
    case V6(given) =>
      var octets := new Octet[16](i requires 0 <= i < 16 => given[i]);
      for i := 8 to 16
        invariant octets[..8] == given[..8]
        invariant forall k | 8 <= k < i :: octets[k] == 0
      {
        octets[i] := 0;
      }
      assert octets[..] == octets[..8] + ZEROS;
      return V6(octets[..]);
  }

  /** Two addresses share a bucket exactly when they are the same IPv4 address or two IPv6
      addresses with the same first 64 bits. */
  lemma BucketIsPrefix(a: Ip, b: Ip)
    requires IsIp(a) && IsIp(b)
    ensures Bucket(a) == Bucket(b)
        <==> a.V4? == b.V4? && if a.V4? then a == b else a.octets[..8] == b.octets[..8]
    ensures IsIp(Bucket(a)) && Bucket(Bucket(a)) == Bucket(a)
  {
    if a.V6? {
      assert Bucket(a).octets[..8] == a.octets[..8];
      if b.V6? { assert Bucket(b).octets[..8] == b.octets[..8]; }
    }
  }

  datatype BlockRow = BlockRow(failedCount: nat, blockCount: nat, blockedAt: Option<int>,
                               unblockAt: Option<int>, lastFailure: int)

  type BlockTable = map<Ip, BlockRow>

  /** A block without an end is permanent. */
  predicate BlockActive(row: BlockRow, now: int) {
    row.blockedAt.Some? && (row.unblockAt.None? || row.unblockAt.value > now)
  }

  /** The check made before every request. */
  predicate Refused(table: BlockTable, ip: Ip, now: int)
    requires IsIp(ip)
  {
    Bucket(ip) in table && BlockActive(table[Bucket(ip)], now)
  }

  /** The first statement of `record_auth_failure`. */
  function Accrue(table: BlockTable, bucket: Ip, now: int): BlockTable {
    if bucket in table
    then table[bucket := table[bucket].(failedCount := table[bucket].failedCount + 1, lastFailure := now)]
    else table[bucket := BlockRow(1, 0, None, None, now)]
  }

  function Blocked(row: BlockRow, now: int, base: nat): BlockRow {
    row.(blockedAt := Some(now), blockCount := row.blockCount + 1,
         unblockAt := Some(now + EscalatedSecs(base, row.blockCount + 1)))
  }

  function AfterFailure(table: BlockTable, bucket: Ip, now: int, threshold: nat, base: nat): BlockTable {
    var accrued := Accrue(table, bucket, now);
    var row := accrued[bucket];
    if row.blockedAt.Some? || row.failedCount < threshold then accrued
    else accrued[bucket := Blocked(row, now, base)]
  }

  function AfterSuccess(table: BlockTable, bucket: Ip): BlockTable {
    if bucket in table && table[bucket].failedCount > 0 && table[bucket].blockedAt.None?
    then table[bucket := table[bucket].(failedCount := 0)] else table
  }

  function AfterCleanup(table: BlockTable, now: int): BlockTable {
    map b | b in table ::
      var row := table[b];
      if row.unblockAt.Some? && row.blockedAt.Some? && row.unblockAt.value <= now
      then row.(blockedAt := None, failedCount := 0) else row
  }

  /** The handlers, each run without interruption. */
  class IpBlocks {
    const threshold: nat
    const base: nat
    var now: int
    var table: BlockTable

    constructor (threshold: nat, base: nat, now: int)
      ensures this.threshold == threshold && this.base == base && this.now == now && table == map[]
    {
      this.threshold, this.base, this.now, table := threshold, base, now, map[];
    }

    method Check(ip: Ip) returns (refused: bool)
      requires IsIp(ip)
      ensures refused <==> Refused(table, ip, now)
    {
      var bucket := CounterBucket(ip);
      if bucket !in table || table[bucket].blockedAt.None? { return false; }
      refused := table[bucket].unblockAt.None? || table[bucket].unblockAt.value > now;
    }

    method RecordAuthFailure(ip: Ip)
      requires IsIp(ip)
      modifies this`table
      ensures table == AfterFailure(old(table), Bucket(ip), now, threshold, base)
    {
      var bucket := CounterBucket(ip);
      if bucket in table {
        table := table[bucket := table[bucket].(failedCount := table[bucket].failedCount + 1, lastFailure := now)];
      } else {
        table := table[bucket := BlockRow(1, 0, None, None, now)];
      }
      var row := table[bucket];
      if row.blockedAt.Some? || row.failedCount < threshold { return; }
      var count := row.blockCount + 1;
      var secs := EscalatedSecs(base, count);
      table := table[bucket := row.(blockedAt := Some(now), blockCount := count, unblockAt := Some(now + secs))];
    }

    method ResetFailuresOnSuccess(ip: Ip)
      requires IsIp(ip)
      modifies this`table
      ensures table == AfterSuccess(old(table), Bucket(ip))
    {
      var bucket := CounterBucket(ip);
      if bucket in table && table[bucket].failedCount > 0 && table[bucket].blockedAt.None? {
        table := table[bucket := table[bucket].(failedCount := 0)];
      }
    }
  }

  // ---------------------------------------------------------------- runs

  datatype State = State(now: int, table: BlockTable)

  datatype Op =
    | Failure(ip: Ip)
    | Success(ip: Ip)
    | AdminUnblock(bucket: Ip)
    | Cleanup
    | Tick(secs: nat)

  predicate Proper(op: Op) { (op.Failure? || op.Success?) ==> IsIp(op.ip) }

  function Step(threshold: nat, base: nat, s: State, op: Op): State
    requires Proper(op)
  {
    match op
    case Failure(ip) => s.(table := AfterFailure(s.table, Bucket(ip), s.now, threshold, base))
    case Success(ip) => s.(table := AfterSuccess(s.table, Bucket(ip)))
    case AdminUnblock(bucket) => s.(table := s.table - {bucket})
    case Cleanup => s.(table := AfterCleanup(s.table, s.now))
    case Tick(secs) => s.(now := s.now + secs)
  }

  predicate AllProper(ops: seq<Op>) { forall op | op in ops :: Proper(op) }

  function Exec(threshold: nat, base: nat, s: State, ops: seq<Op>): State
    requires AllProper(ops)
  {
    if ops == [] then s
    else Step(threshold, base, Exec(threshold, base, s, ops[..|ops| - 1]), ops[|ops| - 1])
  }

  predicate FailureOf(op: Op, bucket: Ip)
    requires Proper(op)
  {
    op.Failure? && Bucket(op.ip) == bucket
  }

  /** Steps that forgive the bucket's failures: a success from it, or an administrator. */
  predicate Forgives(op: Op, bucket: Ip)
    requires Proper(op)
  {
    (op.Success? && Bucket(op.ip) == bucket) || (op.AdminUnblock? && op.bucket == bucket)
  }

  function Failures(ops: seq<Op>, bucket: Ip): nat
    requires AllProper(ops)
  {
    if ops == [] then 0
    else Failures(ops[..|ops| - 1], bucket) + if FailureOf(ops[|ops| - 1], bucket) then 1 else 0
  }

  /** Unblocked buckets are always below the threshold. */
  predicate BelowThreshold(threshold: nat, table: BlockTable) {
    forall b | b in table :: table[b].blockedAt.None? ==> table[b].failedCount < threshold
  }

  lemma {:induction false} UnblockedIsBelowThreshold(threshold: nat, base: nat, s: State, ops: seq<Op>)
    requires threshold >= 1 && AllProper(ops) && BelowThreshold(threshold, s.table)
    ensures BelowThreshold(threshold, Exec(threshold, base, s, ops).table)
  {
    if ops != [] { UnblockedIsBelowThreshold(threshold, base, s, ops[..|ops| - 1]); }
  }

  predicate Unblocked(s: State, bucket: Ip) { bucket in s.table ==> s.table[bucket].blockedAt.None? }

  function OffenceCount(s: State, bucket: Ip): nat {
    if bucket in s.table then s.table[bucket].blockCount else 0
  }

  /** The bucket's next offence has just been punished. */
  predicate JustBlocked(base: nat, s: State, bucket: Ip, offence: nat) {
    && bucket in s.table
    && s.table[bucket].blockedAt == Some(s.now)
    && s.table[bucket].blockCount == offence
    && s.table[bucket].unblockAt == Some(s.now + EscalatedSecs(base, offence))
  }

  /** The unblocked bucket has at least `failures` on record, still below the threshold. */
  predicate Remembers(threshold: nat, s: State, bucket: Ip, offences: nat, failures: nat) {
    && failures < threshold
    && Unblocked(s, bucket)
    && OffenceCount(s, bucket) == offences
    && if bucket in s.table then s.table[bucket].failedCount >= failures else failures == 0
  }

  lemma StepRemembers(threshold: nat, base: nat, s: State, op: Op, bucket: Ip, offences: nat, failures: nat)
    requires threshold >= 1 && Proper(op) && !Forgives(op, bucket)
    requires Remembers(threshold, s, bucket, offences, failures)
    ensures var t := Step(threshold, base, s, op);
            || JustBlocked(base, t, bucket, offences + 1)
            || Remembers(threshold, t, bucket, offences, failures + if FailureOf(op, bucket) then 1 else 0)
  {
  }

  /** Failures of an unblocked bucket are remembered until the threshold blocks it. */
  lemma {:induction false} FailuresAccumulate(threshold: nat, base: nat, s: State, ops: seq<Op>, bucket: Ip)
      returns (k: nat)
    requires threshold >= 1 && AllProper(ops) && Unblocked(s, bucket)
    requires forall op | op in ops :: !Forgives(op, bucket)
    ensures k <= |ops|
    ensures var offences := OffenceCount(s, bucket);
            || JustBlocked(base, Exec(threshold, base, s, ops[..k]), bucket, offences + 1)
            || Remembers(threshold, Exec(threshold, base, s, ops), bucket, offences, Failures(ops, bucket))
  {
    hide Step;
    if ops == [] { return 0; }
    var shorter, op, offences := ops[..|ops| - 1], ops[|ops| - 1], OffenceCount(s, bucket);
    k := FailuresAccumulate(threshold, base, s, shorter, bucket);
    if JustBlocked(base, Exec(threshold, base, s, shorter[..k]), bucket, offences + 1) {
      assert shorter[..k] == ops[..k];
    } else {
      k := |ops|;
      assert ops[..k] == ops;
      assert op in ops;
      StepRemembers(threshold, base, Exec(threshold, base, s, shorter), op, bucket, offences, Failures(shorter, bucket));
    }
  }

  /** A block is left alone until its end, whatever else happens, unless an administrator
      removes it. */
  lemma {:induction false} BlockHolds(threshold: nat, base: nat, s: State, ops: seq<Op>, bucket: Ip)
    requires AllProper(ops) && AdminUnblock(bucket) !in ops
    requires bucket in s.table && s.table[bucket].blockedAt.Some?
    requires var end := s.table[bucket].unblockAt;
             end.None? || Exec(threshold, base, s, ops).now < end.value
    ensures var t := Exec(threshold, base, s, ops);
            && bucket in t.table
            && t.table[bucket].blockedAt == s.table[bucket].blockedAt
            && t.table[bucket].unblockAt == s.table[bucket].unblockAt
            && t.table[bucket].blockCount == s.table[bucket].blockCount
  {
    if ops != [] { BlockHolds(threshold, base, s, ops[..|ops| - 1], bucket); }
  }

  lemma {:induction false} ExecSplits(threshold: nat, base: nat, s: State, a: seq<Op>, b: seq<Op>)
    requires AllProper(a) && AllProper(b)
    ensures AllProper(a + b)
    ensures Exec(threshold, base, s, a + b) == Exec(threshold, base, Exec(threshold, base, s, a), b)
  {
    if b == [] {
      assert a + b == a;
    } else {
      ExecSplits(threshold, base, s, a, b[..|b| - 1]);
      assert (a + b)[..|a + b| - 1] == a + b[..|b| - 1];
    }
  }

  /** `threshold` failures from any addresses of an unblocked bucket, not forgiven in between,
      leave every address of the bucket refused from some point of the run on, until the end of
      the block that belongs to its next offence. */
  lemma ThresholdRefusesWholeBucket(threshold: nat, base: nat, s: State, ops: seq<Op>, bucket: Ip)
      returns (k: nat)
    requires threshold >= 1 && base >= 1 && AllProper(ops) && Unblocked(s, bucket)
    requires forall op | op in ops :: !Forgives(op, bucket)
    requires Failures(ops, bucket) >= threshold
    ensures k <= |ops|
    ensures var blocked := Exec(threshold, base, s, ops[..k]);
            var offence := OffenceCount(s, bucket) + 1;
            var end := blocked.now + Min(base * Pow2(offence - 1), MAX_SECS);
            && blocked.now < end
            && forall m, ip | k <= m <= |ops| && IsIp(ip) && Bucket(ip) == bucket
                              && Exec(threshold, base, s, ops[..m]).now < end
               :: Refused(Exec(threshold, base, s, ops[..m]).table, ip, Exec(threshold, base, s, ops[..m]).now)
  {
    k := FailuresAccumulate(threshold, base, s, ops, bucket);
    var offence := OffenceCount(s, bucket) + 1;
    EscalatedSecsExact(base, offence);
    EscalatedSecsPositive(base, offence);
    var blocked := Exec(threshold, base, s, ops[..k]);
    forall m, ip | k <= m <= |ops| && IsIp(ip) && Bucket(ip) == bucket
                   && Exec(threshold, base, s, ops[..m]).now < blocked.table[bucket].unblockAt.value
      ensures Refused(Exec(threshold, base, s, ops[..m]).table, ip, Exec(threshold, base, s, ops[..m]).now)
    {
      assert ops[..m] == ops[..k] + ops[k..m];
      assert forall op | op in ops[k..m] :: op in ops;
      ExecSplits(threshold, base, s, ops[..k], ops[k..m]);
      BlockHolds(threshold, base, blocked, ops[k..m], bucket);
    }
  }

  // ---------------------------------------------------------------- blocks that have run out

  /** The bucket is under a block that has run out and that the cleanup has not cleared yet. */
  predicate Overdue(s: State, bucket: Ip) {
    && bucket in s.table && s.table[bucket].blockedAt.Some?
    && s.table[bucket].unblockAt.Some? && s.table[bucket].unblockAt.value <= s.now
  }

  /** Until the cleanup or an administrator comes, such a bucket is not blocked again, whatever it does. */
  lemma {:induction false} OverdueStays(threshold: nat, base: nat, s: State, ops: seq<Op>, bucket: Ip)
    requires AllProper(ops) && Overdue(s, bucket) && Cleanup !in ops && AdminUnblock(bucket) !in ops
    ensures var t := Exec(threshold, base, s, ops);
            && Overdue(t, bucket) && OffenceCount(t, bucket) == OffenceCount(s, bucket)
            && t.table[bucket].failedCount == s.table[bucket].failedCount + Failures(ops, bucket)
  {
    if ops != [] { OverdueStays(threshold, base, s, ops[..|ops| - 1], bucket); }
  }

  /** The cleanup clears the block and, with it, all these failures. */
  lemma CleanupForgetsFailures(threshold: nat, base: nat, s: State, ops: seq<Op>, bucket: Ip)
    requires AllProper(ops) && Overdue(s, bucket) && Cleanup !in ops && AdminUnblock(bucket) !in ops
    ensures var t := Step(threshold, base, Exec(threshold, base, s, ops), Cleanup);
            bucket in t.table && Unblocked(t, bucket) && t.table[bucket].failedCount == 0
  {
    OverdueStays(threshold, base, s, ops, bucket);
  }

  /** Some address of the bucket is refused at some point of the run. */
  predicate RefusedIn(threshold: nat, base: nat, s: State, ops: seq<Op>, bucket: Ip)
    requires AllProper(ops) && IsIp(bucket)
  {
    exists m | 0 <= m <= |ops| ::
      Refused(Exec(threshold, base, s, ops[..m]).table, bucket, Exec(threshold, base, s, ops[..m]).now)
  }

  /** An admitted bucket that fails `threshold` times before the next cleanup, unforgiven, is blocked for it
      exactly if its last block has been cleared. */
  lemma ThresholdBlocksExactlyIfTheLastBlockIsCleared(threshold: nat, base: nat, s: State, ops: seq<Op>, bucket: Ip)
    requires threshold >= 1 && base >= 1 && AllProper(ops) && IsIp(bucket) && Bucket(bucket) == bucket
    requires forall op | op in ops :: !Forgives(op, bucket) && op != Cleanup
    requires Failures(ops, bucket) >= threshold && !Refused(s.table, bucket, s.now)
    ensures RefusedIn(threshold, base, s, ops, bucket) <==> Unblocked(s, bucket)
  {
    if Unblocked(s, bucket) {
      var k := ThresholdRefusesWholeBucket(threshold, base, s, ops, bucket);
      assert Refused(Exec(threshold, base, s, ops[..k]).table, bucket, Exec(threshold, base, s, ops[..k]).now);
    } else {
      assert Overdue(s, bucket);
      forall m | 0 <= m <= |ops|
        ensures !Refused(Exec(threshold, base, s, ops[..m]).table, bucket, Exec(threshold, base, s, ops[..m]).now)
      {
        assert Forgives(AdminUnblock(bucket), bucket);
        assert forall op | op in ops[..m] :: op in ops;
        assert Cleanup !in ops[..m];
        OverdueStays(threshold, base, s, ops[..m], bucket);
      }
    }
  }

  /** An address that is blocked for its first failure, waits out the second for which it is blocked, and may
      then fail as often as it likes until the cleanup. */
  lemma OverdueBlockShelters(ip: Ip, failures: nat)
    requires IsIp(ip)
    ensures var first := Exec(1, 1, State(0, map[]), [Failure(ip), Tick(1)]);
            var more := seq(failures, _ => Failure(ip));
            && Overdue(first, Bucket(ip)) && !Unblocked(first, Bucket(ip))
            && AllProper(more) && Failures(more, Bucket(ip)) == failures
            && !Refused(Exec(1, 1, first, more).table, ip, Exec(1, 1, first, more).now)
  {
    var first := Exec(1, 1, State(0, map[]), [Failure(ip), Tick(1)]);
    FirstBlockRunsOut(ip);
    var more := seq(failures, _ => Failure(ip));
    AllFailures(ip, failures);
    OverdueStays(1, 1, first, more, Bucket(ip));
  }

  lemma FirstBlockRunsOut(ip: Ip)
    requires IsIp(ip)
    ensures Overdue(Exec(1, 1, State(0, map[]), [Failure(ip), Tick(1)]), Bucket(ip))
  {
    var (start, ops) := (State(0, map[]), [Failure(ip), Tick(1)]);
    assert ops[..1] == [Failure(ip)] && [Failure(ip)][..0] == [];
    assert Exec(1, 1, start, []) == start;
    var blocked := Step(1, 1, start, Failure(ip));
    assert Exec(1, 1, start, [Failure(ip)]) == blocked;
    EscalatedSecsExact(1, 1);
    assert Pow2(0) == 1;
    assert Exec(1, 1, start, ops) == Step(1, 1, blocked, Tick(1));
  }

  lemma {:induction false} AllFailures(ip: Ip, n: nat)
    requires IsIp(ip)
    ensures var more := seq(n, _ => Failure(ip)); AllProper(more) && Failures(more, Bucket(ip)) == n
  {
    var more := seq(n, _ => Failure(ip));
    if n > 0 {
      AllFailures(ip, n - 1);
      assert more[..n - 1] == seq(n - 1, _ => Failure(ip));
    }
  }

  // ---------------------------------------------------------------- what a success forgives

  /** The unblocked bucket has at most `failures` on record, below the threshold, and so many offences. */
  predicate Owes(threshold: nat, s: State, bucket: Ip, offences: nat, failures: nat) {
    && failures < threshold && Unblocked(s, bucket) && OffenceCount(s, bucket) == offences
    && (bucket in s.table ==> s.table[bucket].failedCount <= failures)
  }

  lemma StepOwes(threshold: nat, base: nat, s: State, op: Op, bucket: Ip, offences: nat, failures: nat)
    requires Proper(op) && op != AdminUnblock(bucket) && Owes(threshold, s, bucket, offences, failures)
    requires failures + (if FailureOf(op, bucket) then 1 else 0) < threshold
    ensures Owes(threshold, Step(threshold, base, s, op), bucket, offences,
                 failures + if FailureOf(op, bucket) then 1 else 0)
  {
  }

  lemma {:induction false} FewFailuresOwe(threshold: nat, base: nat, s: State, ops: seq<Op>, bucket: Ip, offences: nat)
    requires AllProper(ops) && AdminUnblock(bucket) !in ops && Owes(threshold, s, bucket, offences, 0)
    requires Failures(ops, bucket) < threshold
    ensures Owes(threshold, Exec(threshold, base, s, ops), bucket, offences, Failures(ops, bucket))
  {
    hide Step;
    if ops != [] {
      var (shorter, op) := (ops[..|ops| - 1], ops[|ops| - 1]);
      assert op in ops;
      FewFailuresOwe(threshold, base, s, shorter, bucket, offences);
      StepOwes(threshold, base, Exec(threshold, base, s, shorter), op, bucket, offences, Failures(shorter, bucket));
    }
  }

  /** A success of an unblocked bucket forgives what it has failed: until it fails `threshold` times again, no
      address of it is refused, and it keeps its count of offences. */
  lemma SuccessForgives(threshold: nat, base: nat, s: State, ip: Ip, ops: seq<Op>, other: Ip)
    requires threshold >= 1 && IsIp(ip) && IsIp(other) && Bucket(other) == Bucket(ip) && Unblocked(s, Bucket(ip))
    requires AllProper(ops) && AdminUnblock(Bucket(ip)) !in ops && Failures(ops, Bucket(ip)) < threshold
    ensures AllProper([Success(ip)] + ops)
    ensures var t := Exec(threshold, base, s, [Success(ip)] + ops);
            && !Refused(t.table, other, t.now)
            && OffenceCount(t, Bucket(ip)) == OffenceCount(s, Bucket(ip))
  {
    var first := [Success(ip)];
    assert first[..0] == [];
    assert Exec(threshold, base, s, []) == s;
    ExecSplits(threshold, base, s, first, ops);
    var forgiven := Exec(threshold, base, s, first);
    assert forgiven == Step(threshold, base, s, Success(ip));
    FewFailuresOwe(threshold, base, forgiven, ops, Bucket(ip), OffenceCount(s, Bucket(ip)));
  }

  /** What happens to one bucket is nothing to another: failures, successes and removals of the one leave the row
      of the other as it is. */
  lemma OtherBucketsStay(threshold: nat, base: nat, s: State, op: Op, bucket: Ip)
    requires Proper(op) && !FailureOf(op, bucket) && !Forgives(op, bucket) && op != Cleanup
    ensures var t := Step(threshold, base, s, op);
            && (bucket in t.table <==> bucket in s.table)
            && (bucket in s.table ==> t.table[bucket] == s.table[bucket])
  {
  }

  /** An administrator's removal admits the bucket at once, and its offences are forgotten. */
  lemma RemovalAdmits(threshold: nat, base: nat, s: State, ip: Ip)
    requires IsIp(ip)
    ensures var t := Step(threshold, base, s, AdminUnblock(Bucket(ip)));
            !Refused(t.table, ip, t.now) && OffenceCount(t, Bucket(ip)) == 0
  {
  }

  /** The cleanup clears exactly the blocks that have run out, with the failures since; it keeps the offences. */
  lemma CleanupClearsExactly(threshold: nat, base: nat, s: State, bucket: Ip)
    ensures var t := Step(threshold, base, s, Cleanup);
            && (bucket in t.table <==> bucket in s.table)
            && (bucket in s.table ==>
                  var row := s.table[bucket];
                  t.table[bucket] == if row.blockedAt.Some? && row.unblockAt.Some? && row.unblockAt.value <= s.now
                                     then row.(blockedAt := None, failedCount := 0) else row)
            && OffenceCount(t, bucket) == OffenceCount(s, bucket)
  {
  }
}
