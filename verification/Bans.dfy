/** The table `device_bans`: its statements, and the handlers that run them one after another. */
module Bans {
  import opened Basics
  import opened Escalation
  import opened Policy

  datatype BanRow = BanRow(owner: string, bannedAt: Option<int>, unbanAt: Option<int>,
                           banCount: nat, lastKey: Option<string>)

  type BanTable = map<Id, BanRow>

  predicate BanActive(row: BanRow, now: int) { row.bannedAt.Some? && Ahead(row.unbanAt, now) }

  predicate Banned(bans: BanTable, device: Id, now: int) {
    device in bans && BanActive(bans[device], now)
  }

  // ---------------------------------------------------------------- statements

  /** `INSERT ... ON CONFLICT DO NOTHING` with a count of zero. */
  function OpenRow(bans: BanTable, device: Id, owner: string): BanTable {
    if device in bans then bans else bans[device := BanRow(owner, None, None, 0, None)]
  }

  /** The row after the next ban. */
  function Escalate(row: BanRow, base: nat, now: int, key: string): BanRow {
    var count := SaturatingIncrement(row.banCount);
    row.(bannedAt := Some(now), unbanAt := Some(now + EscalatedSecs(base, count)),
         banCount := count, lastKey := Some(key))
  }

  /** Whether the guard `ban_count = ?` of the update lets it through. */
  predicate GuardHolds(bans: BanTable, device: Id, count: nat) {
    device in bans && bans[device].banCount == count
  }

  /** The guarded update that applies a ban. */
  function ApplyBan(bans: BanTable, device: Id, count: nat, base: nat, now: int, key: string): BanTable {
    if GuardHolds(bans, device, count) then bans[device := Escalate(bans[device], base, now, key)] else bans
  }

  function Lifted(row: BanRow): BanRow { row.(bannedAt := None, unbanAt := None) }

  /** `unban`: lifts an active ban of the owner's own device. */
  function LiftBan(bans: BanTable, owners: map<Id, string>, owner: string, device: Id, now: int): BanTable {
    if Banned(bans, device, now) && device in owners && owners[device] == owner
    then bans[device := Lifted(bans[device])] else bans
  }

  predicate Expired(row: BanRow, now: int) {
    row.bannedAt.Some? && row.unbanAt.Some? && row.unbanAt.value <= now
  }

  /** The cleanup statement for bans. */
  function ClearExpired(bans: BanTable, now: int): BanTable {
    map d | d in bans :: if Expired(bans[d], now) then Lifted(bans[d]) else bans[d]
  }

  // ---------------------------------------------------------------- one uninterrupted violation

  /** The whole of `record_violation` when nothing runs in between. */
  function AfterViolation(bans: BanTable, device: Id, owner: string, base: nat, now: int, key: string): BanTable {
    var ready := OpenRow(bans, device, owner);
    if BanActive(ready[device], now) then ready
    else ready[device := Escalate(ready[device], base, now, key)]
  }

  /** It bans the device for exactly the capped doubling of its next offence number, and
      touches no other device. */
  lemma ViolationBans(bans: BanTable, device: Id, owner: string, base: nat, now: int, key: string)
    requires base >= 1 && !Banned(bans, device, now)
    requires device in bans ==> bans[device].banCount < I64_MAX
    ensures var after := AfterViolation(bans, device, owner, base, now, key);
            var offence := (if device in bans then bans[device].banCount else 0) + 1;
            && Banned(after, device, now)
            && after[device].banCount == offence
            && after[device].lastKey == Some(key)
            && after[device].unbanAt == Some(now + Min(base * Pow2(offence - 1), MAX_SECS))
            && after - {device} == bans - {device}
  {
    var offence := (if device in bans then bans[device].banCount else 0) + 1;
    EscalatedSecsExact(base, offence);
    EscalatedSecsPositive(base, offence);
  }

  /** The ban holds exactly until that duration is over, while its row stays as it is. */
  lemma BanEndsExactly(bans: BanTable, device: Id, owner: string, base: nat, now: int, key: string, late: BanTable,
                       t: int)
    requires base >= 1 && !Banned(bans, device, now)
    requires device in bans ==> bans[device].banCount < I64_MAX
    requires var after := AfterViolation(bans, device, owner, base, now, key);
             device in after && device in late && late[device] == after[device]
    ensures var offences := if device in bans then bans[device].banCount else 0;
            Banned(late, device, t) <==> t < now + Min(base * Pow2(offences), 30 * 24 * 60 * 60)
  {
    hide AfterViolation;
    ViolationBans(bans, device, owner, base, now, key);
  }

  /** A violation while a ban is in force leaves it as it is. */
  lemma ActiveBanStays(bans: BanTable, device: Id, owner: string, base: nat, now: int, key: string)
    requires Banned(bans, device, now)
    ensures AfterViolation(bans, device, owner, base, now, key) == bans
  {
  }

  /** A ban changes the standing of no other device. */
  lemma OthersKeepTheirStanding(bans: BanTable, device: Id, owner: string, base: nat, now: int, key: string, other: Id,
                                t: int)
    requires other != device
    ensures Banned(AfterViolation(bans, device, owner, base, now, key), other, t) <==> Banned(bans, other, t)
  {
  }
}
