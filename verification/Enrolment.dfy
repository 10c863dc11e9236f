/** Devices from their proposal to their removal: exactly when each request about them succeeds, and what it
    leaves behind. */
module Enrolment {
  import opened Basics
  import opened Escalation
  import opened Policy
  import opened Bans
  import opened Tables
  import opened DeviceDeletion
  import opened Sessions
  import opened Credentials
  import opened Integrity
  import opened Handlers
  import opened Housekeeping

  // ---------------------------------------------------------------- proposal, enrolment and link

  /** A device is enrolled exactly if its owner has no other one of that name; it is the owner's, with the keys of
      the ceremony. */
  lemma EnrolmentSucceedsExactly(db: Db, c: Claims, name: string, publicKey: string, keyType: string)
    ensures var (r, after) := Register(db, c, name, publicKey, keyType);
            && r == (if !MayManageCredentials(db, c) then Err(Forbidden)
                     else if exists d | d in db.devices :: db.devices[d].owner == c.owner && db.devices[d].name == name
                     then Err(Conflict) else Ok(db.nextId))
            && after.devices == (if r.Err? then db.devices
                                 else db.devices[db.nextId := Device(c.owner, name, publicKey, keyType, None)])
            && after.apiKeys == db.apiKeys && after.policies == db.policies && after.bans == db.bans
  {
    hide RestrictedCaller;
  }

  /** A link succeeds exactly for a pending proposal, with its token, to an own device with the proposed key. */
  lemma LinkSucceedsExactly(db: Db, c: Claims, p: Id, token: Secret, device: Id)
    ensures LinkProposed(db, c, p, token, device).0.Ok? <==>
              && MayManageCredentials(db, c) && p in db.proposals && db.proposals[p].status == Proposed
              && db.proposals[p].confirmToken.secret == token
              && device in db.devices && db.devices[device].owner == c.owner
              && db.devices[device].publicKey == db.proposals[p].publicKey
              && db.devices[device].keyType == db.proposals[p].keyType
    ensures LinkProposed(db, c, p, token, device).0.Err? ==> LinkProposed(db, c, p, token, device).1 == db
  {
    hide RestrictedCaller;
  }

  /** It does not matter whether the proposal is over: until a cleanup has marked it, a link is answered alike at
      every time. */
  lemma LinkLooksAtNoEnd(db: Db, c: Claims, p: Id, token: Secret, device: Id, late: int)
    ensures LinkProposed(db.(now := late), c, p, token, device).0 == LinkProposed(db, c, p, token, device).0
    ensures LinkProposed(db.(now := late), c, p, token, device).1.proposals
         == LinkProposed(db, c, p, token, device).1.proposals
  {
    hide IsRestricted;
  }

  /** From proposal to link: the owner enrols the proposed key under some name, and with the token of the proposal
      links the two; then the proposal names that device and its owner. */
  lemma ProposedDeviceIsLinked(db: Db, c: Claims, name: string, publicKey: string, keyType: string, own: string)
    requires Register(Propose(db, name, publicKey, keyType), c, own, publicKey, keyType).0.Ok?
    ensures var (p, token) := (db.nextId, db.nextId + 1);
            var (d, enrolled) := (Register(Propose(db, name, publicKey, keyType), c, own, publicKey, keyType).0.value,
                                  Register(Propose(db, name, publicKey, keyType), c, own, publicKey, keyType).1);
            var (r, linked) := LinkProposed(enrolled, c, p, token, d);
            && r == Ok(()) && p in linked.proposals
            && linked.proposals[p]
               == Proposal(name, publicKey, keyType, Confirmed, Some(d), Digest(token), db.now + 1800, Some(c.owner))
            && d in linked.devices && linked.devices[d].owner == c.owner && linked.devices[d].name == own
  {
    hide IsRestricted, NameTaken;
  }

  /** A proposal that is left alone stays open for exactly thirty minutes: cleanups keep it until then, and time it
      out after. */
  lemma ProposalStaysOpen(db: Db, name: string, publicKey: string, keyType: string, late: Db)
    requires var after := Propose(db, name, publicKey, keyType);
             db.nextId in after.proposals && db.nextId in late.proposals
             && late.proposals[db.nextId] == after.proposals[db.nextId]
    ensures db.nextId in Cleaned(late).proposals
    ensures Cleaned(late).proposals[db.nextId].status
         == if late.now < db.now + 30 * 60 then Proposed else TimedOut
  {
    OnlyOverdueRowsAreMarked(late, db.nextId);
  }

  /** A proposal is dismissed exactly while it is open. */
  lemma DismissalSucceedsExactly(db: Db, c: Claims, p: Id)
    ensures RejectProposed(db, c, p).0.Ok? <==>
              MayManageCredentials(db, c) && p in db.proposals && db.proposals[p].status == Proposed
    ensures RejectProposed(db, c, p).0.Ok? ==>
              var after := RejectProposed(db, c, p).1;
              after == db.(proposals := db.proposals[p := db.proposals[p].(status := Dismissed)])
  {
    hide RestrictedCaller;
    if p in db.proposals && db.proposals[p].status == Proposed {
      assert DismissProposal(db, p).proposals[p].status == Dismissed;
    }
  }

  // ---------------------------------------------------------------- session requests

  /** A session request is rejected exactly while it is waiting, by the owner of its device. */
  lemma RejectionSucceedsExactly(db: Db, c: Claims, r: Id)
    ensures RejectSession(db, c, r).0.Ok? <==>
              && MayManageCredentials(db, c) && r in db.requests && db.requests[r].status == Waiting
              && db.requests[r].device.Some? && db.requests[r].device.value in db.devices
              && db.devices[db.requests[r].device.value].owner == c.owner
    ensures RejectSession(db, c, r).0.Ok? ==>
              var after := RejectSession(db, c, r).1;
              after == db.(requests := db.requests[r := db.requests[r].(status := Rejected)])
  {
    hide RestrictedCaller;
  }

  // ---------------------------------------------------------------- bans

  /** A device is unbanned exactly by its owner, from no device, while it is banned. Its offences stay counted, and
      no other device is touched. */
  lemma UnbanSucceedsExactly(db: Db, c: Claims, device: Id, t: int)
    ensures Unban(db, c, device).0.Ok? <==>
              && c.device.None? && device in db.devices && db.devices[device].owner == c.owner
              && Banned(db.bans, device, db.now)
    ensures Unban(db, c, device).0.Ok? ==>
              var after := Unban(db, c, device).1;
              && !Banned(after.bans, device, t) && device in after.bans && device in db.bans
              && after.bans[device].banCount == db.bans[device].banCount
              && after.bans - {device} == db.bans - {device}
    ensures Unban(db, c, device).0.Err? ==> Unban(db, c, device).1 == db
  {
    hide LiftBan;
    LiftingShows(db.bans, OwnersOf(db.devices), c.owner, device, db.now, t);
  }

  lemma LiftingShows(bans: BanTable, owners: map<Id, string>, owner: string, device: Id, now: int, t: int)
    ensures var lifted := LiftBan(bans, owners, owner, device, now);
            if Banned(bans, device, now) && device in owners && owners[device] == owner
            then lifted != bans && !Banned(lifted, device, t) && device in lifted && device in bans
                 && lifted[device].banCount == bans[device].banCount && lifted - {device} == bans - {device}
            else lifted == bans
  {
    if Banned(bans, device, now) && device in owners && owners[device] == owner {
      assert LiftBan(bans, owners, owner, device, now)[device].bannedAt != bans[device].bannedAt;
    }
  }

  /** What the check of a device answers for a name: nothing for a caller without a device; a ban, for a banned
      device; and a new ban, for a device whose policy refuses the name. */
  lemma DeviceCheckAnswers(db: Db, base: nat, c: Claims, key: string, d: Id)
    requires base >= 1 && c.device == Some(d) && d in db.devices
    requires d in db.bans ==> db.bans[d].banCount < I64_MAX
    ensures var (r, after) := AuthorizeCaller(db, base, c, key);
            && (r == if !Banned(db.bans, d, db.now) && KeyPermitted(db.policies, db.policyKeys, d, key) then Ok(())
                     else Err(DeviceBanned))
            && (Banned(after.bans, d, db.now) <==> r.Err?)
            && (r.Ok? || Banned(db.bans, d, db.now) ==> after == db)
  {
    hide KeyPermitted, Banned, AfterViolation;
    if !Banned(db.bans, d, db.now) { ViolationBans(db.bans, d, c.owner, base, db.now, key); }
  }

  lemma OnlyDevicesAreChecked(db: Db, base: nat, c: Claims, key: string)
    requires c.device.None?
    ensures AuthorizeCaller(db, base, c, key) == (Ok(()), db)
  {
  }

  // ---------------------------------------------------------------- removal

  predicate OfDevice(db: Db, k: Id, device: Id) { k in db.apiKeys && db.apiKeys[k].device == Some(device) }

  /** A device is removed exactly by its owner, by a caller that may manage credentials and is not that device. */
  lemma RemovalSucceedsExactly(db: Db, c: Claims, device: Id)
    requires ForeignKeysHold(db) && RequestKeysAttributed(db.requests, db.apiKeys)
    ensures RemoveDevice(db, c, device).0.Ok? <==>
              && c.device != Some(device) && MayManageCredentials(db, c)
              && device in db.devices && db.devices[device].owner == c.owner
    ensures RemoveDevice(db, c, device)
         == (RemoveDevice(db, c, device).0, if RemoveDevice(db, c, device).0.Ok? then Purged(db, device) else db)
  {
    hide RestrictedCaller, AfterDelete, Purged, ForeignKeysHold, RequestKeysAttributed;
    if device in db.devices && db.devices[device].owner == c.owner {
      DeleteRemovesExactlyTheDevice(db, c.owner, device);
    } else {
      ForeignDeviceStays(db, c.owner, device);
    }
  }

  lemma ForeignDeviceStays(db: Db, owner: string, device: Id)
    requires device !in db.devices || db.devices[device].owner != owner
    ensures AfterDelete(db, owner, device) == (Err(NotFound), db)
  {
  }

  /** With it go exactly its credentials, its requests, challenges and linked proposals, its policy and ban, what
      is sealed for it, and the approvals and name lists of its credentials; any other row of these stays as it is. */
  lemma RemovedRows(db: Db, device: Id, x: Id, n: string)
    ensures var after := Purged(db, device);
            && (x in after.devices <==> x in db.devices && x != device)
            && (x in after.apiKeys <==> x in db.apiKeys && db.apiKeys[x].device != Some(device))
            && (x in after.requests <==> x in db.requests && db.requests[x].device != Some(device))
            && (x in after.challenges <==> x in db.challenges && db.challenges[x].device != device)
            && (x in after.proposals <==> x in db.proposals && db.proposals[x].result != Some(device))
            && (x in after.recipients <==> x in db.recipients && db.recipients[x].device != device)
            && (x in after.policies <==> x in db.policies && x != device)
            && (x in after.bans <==> x in db.bans && x != device)
            && (x in after.approvals <==> x in db.approvals && !OfDevice(db, db.approvals[x].apiKey, device))
            && ((x, n) in after.allowedKeys <==> (x, n) in db.allowedKeys && !OfDevice(db, x, device))
            && ((x, n) in after.policyKeys <==> (x, n) in db.policyKeys && x != device)
  {
    WithoutDeviceRows(db.policyKeys, device);
  }

  lemma RemainingRows(db: Db, device: Id, x: Id)
    ensures var after := Purged(db, device);
            && (x in after.devices ==> after.devices[x] == db.devices[x])
            && (x in after.apiKeys ==> after.apiKeys[x] == db.apiKeys[x])
            && (x in after.requests ==> after.requests[x] == db.requests[x])
            && (x in after.challenges ==> after.challenges[x] == db.challenges[x])
            && (x in after.proposals ==> after.proposals[x] == db.proposals[x])
            && (x in after.recipients ==> after.recipients[x] == db.recipients[x])
            && (x in after.policies ==> after.policies[x] == db.policies[x])
            && (x in after.bans ==> after.bans[x] == db.bans[x])
            && (x in after.approvals ==> after.approvals[x] == db.approvals[x])
            && after.kv == db.kv && after.bodies == db.bodies && after.now == db.now
  {
  }
}
