/** Why requests are refused: which of the conditions that do not hold decides the answer. */
module Refusals {
  import opened Basics
  import opened Bans
  import opened Policy
  import opened Tables
  import opened Sessions
  import opened Credentials
  import opened Entries
  import opened Handlers
  import opened Access
  import opened EntryAccess

  /** Keys that the caller may not manage are forbidden, whether or not they exist; foreign ones, and those in the
      wrong state, are not found. */
  lemma KeyRequestRefused(db: Db, c: Claims, k: Id)
    ensures var own := k in db.apiKeys && db.apiKeys[k].owner == c.owner;
            && RevokeById(db, c, k).0
               == (if !MayManageKey(db, c, k) then Err(Forbidden)
                   else if own && db.apiKeys[k].status != Revoked && db.apiKeys[k].status != Used then Ok(())
                   else Err(NotFound))
            && DeleteById(db, c, k).0
               == (if !MayManageKey(db, c, k) then Err(Forbidden)
                   else if own && (db.apiKeys[k].status == Revoked || db.apiKeys[k].status == Used) then Ok(())
                   else Err(NotFound))
            && (RevokeById(db, c, k).0.Err? ==> RevokeById(db, c, k).1 == db)
            && (DeleteById(db, c, k).0.Err? ==> DeleteById(db, c, k).1 == db)
            && (DeleteRevokedSessions(db, c).0.Err? ==> DeleteRevokedSessions(db, c) == (Err(Forbidden), db))
  {
    hide MayManageKey, MayManageCredentials, DeleteApiKeys;
  }

  /** An approval that is closed, over, or of another owner's key is not found; a wrong confirmation is forbidden. */
  lemma ApprovalRefused(db: Db, c: Claims, a: Id, confirm: Secret)
    ensures var may := MayManageCredentials(db, c);
            var there := a in db.approvals && db.approvals[a].status == Open
                         && db.approvals[a].apiKey in db.apiKeys && db.apiKeys[db.approvals[a].apiKey].owner == c.owner;
            && (ApproveKey(db, c, a, confirm).0.Err? ==>
                  && ApproveKey(db, c, a, confirm).1 == db
                  && (ApproveKey(db, c, a, confirm).0 == Err(NotFound) <==>
                        may && !(there && db.now < db.approvals[a].expiresAt))
                  && (ApproveKey(db, c, a, confirm).0 == Err(Forbidden) <==>
                        !may || (there && db.now < db.approvals[a].expiresAt)))
            && (RejectKey(db, c, a).0.Err? ==>
                  RejectKey(db, c, a) == (if may then Err(NotFound) else Err(Forbidden), db))
  {
    hide RestrictedCaller, DeclineApproval;
    DecliningShows(db, c.owner, a);
  }

  /** A challenge that does not exist, is used up or over, or is answered wrongly is not found; only then a ban
      counts. */
  lemma AnswerRefused(db: Db, x: Id, nonce: Secret)
    requires CreateRequest(db, x, nonce).0.Err?
    ensures var right := x in db.challenges && !db.challenges[x].consumed && db.now < db.challenges[x].expiresAt
                         && db.challenges[x].nonceHash.secret == nonce;
            CreateRequest(db, x, nonce) == (if right then Err(DeviceBanned) else Err(NotFound), db)
            && (right ==> Banned(db.bans, db.challenges[x].device, db.now))
  {
    hide Banned;
  }

  /** A session approval is refused as not found for a request that is not open or a wrong token, then as forbidden
      for another device's caller, as banned, and as forbidden for another owner. */
  lemma SessionApprovalRefused(db: Db, c: Claims, r: Id, token: Secret, hours: Option<int>)
    requires ApproveSession(db, c, r, token, hours).0.Err?
    ensures ApproveSession(db, c, r, token, hours).1 == db
    ensures var e := ApproveSession(db, c, r, token, hours).0.error;
            var right := r in db.requests && db.requests[r].status == Waiting && db.now < db.requests[r].expiresAt
                         && db.requests[r].approveToken.secret == token && db.requests[r].device.Some?;
            if !right then e == NotFound
            else
              var d := db.requests[r].device.value;
              if !MayManageCredentials(db, c) && c.device != Some(d) then e == Forbidden
              else if Banned(db.bans, d, db.now) then e == DeviceBanned
              else if d !in db.devices then e == NotFound
              else e == if db.devices[d].owner != c.owner then Forbidden else Internal
  {
    hide Banned, IsRestricted;
  }

  /** A rejection is forbidden to restricted devices and to other owners; a request that is not waiting is not
      found. */
  lemma SessionRejectionRefused(db: Db, c: Claims, r: Id)
    requires RejectSession(db, c, r).0.Err?
    ensures var there := r in db.requests && db.requests[r].status == Waiting
                         && db.requests[r].device.Some? && db.requests[r].device.value in db.devices;
            RejectSession(db, c, r)
            == (if !MayManageCredentials(db, c) || there then Err(Forbidden) else Err(NotFound), db)
  {
    hide RestrictedCaller;
  }

  /** Requests about devices and proposals are forbidden to restricted devices, unbanning to all; whatever else is
      wrong is not found. */
  lemma DeviceRequestRefused(db: Db, c: Claims, x: Id, token: Secret, device: Id)
    ensures LinkProposed(db, c, x, token, device).0.Err? ==>
              LinkProposed(db, c, x, token, device)
              == (if MayManageCredentials(db, c) then Err(NotFound) else Err(Forbidden), db)
    ensures RejectProposed(db, c, x).0.Err? ==>
              RejectProposed(db, c, x) == (if MayManageCredentials(db, c) then Err(NotFound) else Err(Forbidden), db)
    ensures Unban(db, c, device).0.Err? ==>
              Unban(db, c, device) == (if c.device.None? then Err(NotFound) else Err(Forbidden), db)
    ensures c.device == Some(device) || !MayManageCredentials(db, c) ==>
              RemoveDevice(db, c, device) == (Err(Forbidden), db)
    ensures c.device != Some(device) && MayManageCredentials(db, c)
            && (device !in db.devices || db.devices[device].owner != c.owner) ==>
              RemoveDevice(db, c, device) == (Err(NotFound), db)
  {
    hide RestrictedCaller, LiftBan, DismissProposal;
  }

  /** A read or write whose device check passes is forbidden for a name outside the list, before anything is looked
      up; what is missing or over is not found; what is sealed is forbidden, and what is zero-trust is told so by key
      and forbidden to administrators. */
  lemma EntryRequestRefused(db: Db, base: nat, c: Claims, allowed: Option<seq<string>>, key: string)
    requires AuthorizeCaller(db, base, c, key).0.Ok?
    ensures var there := (key, c.owner) in db.kv
                         && (db.kv[(key, c.owner)].expiresAt.Some? ==> db.now < db.kv[(key, c.owner)].expiresAt.value);
            && (GetEntry(db, base, c, allowed, key).0.Err? ==>
                  GetEntry(db, base, c, allowed, key)
                  == (Err(if allowed.Some? && key !in allowed.value then Forbidden
                          else if !there then NotFound
                          else if db.kv[(key, c.owner)].deviceEncrypted then Forbidden else ZeroTrustRequired), db))
            && (AdminRead(db, base, c, key).0.Err? ==>
                  AdminRead(db, base, c, key) == (Err(if there then Forbidden else NotFound), db))
  {
    hide AuthorizeCaller, Slide;
  }

  lemma EntryChangeRefused(db: Db, base: nat, c: Claims, allowed: Option<seq<string>>, admin: Option<string>,
                           key: string, body: EntryBody)
    requires AuthorizeCaller(db, base, c, key).0.Ok?
    ensures PutByKey(db, base, c, allowed, admin, key, body).0.Err? ==>
              PutByKey(db, base, c, allowed, admin, key, body) == (Err(Forbidden), db)
    ensures DeleteByKey(db, base, c, allowed, key).0.Err? ==>
              DeleteByKey(db, base, c, allowed, key)
              == (Err(if allowed.Some? && key !in allowed.value then Forbidden else NotFound), db)
    ensures AdminDelete(db, base, c, key).0.Err? ==> AdminDelete(db, base, c, key) == (Err(NotFound), db)
  {
    hide AuthorizeCaller, PutEntry, DropEntry;
    PassedCheckChangesNothing(db, base, c, key);
  }

  /** A claim may outlive its device. Nothing is then left that bans it or limits it, unless its policy row is; and a
      violation cannot be recorded, which fails the request and changes nothing. */
  lemma GoneDeviceRefused(db: Db, base: nat, c: Claims, key: string)
    requires c.device.Some? && c.device.value !in db.devices && c.device.value !in db.bans
    ensures AuthorizeCaller(db, base, c, key)
         == (if KeyPermitted(db.policies, db.policyKeys, c.device.value, key) then Ok(()) else Err(Internal), db)
  {
    hide KeyPermitted;
  }

  /** A refused device check is the answer of every entry request of that caller, and changes no entry. */
  lemma CheckDecidesFirst(db: Db, base: nat, c: Claims, allowed: Option<seq<string>>, admin: Option<string>,
                          key: string, body: EntryBody)
    requires AuthorizeCaller(db, base, c, key).0.Err?
    ensures var (refused, after) := AuthorizeCaller(db, base, c, key);
            && GetEntry(db, base, c, allowed, key) == (Err(refused.error), after)
            && AdminRead(db, base, c, key) == (Err(refused.error), after)
            && AdminWrite(db, base, c, key, body) == (refused, after)
            && AdminDelete(db, base, c, key) == (refused, after)
            && PutByKey(db, base, c, allowed, admin, key, body) == (refused, after)
            && DeleteByKey(db, base, c, allowed, key) == (refused, after)
            && after.kv == db.kv
  {
    hide PutEntry, DropEntry, Slide;
  }

  /** A device of another owner is not found; a device that its policy refuses the name is banned if it asks itself,
      and refused if another one asks for it. */
  lemma FetchRefused(db: Db, base: nat, c: Claims, device: Id, key: string)
    requires FetchDeviceKv(db, base, c, device, key).0.Err?
    ensures device !in db.devices || db.devices[device].owner != c.owner ==>
              FetchDeviceKv(db, base, c, device, key) == (Err(NotFound), db)
    ensures device in db.devices && db.devices[device].owner == c.owner && AuthorizeCaller(db, base, c, key).0.Err? ==>
              && FetchDeviceKv(db, base, c, device, key).0.error == AuthorizeCaller(db, base, c, key).0.error
              && FetchDeviceKv(db, base, c, device, key).1 == AuthorizeCaller(db, base, c, key).1
    ensures device in db.devices && db.devices[device].owner == c.owner && AuthorizeCaller(db, base, c, key).0.Ok? ==>
              FetchDeviceKv(db, base, c, device, key)
              == (Err(if c.device != Some(device) && Banned(db.bans, device, db.now) then DeviceBanned
                      else if c.device != Some(device) && !KeyPermitted(db.policies, db.policyKeys, device, key)
                      then Forbidden else NotFound), db)
  {
    hide KeyPermitted, Banned, AuthorizeCaller, Touch;
  }

  /** A device-encrypted write for nobody is forbidden; one for an unknown device, or for one twice, fails as a
      whole. */
  lemma SealRefused(db: Db, base: nat, c: Claims, key: string, sealed: string, devices: seq<Id>)
    requires AuthorizeCaller(db, base, c, key).0.Ok? && WriteDeviceKv(db, base, c, key, sealed, devices).0.Err?
    ensures WriteDeviceKv(db, base, c, key, sealed, devices) == (Err(if devices == [] then Forbidden else Internal), db)
  {
    hide AuthorizeCaller, NewRecipients, WithoutEntry;
  }

  /** A challenge for an unknown device is not found, one for a device with another key type fails. */
  lemma ChallengeRefused(db: Db, d: Id)
    requires CreateChallenge(db, d).0.Err?
    ensures CreateChallenge(db, d) == (if d in db.devices then Err(Internal) else Err(NotFound), db)
  {
  }
}
