/** Credential and device requests whose guard has read the caller's policy at an earlier instant than the
    one at which they act. */
module GuardRuns {
  import opened Basics
  import opened Policy
  import opened Tables
  import opened DeviceDeletion
  import opened Sessions
  import opened Credentials
  import opened Integrity
  import opened Audit
  import opened AuditInvariant
  import opened Runs
  import opened Entries
  import opened Handlers
  import opened Confinement
  import opened HandlerRuns
  import opened OwnerIsolation

  /** The tables `db` with the policies of an earlier instant, and the way back. */
  function WithPolicies(db: Db, from: Db): Db { db.(policies := from.policies, policyKeys := from.policyKeys) }

  /** What a request makes of `db` when its guard has read the policies of `guard`. Saving a policy and lifting a
      ban are refused to devices outright; entry requests are those of `EntryRuns`. */
  function Guarded(guard: Db, db: Db, c: Claims, request: Request): Db
    requires !request.ForEntries?
  {
    var allowed := MayManageCredentials(guard, c);
    match request
    case ForKeys(q) => WithPolicies(HandleKeys(WithPolicies(db, guard), c, q), db)
    case ForDevices(q) =>
      match q
      case PostSessionApproval(r, token, hours) =>
        Approve(db, c.owner, RestrictedCaller(guard, c), r, token, HoursGranted(hours)).1
      case DeleteDeviceById(device) =>
        if c.device == Some(device) || !allowed then db else AfterDelete(db, c.owner, device).1
      case PutPolicy(_, _) => HandleDevices(db, c, q)
      case DeleteBan(_) => HandleDevices(db, c, q)
      case _ => if !allowed then db else HandleDevices(db, c.(device := None), q)
  }

  /** When nothing happens between guard and action this is the handler. */
  lemma PromptGuardIsHandler(db: Db, base: nat, c: Claims, request: Request)
    requires !request.ForEntries?
    ensures Guarded(db, db, c, request) == Handle(db, base, c, request)
  {
    hide IsRestricted, RevokeSessions, DeleteApiKeys, MintKey, RevokedSessions, Approve, EnrolDevice, LinkProposal,
      DismissProposal, AfterDelete;
    if request.ForKeys? {
      assert WithPolicies(db, db) == db;
      KeyRequestsKeepReach(db, c, request.forKeys);
    } else {
      PromptDeviceRequest(db, c, request.forDevices);
    }
  }

  lemma PromptDeviceRequest(db: Db, c: Claims, request: DeviceRequest)
    ensures Guarded(db, db, c, ForDevices(request)) == HandleDevices(db, c, request)
  {
    hide IsRestricted, Approve, EnrolDevice, LinkProposal, DismissProposal, AfterDelete, Reject, UpdatePolicy, Unban;
  }

  /** In every run and for every earlier instant of it: if the guard of a request finds the device restricted at
      that instant, then whatever the request does later, also under another policy, stays in the device's slice. */
  lemma RestrictedAtTheGuardIsConfined(now: int, actions: seq<Action>, i: nat, c: Claims, request: Request, d: Id)
    requires i <= |actions| && !request.ForEntries?
    requires c.device == Some(d) && c in Exec(now, actions).claims
    requires var guard := Exec(now, actions[..i]).db; IsRestricted(guard.policies, guard.policyKeys, d)
    ensures var db := Exec(now, actions).db;
            Confined(db, Guarded(Exec(now, actions[..i]).db, db, c, request), d)
  {
    hide Exec, Confined, Guarded, IsRestricted, Traced, Intact;
    var w := Exec(now, actions);
    var guard := Exec(now, actions[..i]).db;
    RunIsSound(now, actions);
    if c.keyId in w.db.apiKeys { ClaimsKeepDevice(w, c); }
    match request
    case ForKeys(q) => GuardedKeysConfined(guard, w.db, c, q, d);
    case ForDevices(q) => GuardedDevicesConfined(guard, w.db, c, q, d);
  }

  lemma GuardedDevicesConfined(guard: Db, db: Db, c: Claims, request: DeviceRequest, d: Id)
    requires Intact(db) && CallerIs(db, c, d) && IsRestricted(guard.policies, guard.policyKeys, d)
    ensures Confined(db, Guarded(guard, db, c, ForDevices(request)), d)
  {
    hide IsRestricted, Confined, Approve, Intact, Validated, AfterDelete, EnrolDevice, LinkProposal;
    Unchanged(db, d);
    match request
    case PostSessionApproval(r, token, hours) => ApprovalConfined(db, c.owner, d, r, token, HoursGranted(hours));
    case _ =>
  }

  lemma GuardedKeysConfined(guard: Db, db: Db, c: Claims, request: KeyRequest, d: Id)
    requires Intact(db) && CallerIs(db, c, d) && IsRestricted(guard.policies, guard.policyKeys, d)
    ensures Confined(db, Guarded(guard, db, c, ForKeys(request)), d)
  {
    hide IsRestricted, Confined, DeleteApiKeys, ForeignKeysHold, IdsBelow;
    var at := WithPolicies(db, guard);
    Unchanged(db, d);
    assert WithPolicies(at, db) == db;
    match request
    case PostRevoke(k) =>
      if MayManageKey(at, c, k) && Revocable(at, c.owner, k) { OwnStatusConfined(db, d, k, Revoked); }
    case DeleteKeyRow(k) =>
      if MayManageKey(at, c, k) && Deletable(at, c.owner, k) {
        OwnDeletionConfined(db, d, k);
        DeletionUnderPolicies(db, guard, k);
      }
    case PostLogout =>
      if Revocable(at, c.owner, c.keyId) { OwnStatusConfined(db, d, c.keyId, Revoked); }
    case _ =>
  }

  lemma DeletionUnderPolicies(db: Db, guard: Db, k: Id)
    ensures WithPolicies(DeleteApiKeys(WithPolicies(db, guard), {k}), db) == DeleteApiKeys(db, {k})
  {
  }
}
