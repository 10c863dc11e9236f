/** Deleting a device: an ordered sequence of deletions in one transaction. */
module DeviceDeletion {
  import opened Basics
  import opened Policy
  import opened Tables

  /** The credentials attributed to a device. */
  function KeysOfDevice(db: Db, device: Id): set<Id> {
    set k | k in db.apiKeys && db.apiKeys[k].device == Some(device)
  }

  // The statements, in the order in which they run.

  function DeleteAllowedKeys(db: Db, device: Id): Db {
    db.(allowedKeys := set row | row in db.allowedKeys && row.0 !in KeysOfDevice(db, device))
  }

  function DeleteApprovals(db: Db, device: Id): Db {
    db.(approvals := map a | a in db.approvals && db.approvals[a].apiKey !in KeysOfDevice(db, device)
                     :: db.approvals[a])
  }

  function DeleteAuthRequests(db: Db, device: Id): Db {
    db.(authRequests := map r | r in db.authRequests
                                && !(db.authRequests[r].Some? && db.authRequests[r].value in KeysOfDevice(db, device))
                        :: db.authRequests[r])
  }

  predicate RequestOfDevice(db: Db, r: Id, device: Id)
    requires r in db.requests
  {
    || db.requests[r].device == Some(device)
    || (db.requests[r].sessionKey.Some? && db.requests[r].sessionKey.value in KeysOfDevice(db, device))
  }

  function DeleteRequests(db: Db, device: Id): Db {
    db.(requests := map r | r in db.requests && !RequestOfDevice(db, r, device) :: db.requests[r])
  }

  function DeleteChallenges(db: Db, device: Id): Db {
    db.(challenges := map c | c in db.challenges && db.challenges[c].device != device :: db.challenges[c])
  }

  function DeleteProposals(db: Db, device: Id): Db {
    db.(proposals := map p | p in db.proposals && db.proposals[p].result != Some(device) :: db.proposals[p])
  }

  function DeleteKeys(db: Db, device: Id): Db { DeleteApiKeys(db, KeysOfDevice(db, device)) }

  function DeletePolicyKeys(db: Db, device: Id): Db { db.(policyKeys := WithoutDevice(db.policyKeys, device)) }

  function DeletePolicies(db: Db, device: Id): Db { db.(policies := db.policies - {device}) }

  function DeleteBans(db: Db, device: Id): Db { db.(bans := db.bans - {device}) }

  function Statement(n: nat, db: Db, device: Id): Db {
    match n
    case 1 => DeleteAllowedKeys(db, device)
    case 2 => DeleteApprovals(db, device)
    case 3 => DeleteAuthRequests(db, device)
    case 4 => DeleteRequests(db, device)
    case 5 => DeleteChallenges(db, device)
    case 6 => DeleteProposals(db, device)
    case 7 => DeleteKeys(db, device)
    case 8 => DeletePolicyKeys(db, device)
    case 9 => DeletePolicies(db, device)
    case 10 => DeleteBans(db, device)
    case _ => db
  }

  /** The tables after the first `n` of the ten statements that precede the device row itself. */
  function AfterStatements(db: Db, device: Id, n: nat): Db {
    if n == 0 then db else Statement(n, AfterStatements(db, device, n - 1), device)
  }

  lemma StatementsInOrder(db: Db, device: Id)
    ensures AfterStatements(db, device, 10)
         == DeleteBans(DeletePolicies(DeletePolicyKeys(DeleteKeys(DeleteProposals(DeleteChallenges(DeleteRequests(
              DeleteAuthRequests(DeleteApprovals(DeleteAllowedKeys(db, device), device), device), device), device),
              device), device), device), device), device)
  {
    hide DeleteAllowedKeys, DeleteApprovals, DeleteAuthRequests, DeleteRequests, DeleteChallenges, DeleteProposals,
      DeleteKeys, DeletePolicyKeys, DeletePolicies, DeleteBans;
    assert AfterStatements(db, device, 0) == db;
    var s1 := DeleteAllowedKeys(db, device);
    assert AfterStatements(db, device, 1) == s1;
    var s2 := DeleteApprovals(s1, device);
    assert AfterStatements(db, device, 2) == s2;
    var s3 := DeleteAuthRequests(s2, device);
    assert AfterStatements(db, device, 3) == s3;
    var s4 := DeleteRequests(s3, device);
    assert AfterStatements(db, device, 4) == s4;
    var s5 := DeleteChallenges(s4, device);
    assert AfterStatements(db, device, 5) == s5;
    var s6 := DeleteProposals(s5, device);
    assert AfterStatements(db, device, 6) == s6;
    var s7 := DeleteKeys(s6, device);
    assert AfterStatements(db, device, 7) == s7;
    var s8 := DeletePolicyKeys(s7, device);
    assert AfterStatements(db, device, 8) == s8;
    var s9 := DeletePolicies(s8, device);
    assert AfterStatements(db, device, 9) == s9;
    var s10 := DeleteBans(s9, device);
    assert AfterStatements(db, device, 10) == s10;
  }

  /** Once a device is found to be the caller's own, all statements run; a failing one rolls the
      transaction back. */
  function AfterDelete(db: Db, owner: string, device: Id): (Result<(), AppError>, Db) {
    if device !in db.devices || db.devices[device].owner != owner then (Err(NotFound), db)
    else
      match DeleteDeviceRow(AfterStatements(db, device, 10), device)
      case None => (Err(Internal), db)
      case Some(tx) => (Ok(()), tx)
  }

  /** The session key that a request led to is attributed to the request's device. */
  predicate RequestKeysAttributed(requests: map<Id, SessionRequest>, apiKeys: map<Id, ApiKey>) {
    forall r | r in requests && requests[r].sessionKey.Some? && requests[r].sessionKey.value in apiKeys ::
      apiKeys[requests[r].sessionKey.value].device == requests[r].device
  }

  // ---------------------------------------------------------------- what should remain

  function KeysOfOthers(db: Db, device: Id): map<Id, ApiKey> { db.apiKeys - KeysOfDevice(db, device) }

  function AllowedOfOthers(db: Db, device: Id): set<(Id, string)> {
    set row | row in db.allowedKeys && row.0 !in KeysOfDevice(db, device)
  }

  function ApprovalsOfOthers(db: Db, device: Id): map<Id, Approval> {
    map a | a in db.approvals && db.approvals[a].apiKey !in KeysOfDevice(db, device) :: db.approvals[a]
  }

  function AuthRequestsOfOthers(db: Db, device: Id): map<Id, Option<Id>> {
    map r | r in db.authRequests
            && !(db.authRequests[r].Some? && db.authRequests[r].value in KeysOfDevice(db, device))
    :: db.authRequests[r]
  }

  /** Other devices' requests, chosen by their own device column alone. */
  function RequestsOfOthers(db: Db, device: Id): map<Id, SessionRequest> {
    map r | r in db.requests && db.requests[r].device != Some(device) :: db.requests[r]
  }

  function ChallengesOfOthers(db: Db, device: Id): map<Id, Challenge> {
    map c | c in db.challenges && db.challenges[c].device != device :: db.challenges[c]
  }

  function ProposalsOfOthers(db: Db, device: Id): map<Id, Proposal> {
    map p | p in db.proposals && db.proposals[p].result != Some(device) :: db.proposals[p]
  }

  function RecipientsOfOthers(db: Db, device: Id): map<Id, Recipient> {
    map r | r in db.recipients && db.recipients[r].device != device :: db.recipients[r]
  }

  /** The database without the rows of the dependents of a device's credentials. */
  function WithoutDependents(db: Db, device: Id): Db {
    db.(allowedKeys := AllowedOfOthers(db, device), approvals := ApprovalsOfOthers(db, device),
        authRequests := AuthRequestsOfOthers(db, device), requests := RequestsOfOthers(db, device),
        challenges := ChallengesOfOthers(db, device), proposals := ProposalsOfOthers(db, device))
  }

  /** The database without everything that belongs to a device, all other rows unchanged. */
  function Purged(db: Db, device: Id): Db {
    WithoutDependents(db, device).(
      devices := db.devices - {device}, apiKeys := KeysOfOthers(db, device),
      policyKeys := WithoutDevice(db.policyKeys, device), policies := db.policies - {device},
      bans := db.bans - {device}, recipients := RecipientsOfOthers(db, device))
  }

  // ---------------------------------------------------------------- properties

  lemma AllowedKeysGo(db: Db, device: Id)
    requires ForeignKeysHold(db)
    ensures ForeignKeysHold(DeleteAllowedKeys(db, device))
  {
  }

  lemma ApprovalsGo(db: Db, device: Id)
    requires ForeignKeysHold(db)
    ensures ForeignKeysHold(DeleteApprovals(db, device))
  {
  }

  lemma AuthRequestsGo(db: Db, device: Id)
    requires ForeignKeysHold(db)
    ensures ForeignKeysHold(DeleteAuthRequests(db, device))
  {
  }

  lemma RequestsGo(db: Db, device: Id)
    requires ForeignKeysHold(db)
    ensures ForeignKeysHold(DeleteRequests(db, device))
  {
  }

  lemma ChallengesGo(db: Db, device: Id)
    requires ForeignKeysHold(db)
    ensures ForeignKeysHold(DeleteChallenges(db, device))
  {
  }

  lemma ProposalsGo(db: Db, device: Id)
    requires ForeignKeysHold(db)
    ensures ForeignKeysHold(DeleteProposals(db, device))
  {
  }

  lemma PolicyKeysGo(db: Db, device: Id)
    requires ForeignKeysHold(db)
    ensures ForeignKeysHold(DeletePolicyKeys(db, device))
  {
    WithoutDeviceRows(db.policyKeys, device);
  }

  lemma PoliciesGo(db: Db, device: Id)
    requires ForeignKeysHold(db)
    ensures ForeignKeysHold(DeletePolicies(db, device))
  {
  }

  lemma BansGo(db: Db, device: Id)
    requires ForeignKeysHold(db)
    ensures ForeignKeysHold(DeleteBans(db, device))
  {
  }

  /** The foreign keys hold after every statement, in the order given. */
  lemma {:induction false} DeletionKeepsForeignKeys(db: Db, device: Id, n: nat)
    requires ForeignKeysHold(db)
    ensures ForeignKeysHold(AfterStatements(db, device, n))
  {
    hide ForeignKeysHold;
    if n > 0 {
      DeletionKeepsForeignKeys(db, device, n - 1);
      var before := AfterStatements(db, device, n - 1);
      match n
      case 1 => AllowedKeysGo(before, device);
      case 2 => ApprovalsGo(before, device);
      case 3 => AuthRequestsGo(before, device);
      case 4 => RequestsGo(before, device);
      case 5 => ChallengesGo(before, device);
      case 6 => ProposalsGo(before, device);
      case 7 => DeleteApiKeysKeepsForeignKeys(before, KeysOfDevice(before, device));
      case 8 => PolicyKeysGo(before, device);
      case 9 => PoliciesGo(before, device);
      case 10 => BansGo(before, device);
      case _ =>
    }
  }

  /** The dependents of the credentials go first; a request is hit by its key only if it is also
      hit by its device. */
  lemma DependentsGoFirst(db: Db, device: Id)
    requires RequestKeysAttributed(db.requests, db.apiKeys)
    ensures AfterStatements(db, device, 6) == WithoutDependents(db, device)
  {
    ThreeStatements(db, device);
    var s3 := AfterStatements(db, device, 3);
    assert KeysOfDevice(s3, device) == KeysOfDevice(db, device);
    assert DeleteRequests(s3, device).requests == RequestsOfOthers(db, device);
    StatementsFourToSix(s3, device);
    assert AfterStatements(db, device, 4) == Statement(4, s3, device);
    assert AfterStatements(db, device, 5) == Statement(5, AfterStatements(db, device, 4), device);
    assert AfterStatements(db, device, 6) == Statement(6, AfterStatements(db, device, 5), device);
  }

  lemma StatementsFourToSix(s: Db, device: Id)
    ensures Statement(6, Statement(5, Statement(4, s, device), device), device)
         == s.(requests := DeleteRequests(s, device).requests, challenges := ChallengesOfOthers(s, device),
               proposals := ProposalsOfOthers(s, device))
  {
  }

  lemma ThreeStatements(db: Db, device: Id)
    ensures AfterStatements(db, device, 3)
         == db.(allowedKeys := AllowedOfOthers(db, device), approvals := ApprovalsOfOthers(db, device),
                authRequests := AuthRequestsOfOthers(db, device))
  {
    var s1 := Statement(1, db, device);
    assert KeysOfDevice(s1, device) == KeysOfDevice(db, device);
    var s2 := Statement(2, s1, device);
    assert KeysOfDevice(s2, device) == KeysOfDevice(db, device);
    assert AfterStatements(db, device, 1) == s1;
    assert AfterStatements(db, device, 2) == s2;
    assert AfterStatements(db, device, 3) == Statement(3, s2, device);
  }

  /** Once the dependents are gone, deleting the credentials changes no other table. */
  lemma CredentialsGoAlone(db: Db, device: Id)
    requires RequestKeysAttributed(db.requests, db.apiKeys)
    requires RequestsReferTo(db.requests, db.devices, db.apiKeys)
    ensures DeleteKeys(WithoutDependents(db, device), device)
         == WithoutDependents(db, device).(apiKeys := KeysOfOthers(db, device))
  {
    var s := WithoutDependents(db, device);
    assert KeysOfDevice(s, device) == KeysOfDevice(db, device);
    var after := DeleteKeys(s, device);
    assert after.allowedKeys == s.allowedKeys;
    assert after.approvals == s.approvals;
    assert after.authRequests == s.authRequests;
    assert after.requests == s.requests;
  }

  lemma {:induction false} NothingToRemove(table: KeyTable, device: Id)
    requires forall row | row in table :: row.0 != device
    ensures WithoutDevice(table, device) == table
  {
    if table != [] { NothingToRemove(table[1..], device); }
  }

  lemma TenStatements(db: Db, device: Id)
    requires RequestKeysAttributed(db.requests, db.apiKeys)
    requires RequestsReferTo(db.requests, db.devices, db.apiKeys)
    ensures AfterStatements(db, device, 10)
         == Purged(db, device).(devices := db.devices, recipients := db.recipients)
  {
    DependentsGoFirst(db, device);
    CredentialsGoAlone(db, device);
    var s7 := Statement(7, AfterStatements(db, device, 6), device);
    var s8 := Statement(8, s7, device);
    var s9 := Statement(9, s8, device);
    assert AfterStatements(db, device, 7) == s7;
    assert AfterStatements(db, device, 8) == s8;
    assert AfterStatements(db, device, 9) == s9;
    assert AfterStatements(db, device, 10) == Statement(10, s9, device);
  }

  /** The last statement finds nothing that still refers to the device. */
  lemma DeviceRowIsFree(db: Db, device: Id)
    ensures var s := Purged(db, device).(devices := db.devices, recipients := db.recipients);
            DeleteDeviceRow(s, device) == Some(Purged(db, device))
  {
    WithoutDeviceRows(db.policyKeys, device);
    NothingToRemove(WithoutDevice(db.policyKeys, device), device);
    assert (db.policies - {device}) - {device} == db.policies - {device};
    assert (db.bans - {device}) - {device} == db.bans - {device};
  }

  /** `delete` succeeds for every device of the caller and removes exactly what belongs to it:
      all other rows are unchanged, so no credential loses its attribution, and no remaining row
      refers to the device or to one of its credentials. */
  lemma DeleteRemovesExactlyTheDevice(db: Db, owner: string, device: Id)
    requires ForeignKeysHold(db) && RequestKeysAttributed(db.requests, db.apiKeys)
    requires device in db.devices && db.devices[device].owner == owner
    ensures AfterDelete(db, owner, device) == (Ok(()), Purged(db, device))
    ensures ForeignKeysHold(Purged(db, device))
  {
    TenStatements(db, device);
    DeviceRowIsFree(db, device);
    PurgedKeepsForeignKeys(db, device);
  }

  lemma PurgedKeepsForeignKeys(db: Db, device: Id)
    requires ForeignKeysHold(db) && RequestKeysAttributed(db.requests, db.apiKeys)
    ensures ForeignKeysHold(Purged(db, device))
    ensures RequestKeysAttributed(Purged(db, device).requests, Purged(db, device).apiKeys)
  {
    WithoutDeviceRows(db.policyKeys, device);
  }
}
