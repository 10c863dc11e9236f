/** The session-request protocol: challenge, request, approval and delivery. Every function is one
    statement or one transaction on the tables. */
module Sessions {
  import opened Basics
  import opened Bans
  import opened Tables

  const CHALLENGE_SECS: nat := 2 * 60
  const REQUEST_SECS: nat := 15 * 60

  /** The last second that SQLite's date functions can represent, at the end of the year 9999. */
  const LAST_DATE: int := 253402300799

  /** The hours for which `datetime('now', '+N hours')` has a value. */
  predicate HoursRepresentable(now: int, hours: int) { 0 <= hours && now + hours * 3600 <= LAST_DATE }

  /** That value. For a negative count the modifier is malformed, and past the last date there is no
      result; both give NULL. */
  function HoursFromNow(now: int, hours: int): Option<int> {
    if HoursRepresentable(now, hours) then Some(now + hours * 3600) else None
  }

  function Blobs(publicKey: string, aad: Id, plaintext: Secret, column: nat): Blob {
    Blob(column, publicKey, aad, plaintext)
  }

  /** Seals a secret to a device key; only two key types are supported. */
  function WrapForDevice(keyType: string, publicKey: string, aad: Id, plaintext: Secret): Option<Envelope> {
    if keyType != "x25519" && keyType != "p256" then None
    else Some(Envelope(keyType, Blobs(publicKey, aad, plaintext, 0), Blobs(publicKey, aad, plaintext, 1),
                       Blobs(publicKey, aad, plaintext, 2), Blobs(publicKey, aad, plaintext, 3),
                       Blobs(publicKey, aad, plaintext, 4), Blobs(publicKey, aad, plaintext, 5)))
  }

  /** The secret that the holder of a device key finds in an envelope. */
  function Opened(e: Envelope): (string, Secret) { (e.ciphertext.publicKey, e.ciphertext.plaintext) }

  // ---------------------------------------------------------------- challenge and request

  /** `create_challenge`: the row gets the next id and the nonce is the secret after it. */
  function CreateChallenge(db: Db, device: Id): (Result<(Id, Envelope), AppError>, Db) {
    if device !in db.devices then (Err(NotFound), db)
    else
      var (id, nonce) := (db.nextId, db.nextId + 1);
      match WrapForDevice(db.devices[device].keyType, db.devices[device].publicKey, id, nonce)
      case None => (Err(Internal), db)
      case Some(envelope) =>
        (Ok((id, envelope)),
         db.(nextId := db.nextId + 2,
             challenges := db.challenges[id := Challenge(device, Digest(nonce), false, db.now + CHALLENGE_SECS)]))
  }

  predicate ChallengeUsable(db: Db, challenge: Id) {
    && challenge in db.challenges
    && !db.challenges[challenge].consumed
    && db.challenges[challenge].expiresAt > db.now
  }

  /** What a created request returns to the device: its id, poll secret and approval token. */
  datatype Ticket = Ticket(request: Id, pollSecret: Secret, approveToken: Secret)

  /** `create_request` */
  function CreateRequest(db: Db, challenge: Id, nonce: Secret): (Result<Ticket, AppError>, Db) {
    if !ChallengeUsable(db, challenge) then (Err(NotFound), db)
    else if Digest(nonce) != db.challenges[challenge].nonceHash then (Err(NotFound), db)
    else if Banned(db.bans, db.challenges[challenge].device, db.now) then (Err(DeviceBanned), db)
    else
      var row := db.challenges[challenge];
      var ticket := Ticket(db.nextId, db.nextId + 1, db.nextId + 2);
      (Ok(ticket),
       db.(nextId := db.nextId + 3,
           challenges := db.challenges[challenge := row.(consumed := true)],
           requests := db.requests[ticket.request :=
             SessionRequest(Waiting, db.now + REQUEST_SECS, Some(Digest(ticket.pollSecret)), Some(row.device),
                            Digest(ticket.approveToken), None, None, NO_WRAP)]))
  }

  // ---------------------------------------------------------------- approval and rejection

  predicate RequestOpen(db: Db, r: Id) {
    r in db.requests && db.requests[r].status == Waiting && db.requests[r].expiresAt > db.now
  }

  /** The transaction of `approve`. `only` is the caller's own device if the caller is a
      restricted device; such a caller may approve for nobody else. */
  function Approve(db: Db, owner: string, only: Option<Id>, r: Id, token: Secret, hours: int)
    : (Result<Id, AppError>, Db)
  {
    if !RequestOpen(db, r) then (Err(NotFound), db)
    else if Digest(token) != db.requests[r].approveToken then (Err(NotFound), db)
    else if db.requests[r].device.None? then (Err(NotFound), db)
    else
      var d := db.requests[r].device.value;
      if only.Some? && only != Some(d) then (Err(Forbidden), db)
      else if Banned(db.bans, d, db.now) then (Err(DeviceBanned), db)
      else if d !in db.devices then (Err(NotFound), db)
      else if db.devices[d].owner != owner then (Err(Forbidden), db)
      else
        var (key, plaintext) := (db.nextId, db.nextId + 1);
        match WrapForDevice(db.devices[d].keyType, db.devices[d].publicKey, r, plaintext)
        case None => (Err(Internal), db)
        case Some(envelope) =>
          (Ok(key),
           db.(nextId := db.nextId + 2,
               apiKeys := db.apiKeys[key :=
                 ApiKey(Digest(plaintext), "session", Session, Active, HoursFromNow(db.now, hours), owner, Some(d))],
               requests := db.requests[r :=
                 db.requests[r].(status := Approved, sessionKey := Some(key), approvedBy := Some(owner),
                                 wrap := ColumnsOf(envelope))]))
  }

  /** The guarded update of `reject`. */
  function MarkRejected(db: Db, r: Id): Db {
    if r in db.requests && db.requests[r].status == Waiting
    then db.(requests := db.requests[r := db.requests[r].(status := Rejected)]) else db
  }

  /** `reject`: only the owner of the request's device may reject it. */
  function Reject(db: Db, owner: string, r: Id): (Result<(), AppError>, Db) {
    if r !in db.requests || db.requests[r].status != Waiting
       || db.requests[r].device.None? || db.requests[r].device.value !in db.devices then (Err(NotFound), db)
    else if db.devices[db.requests[r].device.value].owner != owner then (Err(Forbidden), db)
    else (Ok(()), MarkRejected(db, r))
  }

  // ---------------------------------------------------------------- polling

  datatype PollAnswer = PollAnswer(status: RequestStatus, envelope: Option<Envelope>)

  /** The first statement of a poll, with the check of the poll secret. */
  function ReadForPoll(db: Db, r: Id, secret: Secret): Result<SessionRequest, AppError> {
    if r !in db.requests then Err(NotFound)
    else if db.requests[r].pollSecret != Some(Digest(secret)) then Err(NotFound)
    else Ok(db.requests[r])
  }

  /** The second statement: the ban check for the device of the row that was read. */
  function CheckForPoll(db: Db, row: SessionRequest): Result<(), AppError> {
    if row.device.Some? && Banned(db.bans, row.device.value, db.now) then Err(DeviceBanned) else Ok(())
  }

  predicate Claimable(db: Db, r: Id) { r in db.requests && db.requests[r].status == Approved }

  /** The guarded update that claims the envelope and clears it. */
  function MarkDelivered(db: Db, r: Id): Db {
    if Claimable(db, r)
    then db.(requests := db.requests[r := db.requests[r].(status := Delivered, wrap := NO_WRAP)]) else db
  }

  /** What the poller answers, from the row it read earlier and whether its claim went through. */
  function AnswerPoll(row: SessionRequest, claimed: bool): Result<PollAnswer, AppError> {
    if row.status != Approved then Ok(PollAnswer(row.status, None))
    else if !claimed then Ok(PollAnswer(Delivered, None))
    else
      match EnvelopeOf(row.wrap)
      case None => Err(Internal)
      case Some(envelope) => Ok(PollAnswer(Approved, Some(envelope)))
  }

  /** A whole poll without interruption. */
  function Poll(db: Db, r: Id, secret: Secret): (Result<PollAnswer, AppError>, Db) {
    match ReadForPoll(db, r, secret)
    case Err(e) => (Err(e), db)
    case Ok(row) =>
      match CheckForPoll(db, row)
      case Err(e) => (Err(e), db)
      case Ok(_) =>
        if row.status != Approved then (AnswerPoll(row, false), db)
        else (AnswerPoll(row, Claimable(db, r)), MarkDelivered(db, r))
  }

  // ---------------------------------------------------------------- what the envelopes hold

  /** The envelope of a challenge opens, with the key of its device, to the one nonce that
      `create_request` will take for it. */
  lemma OnlyTheSealedNonceAnswers(db: Db, device: Id, later: Db, nonce: Secret)
    requires CreateChallenge(db, device).0.Ok?
    requires var c := CreateChallenge(db, device).0.value.0;
             && c in later.challenges
             && later.challenges[c].nonceHash == CreateChallenge(db, device).1.challenges[c].nonceHash
    ensures var (c, envelope) := CreateChallenge(db, device).0.value;
            && Opened(envelope).0 == db.devices[device].publicKey
            && (CreateRequest(later, c, nonce).0.Ok? ==> nonce == Opened(envelope).1)
            && (ChallengeUsable(later, c) && !Banned(later.bans, later.challenges[c].device, later.now) ==>
                  (CreateRequest(later, c, nonce).0.Ok? <==> nonce == Opened(envelope).1))
  {
    hide Banned;
  }

  /** The envelope that an approval writes opens, with the key of the request's device, to the
      secret of exactly the credential it minted, and is bound to the request. */
  lemma ApprovalSealsTheMintedKey(db: Db, owner: string, only: Option<Id>, r: Id, token: Secret, hours: int)
    requires Approve(db, owner, only, r, token, hours).0.Ok?
    ensures var (key, after) := (Approve(db, owner, only, r, token, hours).0.value,
                                 Approve(db, owner, only, r, token, hours).1);
            var device := db.requests[r].device.value;
            && after.requests[r].sessionKey == Some(key) && after.apiKeys[key].device == Some(device)
            && EnvelopeOf(after.requests[r].wrap).Some?
            && var envelope := EnvelopeOf(after.requests[r].wrap).value;
               && Opened(envelope) == (db.devices[device].publicKey, after.apiKeys[key].keyHash.secret)
               && envelope.aad.aad == r
  {
    hide Banned;
  }
}
