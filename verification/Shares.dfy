/** One-time shares: a ciphertext that can be fetched once. */
module Shares {
  import opened Basics

  /** A row of `one_time_shares`. */
  datatype Share = Share(owner: string, kvKey: string, ciphertext: string, nonce: string, expiresAt: Option<int>)

  type ShareTable = map<Id, Share>

  predicate Claimable(shares: ShareTable, id: Id, now: int) {
    id in shares && Unexpired(shares[id].expiresAt, now)
  }

  function ClaimAnswer(shares: ShareTable, id: Id, now: int): Result<Share, AppError> {
    if Claimable(shares, id, now) then Ok(shares[id]) else Err(NotFound)
  }

  function AfterClaim(shares: ShareTable, id: Id, now: int): ShareTable {
    if Claimable(shares, id, now) then shares - {id} else shares
  }

  function DropShares(shares: ShareTable, now: int): ShareTable {
    map s | s in shares && Unexpired(shares[s].expiresAt, now) :: shares[s]
  }

  class ShareStore {
    var now: int
    var nextId: Id
    var shares: ShareTable

    constructor (now: int)
      ensures this.now == now && nextId == 0 && shares == map[]
    {
      this.now, nextId, shares := now, 0, map[];
    }

    method CreateShare(share: Share) returns (id: Id)
      modifies this
      ensures now == old(now) && nextId == old(nextId) + 1 && id == old(nextId)
      ensures shares == old(shares)[id := share]
    {
      id := nextId;
      nextId := nextId + 1;
      shares := shares[id := share];
    }

    /** `claim_share`: the read and the deletion are one transaction. */
    method ClaimShare(id: Id) returns (r: Result<Share, AppError>)
      modifies this
      ensures now == old(now) && nextId == old(nextId)
      ensures r == ClaimAnswer(old(shares), id, now) && shares == AfterClaim(old(shares), id, now)
    {
      var tx := shares;
      if id !in tx { return Err(NotFound); }
      var row := tx[id];
      if row.expiresAt.Some? && row.expiresAt.value <= now { return Err(NotFound); }
      tx := tx - {id};
      shares := tx;
      return Ok(row);
    }
  }

  // ---------------------------------------------------------------- runs

  datatype Claim = Claim(id: Id, answer: Result<Share, AppError>)

  /** The table, everything ever created, and every claim with its answer. */
  datatype State = State(now: int, nextId: Id, shares: ShareTable, created: map<Id, Share>, claims: seq<Claim>)

  datatype Action = Create(share: Share) | ClaimIt(id: Id) | Cleanup | Tick(secs: nat)

  function Step(s: State, a: Action): State {
    match a
    case Create(share) =>
      s.(nextId := s.nextId + 1, shares := s.shares[s.nextId := share], created := s.created[s.nextId := share])
    case ClaimIt(id) =>
      s.(claims := s.claims + [Claim(id, ClaimAnswer(s.shares, id, s.now))], shares := AfterClaim(s.shares, id, s.now))
    case Cleanup => s.(shares := DropShares(s.shares, s.now))
    case Tick(secs) => s.(now := s.now + secs)
  }

  function Exec(now: int, actions: seq<Action>): State {
    if actions == [] then State(now, 0, map[], map[], [])
    else Step(Exec(now, actions[..|actions| - 1]), actions[|actions| - 1])
  }

  /** Nothing that was handed out is still in the table, and nothing is handed out twice. */
  ghost predicate Sound(s: State) {
    && (forall id | id in s.shares :: id < s.nextId && id in s.created && s.created[id] == s.shares[id])
    && (forall id | id in s.created :: id < s.nextId)
    && (forall i | 0 <= i < |s.claims| && s.claims[i].answer.Ok? ::
          && s.claims[i].id !in s.shares
          && s.claims[i].id in s.created && s.claims[i].answer == Ok(s.created[s.claims[i].id]))
    && (forall i, j | 0 <= i < j < |s.claims| && s.claims[i].answer.Ok? && s.claims[j].answer.Ok? ::
          s.claims[i].id != s.claims[j].id)
  }

  lemma {:induction false} RunIsSound(now: int, actions: seq<Action>)
    ensures Sound(Exec(now, actions))
  {
    if actions != [] {
      RunIsSound(now, actions[..|actions| - 1]);
      StepKeepsSound(Exec(now, actions[..|actions| - 1]), actions[|actions| - 1]);
    }
  }

  lemma StepKeepsSound(s: State, a: Action)
    requires Sound(s)
    ensures Sound(Step(s, a))
  {
  }

  /** In every run a share is handed out at most once, exactly as it was created. */
  lemma SharesAreClaimedOnce(now: int, actions: seq<Action>, i: nat, j: nat)
    requires i < |Exec(now, actions).claims| && j < |Exec(now, actions).claims|
    requires var claims := Exec(now, actions).claims;
             claims[i].answer.Ok? && claims[j].answer.Ok? && claims[i].id == claims[j].id
    ensures i == j
    ensures var s := Exec(now, actions);
            s.claims[i].id in s.created && s.claims[i].answer == Ok(s.created[s.claims[i].id])
  {
    RunIsSound(now, actions);
  }

  // ---------------------------------------------------------------- cleanup is invisible

  /** States that differ at most in shares that have expired. */
  ghost predicate Alike(s: State, t: State) {
    s.(shares := t.shares) == t && DropShares(s.shares, s.now) == DropShares(t.shares, t.now)
  }

  lemma SameLookup(p: ShareTable, q: ShareTable, now: int, id: Id)
    requires DropShares(p, now) == DropShares(q, now)
    ensures Claimable(p, id, now) <==> Claimable(q, id, now)
    ensures Claimable(p, id, now) ==> p[id] == q[id]
  {
    assert id in DropShares(p, now) <==> id in DropShares(q, now);
    assert id in DropShares(p, now) ==> DropShares(p, now)[id] == DropShares(q, now)[id];
  }

  lemma StepKeepsAlike(s: State, t: State, a: Action)
    requires Alike(s, t)
    ensures Alike(Step(s, a), Step(t, a))
  {
    forall id | id in s.shares || id in t.shares { SameLookup(s.shares, t.shares, s.now, id); }
    if a.ClaimIt? { SameLookup(s.shares, t.shares, s.now, a.id); }
  }

  lemma CleanupIsAlike(s: State)
    ensures Alike(Step(s, Cleanup), s)
  {
  }

  lemma {:induction false} CleanupKeepsRunAlike(now: int, before: seq<Action>, after: seq<Action>)
    ensures Alike(Exec(now, before + [Cleanup] + after), Exec(now, before + after))
  {
    hide Step;
    if after == [] {
      assert (before + [Cleanup] + after)[..|before|] == before == before + after;
      CleanupIsAlike(Exec(now, before));
    } else {
      var n := |after| - 1;
      CleanupKeepsRunAlike(now, before, after[..n]);
      assert (before + [Cleanup] + after)[..|before| + n + 1] == before + [Cleanup] + after[..n];
      assert (before + after)[..|before| + n] == before + after[..n];
      StepKeepsAlike(Exec(now, before + [Cleanup] + after[..n]), Exec(now, before + after[..n]), after[n]);
    }
  }

  /** A cleanup inserted anywhere in a run changes the answer of no claim. */
  lemma CleanupIsInvisible(now: int, before: seq<Action>, after: seq<Action>)
    ensures Exec(now, before + [Cleanup] + after).claims == Exec(now, before + after).claims
  {
    CleanupKeepsRunAlike(now, before, after);
  }

  // ---------------------------------------------------------------- a share can be claimed

  predicate ClaimedBefore(s: State, id: Id) { exists c | c in s.claims :: c.id == id && c.answer.Ok? }

  /** A share that was created is gone only if it was claimed or is over. */
  ghost predicate Kept(s: State) {
    && (forall id | id in s.created :: id < s.nextId)
    && (forall id | id in s.shares ::
          id < s.nextId && id in s.created && s.shares[id] == s.created[id] && !ClaimedBefore(s, id))
    && (forall id | id in s.created && id !in s.shares ::
          ClaimedBefore(s, id) || !Unexpired(s.created[id].expiresAt, s.now))
    && (forall c | c in s.claims && c.answer.Ok? :: c.id < s.nextId)
  }

  lemma StepKeeps(s: State, a: Action)
    requires Kept(s)
    ensures Kept(Step(s, a))
  {
    var t := Step(s, a);
    match a
    case ClaimIt(id) =>
      var claim := Claim(id, ClaimAnswer(s.shares, id, s.now));
      assert t.claims == s.claims + [claim] && claim in t.claims;
      forall x | ClaimedBefore(s, x) ensures ClaimedBefore(t, x) {
        var c :| c in s.claims && c.id == x && c.answer.Ok?;
        assert c in t.claims;
      }
    case _ => assert t.claims == s.claims;
  }

  lemma {:induction false} RunKeeps(now: int, actions: seq<Action>)
    ensures Kept(Exec(now, actions))
  {
    if actions != [] {
      hide Kept, Step;
      RunKeeps(now, actions[..|actions| - 1]);
      StepKeeps(Exec(now, actions[..|actions| - 1]), actions[|actions| - 1]);
    }
  }

  /** In every run a claim gets its share, as it was created, exactly if there was such a share, nobody has claimed
      it and it is not over. */
  lemma ClaimSucceedsExactly(now: int, actions: seq<Action>, id: Id)
    ensures var s := Exec(now, actions);
            ClaimAnswer(s.shares, id, s.now)
            == if id in s.created && !ClaimedBefore(s, id)
                  && (s.created[id].expiresAt.None? || s.now < s.created[id].expiresAt.value)
               then Ok(s.created[id]) else Err(NotFound)
  {
    hide Exec;
    RunKeeps(now, actions);
  }

  /** A new share can be claimed from then on until its end, however much time passes. */
  lemma NewShareIsClaimable(now: int, actions: seq<Action>, share: Share, secs: nat)
    ensures var (s, id) := (Exec(now, actions), Exec(now, actions).nextId);
            var t := Exec(now, actions + [Create(share)] + [Tick(secs)]);
            ClaimAnswer(t.shares, id, t.now)
            == if share.expiresAt.None? || s.now + secs < share.expiresAt.value then Ok(share) else Err(NotFound)
  {
    var created := actions + [Create(share)];
    assert created[..|actions|] == actions && (created + [Tick(secs)])[..|created|] == created;
  }

  /** The cleanup drops exactly the shares that are over. */
  lemma CleanupDropsExactly(s: State, id: Id)
    ensures var t := Step(s, Cleanup);
            && (id in t.shares <==>
                  id in s.shares && (s.shares[id].expiresAt.None? || s.now < s.shares[id].expiresAt.value))
            && (id in t.shares ==> t.shares[id] == s.shares[id])
  {
  }
}
