/** Entry requests interleaved statement by statement with each other and with arbitrary changes of the
    tables: what a request reads and writes was permitted at an instant of that very request. */
module EntryRuns {
  import opened Basics
  import opened Policy
  import opened Bans
  import opened Tables
  import opened Credentials
  import opened Entries
  import opened Handlers

  /** What a handler answers; an answer without a value is empty. */
  type Answer = Result<string, AppError>

  /** One name to be checked for one device. Only the caller's own device is banned for a refusal. */
  datatype Check = Check(device: Id, name: string, own: bool)

  /** How far a call has come. */
  datatype Stage =
    | Entered
    | Checking(passed: nat, unbanned: bool)
    | Working(done: nat)
    | Closing(value: string, secs: int)
    | Finished(answer: Answer)

  datatype Call = Call(caller: Claims, request: EntryRequest, begun: nat, stage: Stage)

  /** `past` records the tables as they were before each step of the run. */
  datatype State = State(db: Db, past: seq<Db>, calls: map<nat, Call>)

  /** `Elsewhere` stands for anything that other requests, the cleanup and the clock do. */
  datatype Action =
    | Begin(call: nat, caller: Claims, request: EntryRequest)
    | Advance(call: nat)
    | Elsewhere(tables: Db)

  // ---------------------------------------------------------------- the statements of a call

  function Names(entries: seq<(string, string)>): seq<string> {
    seq(|entries|, i requires 0 <= i < |entries| => entries[i].0)
  }

  function NamesOf(request: EntryRequest): seq<string> {
    if request.PostImport? then
      match ParseFile(request.prefix, request.lines)
      case Err(_) => []
      case Ok(entries) => Names(entries)
    else [request.key]
  }

  function OwnChecks(c: Claims, names: seq<string>): seq<Check> {
    if c.device.None? then []
    else seq(|names|, i requires 0 <= i < |names| => Check(c.device.value, names[i], true))
  }

  /** The check of the path, if the request has one. */
  function PathChecks(c: Claims, request: EntryRequest): seq<Check> {
    if request.GetDeviceKv? && c.device != Some(request.device) then [Check(request.device, request.key, false)] else []
  }

  /** The checks of a request, in order. */
  function ChecksOf(c: Claims, request: EntryRequest): seq<Check> {
    OwnChecks(c, NamesOf(request)) + PathChecks(c, request)
  }

  /** What comes before the checks. */
  function Enter(db: Db, c: Claims, request: EntryRequest): Stage {
    if request.GetDeviceKv? && (request.device !in db.devices || db.devices[request.device].owner != c.owner)
    then Finished(Err(NotFound))
    else if request.PostImport? && ParseFile(request.prefix, request.lines).Err?
    then Finished(Err(ParseFile(request.prefix, request.lines).error))
    else Checking(0, false)
  }

  /** One read of the checks: the ban, or the policy with what a refusal entails. */
  function CheckStep(base: nat, db: Db, c: Claims, checks: seq<Check>, n: nat, unbanned: bool): (Stage, Db) {
    if n >= |checks| then (Working(0), db)
    else
      var k := checks[n];
      if !unbanned then
        (if Banned(db.bans, k.device, db.now) then Finished(Err(DeviceBanned)) else Checking(n, true), db)
      else if KeyPermitted(db.policies, db.policyKeys, k.device, k.name) then (Checking(n + 1, false), db)
      else if !k.own then (Finished(Err(Forbidden)), db)
      else if k.device !in db.bans && k.device !in db.devices then (Finished(Err(Internal)), db)
      else (Finished(Err(DeviceBanned)),
            db.(bans := AfterViolation(db.bans, k.device, c.owner, base, db.now, k.name)))
  }

  function Done(r: Result<(), AppError>): Answer { if r.Err? then Err(r.error) else Ok("") }

  /** The caller as the statements after the checks see it: they do not look at its device. */
  function Bare(c: Claims): Claims { c.(device := None) }

  /** The next read or write after the checks; the rows of an import are written one at a time. */
  function WorkStep(db: Db, c: Claims, request: EntryRequest, done: nat): (Stage, Db) {
    match request
    case GetDeviceKv(device, key) =>
      (if (key, c.owner) !in db.bodies then Finished(Err(NotFound))
       else if forall r | r in db.recipients :: !ReceivedBy(db.recipients[r], device, c.owner, key)
       then Finished(Err(NotFound))
       else Closing(db.bodies[(key, c.owner)], 0), db)
    case GetValue(key) => (Finished(AdminRead(db, 0, Bare(c), key).0), db)
    case PostValue(key, body) =>
      var (r, after) := AdminWrite(db, 0, Bare(c), key, body); (Finished(Done(r)), after)
    case DeleteValue(key) =>
      var (r, after) := AdminDelete(db, 0, Bare(c), key); (Finished(Done(r)), after)
    case PostImport(prefix, options, lines) =>
      (match ParseFile(prefix, lines)
       case Err(e) => (Finished(Err(e)), db)
       case Ok(entries) =>
         if done >= |entries| then (Finished(Ok("")), db)
         else
           var (key, value) := entries[done];
           (Working(done + 1), PutEntry(db, c.owner, key, ImportBody(db, c.owner, key, value, options))))
    case PostDeviceKv(key, sealed, devices) =>
      var (r, after) := WriteDeviceKv(db, 0, Bare(c), key, sealed, devices); (Finished(Done(r)), after)
    case GetKv(allowed, key) =>
      var r := GetEntry(db, 0, Bare(c), allowed, key).0;
      (if r.Ok? && db.kv[(key, c.owner)].sliding && db.kv[(key, c.owner)].ttlSecs.Some?
       then Closing(r.value, db.kv[(key, c.owner)].ttlSecs.value) else Finished(r), db)
    case PutKv(allowed, admin, key, body) =>
      var (r, after) := PutByKey(db, 0, Bare(c), allowed, admin, key, body); (Finished(Done(r)), after)
    case DeleteKv(allowed, key) =>
      var (r, after) := DeleteByKey(db, 0, Bare(c), allowed, key); (Finished(Done(r)), after)
  }

  /** The update after a read: the sliding expiry, or when the device was last seen. */
  function CloseStep(db: Db, c: Claims, request: EntryRequest, secs: int): Db {
    if request.GetDeviceKv? then Touch(db, request.device)
    else if request.GetKv? && (request.key, c.owner) in db.kv then
      db.(kv := db.kv[(request.key, c.owner) :=
                      db.kv[(request.key, c.owner)].(expiresAt := Some(db.now + secs))])
    else db
  }

  /** The next statement of one call. */
  function CallStep(base: nat, db: Db, call: Call): (Stage, Db) {
    match call.stage
    case Entered => (Enter(db, call.caller, call.request), db)
    case Checking(n, unbanned) => CheckStep(base, db, call.caller, ChecksOf(call.caller, call.request), n, unbanned)
    case Working(done) => WorkStep(db, call.caller, call.request, done)
    case Closing(value, secs) => (Finished(Ok(value)), CloseStep(db, call.caller, call.request, secs))
    case Finished(_) => (call.stage, db)
  }

  function Step(base: nat, s: State, a: Action): State {
    var past := s.past + [s.db];
    match a
    case Begin(p, c, request) =>
      if p in s.calls then s.(past := past)
      else s.(past := past, calls := s.calls[p := Call(c, request, |s.past|, Entered)])
    case Advance(p) =>
      if p !in s.calls then s.(past := past)
      else
        var (stage, db) := CallStep(base, s.db, s.calls[p]);
        State(db, past, s.calls[p := s.calls[p].(stage := stage)])
    case Elsewhere(db) => s.(past := past, db := db)
  }

  function Exec(base: nat, db: Db, actions: seq<Action>): State {
    if actions == [] then State(db, [], map[])
    else Step(base, Exec(base, db, actions[..|actions| - 1]), actions[|actions| - 1])
  }

  // ---------------------------------------------------------------- what a call has established

  /** How many reads a call must pass before it does its work: what comes before the checks, and a ban and a
      policy for each check. */
  function Reads(c: Claims, request: EntryRequest): nat { 1 + 2 * |ChecksOf(c, request)| }

  /** The tables let read number `n` of the call pass. */
  predicate ReadPasses(db: Db, c: Claims, request: EntryRequest, n: nat)
    requires n < Reads(c, request)
  {
    if n == 0 then Enter(db, c, request).Checking?
    else
      var k := ChecksOf(c, request)[(n - 1) / 2];
      if n % 2 == 1 then !Banned(db.bans, k.device, db.now)
      else KeyPermitted(db.policies, db.policyKeys, k.device, k.name)
  }

  /** Where a call stands when `n` reads have passed. */
  function StageAfter(n: nat): Stage {
    if n == 0 then Entered else if n % 2 == 1 then Checking((n - 1) / 2, false) else Checking((n - 1) / 2, true)
  }

  /** How many reads have passed, for a call that is still at them. */
  function Progress(stage: Stage): nat
    requires stage.Entered? || stage.Checking?
  {
    if stage.Entered? then 0 else 1 + 2 * stage.passed + if stage.unbanned then 1 else 0
  }

  lemma ProgressIsStage(stage: Stage)
    requires stage.Entered? || stage.Checking?
    ensures StageAfter(Progress(stage)) == stage
  {
  }

  /** `at` names instants, in order, of a history of the tables at which the first reads of the call pass. */
  ghost predicate Passage(h: seq<Db>, c: Claims, request: EntryRequest, at: seq<nat>) {
    && |at| <= Reads(c, request)
    && (forall i | 0 <= i < |at| :: at[i] < |h| && ReadPasses(h[at[i]], c, request, i))
    && (forall i, j | 0 <= i < j < |at| :: at[i] <= at[j])
  }

  /** The history has such instants for the first `n` reads. */
  ghost predicate Passed(h: seq<Db>, c: Claims, request: EntryRequest, n: nat) {
    exists at :: |at| == n && Passage(h, c, request, at)
  }

  /** What the stage of a call tells about the tables since it began. */
  ghost predicate Founded(h: seq<Db>, c: Claims, request: EntryRequest, stage: Stage) {
    match stage
    case Entered => true
    case Checking(_, _) => Progress(stage) <= Reads(c, request) && Passed(h, c, request, Progress(stage))
    case Working(_) => Passed(h, c, request, Reads(c, request))
    case Closing(_, _) => Passed(h, c, request, Reads(c, request))
    case Finished(answer) => answer.Ok? ==> Passed(h, c, request, Reads(c, request))
  }

  lemma PassedStays(h: seq<Db>, db: Db, c: Claims, request: EntryRequest, n: nat)
    requires Passed(h, c, request, n)
    ensures Passed(h + [db], c, request, n)
  {
    hide ReadPasses, Reads;
    var at :| |at| == n && Passage(h, c, request, at);
    assert Passage(h + [db], c, request, at);
  }

  lemma PassedNothing(h: seq<Db>, c: Claims, request: EntryRequest)
    ensures Passed(h, c, request, 0)
  {
    assert Passage(h, c, request, []);
  }

  /** One more read passes in the last tables of the history. */
  lemma PassedMore(h: seq<Db>, c: Claims, request: EntryRequest, n: nat)
    requires h != [] && n < Reads(c, request) && Passed(h, c, request, n)
    requires ReadPasses(h[|h| - 1], c, request, n)
    ensures Passed(h, c, request, n + 1)
  {
    hide ReadPasses, Reads;
    var at: seq<nat> :| |at| == n && Passage(h, c, request, at);
    var last: nat := |h| - 1;
    assert Passage(h, c, request, at + [last]);
  }

  lemma FoundedStays(h: seq<Db>, db: Db, c: Claims, request: EntryRequest, stage: Stage)
    requires Founded(h, c, request, stage)
    ensures Founded(h + [db], c, request, stage)
  {
    hide Passed, Reads;
    if stage.Checking? {
      PassedStays(h, db, c, request, Progress(stage));
    } else if Passed(h, c, request, Reads(c, request)) {
      PassedStays(h, db, c, request, Reads(c, request));
    }
  }

  /** The next statement of a call that is at its reads: the read passes and nothing else happens, or the call
      ends with an error. */
  lemma ReadStep(base: nat, db: Db, call: Call, n: nat)
    requires n < Reads(call.caller, call.request) && call.stage == StageAfter(n)
    ensures var (stage, after) := CallStep(base, db, call);
            if ReadPasses(db, call.caller, call.request, n) then stage == StageAfter(n + 1) && after == db
            else stage.Finished? && stage.answer.Err?
  {
    hide Banned, KeyPermitted, AfterViolation, ChecksOf;
    if n == 0 { EnterChecks(db, call.caller, call.request); }
    hide Enter;
  }

  /** All reads have passed. */
  lemma ReadsDone(base: nat, db: Db, call: Call)
    requires call.stage == StageAfter(Reads(call.caller, call.request))
    ensures CallStep(base, db, call) == (Working(0), db)
  {
    hide ChecksOf;
  }

  lemma EnterChecks(db: Db, c: Claims, request: EntryRequest)
    ensures Enter(db, c, request) == Checking(0, false)
            || (Enter(db, c, request).Finished? && Enter(db, c, request).answer.Err?)
  {
  }

  lemma WorkGoesOn(db: Db, c: Claims, request: EntryRequest, done: nat)
    ensures !WorkStep(db, c, request, done).0.Checking? && !WorkStep(db, c, request, done).0.Entered?
    ensures WorkStep(db, c, request, done).0 != Working(0)
  {
    hide AdminRead, AdminWrite, AdminDelete, WriteDeviceKv, GetEntry, PutByKey, DeleteByKey, PutEntry, ImportBody,
      ParseFile, ReceivedBy;
  }

  /** A call that is at its reads, or about to begin its work. */
  predicate Reading(stage: Stage) { stage.Entered? || stage.Checking? || stage == Working(0) }

  /** A step of a call on the last tables of the history. */
  lemma StepIsFounded(base: nat, h: seq<Db>, db: Db, call: Call)
    requires Founded(h, call.caller, call.request, call.stage)
    requires Reading(call.stage) ==> h != [] && db == h[|h| - 1]
    ensures var (stage, after) := CallStep(base, db, call);
            Founded(h, call.caller, call.request, stage) && (Reading(stage) ==> Reading(call.stage) && after == db)
  {
    hide Passed, ReadPasses, Reads, WorkStep, Enter, CheckStep, CloseStep, ChecksOf;
    var (c, request) := (call.caller, call.request);
    if call.stage.Entered? || call.stage.Checking? {
      var n := Progress(call.stage);
      ProgressIsStage(call.stage);
      PassedNothing(h, c, request);
      if n < Reads(c, request) {
        ReadStep(base, db, call, n);
        if ReadPasses(db, c, request, n) {
          PassedMore(h, c, request, n);
          ProgressAfter(n + 1);
        }
      } else {
        ReadsDone(base, db, call);
      }
    } else if call.stage.Working? {
      WorkGoesOn(db, c, request, call.stage.done);
    }
  }

  lemma ProgressAfter(n: nat)
    ensures (StageAfter(n).Entered? || StageAfter(n).Checking?) && Progress(StageAfter(n)) == n
    ensures n > 0 ==> StageAfter(n).Checking?
  {
  }

  ghost predicate Established(past: seq<Db>, call: Call) {
    call.begun <= |past| && Founded(past[call.begun..], call.caller, call.request, call.stage)
  }

  ghost predicate AllEstablished(s: State) { forall p | p in s.calls :: Established(s.past, s.calls[p]) }

  lemma EstablishedStays(past: seq<Db>, db: Db, call: Call)
    requires Established(past, call)
    ensures Established(past + [db], call)
  {
    hide Founded;
    FoundedStays(past[call.begun..], db, call.caller, call.request, call.stage);
    assert (past + [db])[call.begun..] == past[call.begun..] + [db];
  }

  lemma StepEstablishes(base: nat, s: State, a: Action)
    requires AllEstablished(s)
    ensures AllEstablished(Step(base, s, a))
  {
    hide Founded, CallStep;
    var t := Step(base, s, a);
    forall p | p in t.calls ensures Established(t.past, t.calls[p]) {
      if p in s.calls {
        var call := s.calls[p];
        EstablishedStays(s.past, s.db, call);
        if a == Advance(p) {
          assert (s.past + [s.db])[call.begun..] == s.past[call.begun..] + [s.db];
          StepIsFounded(base, (s.past + [s.db])[call.begun..], s.db, call);
        }
      } else {
        JustBegun(t.past, t.calls[p]);
      }
    }
  }

  lemma JustBegun(past: seq<Db>, call: Call)
    requires call.begun <= |past| && call.stage.Entered?
    ensures Established(past, call)
  {
  }

  /** In every run, whatever stage a call is in rests on instants of that call. */
  lemma {:induction false} StagesAreEstablished(base: nat, db: Db, actions: seq<Action>)
    ensures AllEstablished(Exec(base, db, actions))
  {
    hide Step;
    if actions != [] {
      StagesAreEstablished(base, db, actions[..|actions| - 1]);
      StepEstablishes(base, Exec(base, db, actions[..|actions| - 1]), actions[|actions| - 1]);
    }
  }

  // ---------------------------------------------------------------- what a passage says of one name

  ghost predicate UnbannedAt(past: seq<Db>, t: nat, d: Id) { t < |past| && !Banned(past[t].bans, d, past[t].now) }

  ghost predicate PermittedAt(past: seq<Db>, t: nat, d: Id, name: string) {
    t < |past| && KeyPermitted(past[t].policies, past[t].policyKeys, d, name)
  }

  /** Since instant `begun` there was one at which the device was not banned and, then or later, one at which its
      policy permitted the name. */
  ghost predicate Vouched(past: seq<Db>, begun: nat, k: Check) {
    exists t, u | begun <= t <= u :: UnbannedAt(past, t, k.device) && PermittedAt(past, u, k.device, k.name)
  }

  /** All reads of the call have passed since it began, in their order. */
  ghost predicate AllPassed(past: seq<Db>, call: Call) {
    && call.begun <= |past|
    && Passed(past[call.begun..], call.caller, call.request, Reads(call.caller, call.request))
  }

  lemma PassageVouches(past: seq<Db>, call: Call, i: nat)
    requires AllPassed(past, call) && i < |ChecksOf(call.caller, call.request)|
    ensures Vouched(past, call.begun, ChecksOf(call.caller, call.request)[i])
  {
    hide Banned, KeyPermitted, ChecksOf, Enter;
    var (c, request, h) := (call.caller, call.request, past[call.begun..]);
    var at :| |at| == Reads(c, request) && Passage(h, c, request, at);
    var k := ChecksOf(c, request)[i];
    assert ReadPasses(h[at[1 + 2 * i]], c, request, 1 + 2 * i);
    assert ReadPasses(h[at[2 + 2 * i]], c, request, 2 + 2 * i);
    var (t, u) := (call.begun + at[1 + 2 * i], call.begun + at[2 + 2 * i]);
    assert UnbannedAt(past, t, k.device) && PermittedAt(past, u, k.device, k.name);
  }

  // ---------------------------------------------------------------- what a step touches

  /** What is stored under one name of one owner is the same. */
  ghost predicate SameEntry(db: Db, after: Db, e: EntryKey) {
    && (e in after.kv <==> e in db.kv) && (e in db.kv ==> after.kv[e] == db.kv[e])
    && (e in after.bodies <==> e in db.bodies) && (e in db.bodies ==> after.bodies[e] == db.bodies[e])
    && (forall r | r in db.recipients && OfEntry(db.recipients[r], e.1, e.0) ::
          r in after.recipients && after.recipients[r] == db.recipients[r])
    && (forall r | r in after.recipients && OfEntry(after.recipients[r], e.1, e.0) ::
          r in db.recipients && db.recipients[r] == after.recipients[r])
  }

  /** Besides entries a step changes at most the ban of the caller's device, and when a device was last seen. */
  ghost predicate TheRestIsSame(db: Db, after: Db, c: Claims) {
    && after == db.(kv := after.kv, bodies := after.bodies, recipients := after.recipients, nextId := after.nextId,
                    bans := after.bans, devices := after.devices)
    && after.bans - (if c.device.Some? then {c.device.value} else {})
       == db.bans - (if c.device.Some? then {c.device.value} else {})
    && after.devices.Keys == db.devices.Keys
    && forall d | d in db.devices :: after.devices[d].(lastSeen := None) == db.devices[d].(lastSeen := None)
  }

  lemma NothingTouched(db: Db, c: Claims, e: EntryKey)
    ensures SameEntry(db, db, e) && TheRestIsSame(db, db, c)
  {
  }

  lemma BanTouches(db: Db, c: Claims, bans: BanTable, d: Id, e: EntryKey)
    requires c.device == Some(d) && bans - {d} == db.bans - {d}
    ensures SameEntry(db, db.(bans := bans), e) && TheRestIsSame(db, db.(bans := bans), c)
  {
  }

  lemma CheckTouches(base: nat, db: Db, c: Claims, request: EntryRequest, n: nat, unbanned: bool, e: EntryKey)
    ensures var after := CheckStep(base, db, c, ChecksOf(c, request), n, unbanned).1;
            SameEntry(db, after, e) && TheRestIsSame(db, after, c)
  {
    hide KeyPermitted, Banned, NamesOf, AfterViolation, SameEntry, TheRestIsSame;
    var checks := ChecksOf(c, request);
    NothingTouched(db, c, e);
    if n < |checks| && checks[n].own {
      assert c.device == Some(checks[n].device);
      OneBanChanges(db.bans, checks[n].device, c.owner, base, db.now, checks[n].name);
      BanTouches(db, c, AfterViolation(db.bans, checks[n].device, c.owner, base, db.now, checks[n].name),
                 checks[n].device, e);
    }
  }

  lemma OneBanChanges(bans: BanTable, d: Id, owner: string, base: nat, now: int, name: string)
    ensures AfterViolation(bans, d, owner, base, now, name) - {d} == bans - {d}
  {
  }

  lemma TouchKeepsEntries(db: Db, device: Id, e: EntryKey)
    ensures SameEntry(db, Touch(db, device), e)
  {
  }

  lemma TouchKeepsTheRest(db: Db, c: Claims, device: Id)
    ensures TheRestIsSame(db, Touch(db, device), c)
  {
    if device !in db.devices { NothingTouched(db, c, ("", "")); }
  }

  lemma SameBut<V>(before: map<EntryKey, V>, after: map<EntryKey, V>, but: EntryKey, e: EntryKey)
    requires after - {but} == before - {but} && e != but
    ensures (e in after <==> e in before) && (e in before ==> after[e] == before[e])
  {
    assert e in after <==> e in after - {but};
    assert e in before <==> e in before - {but};
    if e in before { assert (after - {but})[e] == (before - {but})[e]; }
  }

  /** Changing the row of one entry. */
  lemma RowTouches(db: Db, after: Db, c: Claims, key: string, e: EntryKey)
    requires after == db.(kv := after.kv) && after.kv - {(key, c.owner)} == db.kv - {(key, c.owner)}
    ensures TheRestIsSame(db, after, c)
    ensures e == (key, c.owner) || SameEntry(db, after, e)
  {
    if e != (key, c.owner) { SameBut(db.kv, after.kv, (key, c.owner), e); }
  }

  lemma CloseTouches(db: Db, c: Claims, request: EntryRequest, secs: int, e: EntryKey)
    ensures var after := CloseStep(db, c, request, secs);
            && TheRestIsSame(db, after, c)
            && (SameEntry(db, after, e) || (!request.PostImport? && e == (request.key, c.owner)))
  {
    hide TheRestIsSame, SameEntry, Touch;
    NothingTouched(db, c, e);
    if request.GetDeviceKv? {
      TouchKeepsEntries(db, request.device, e);
      TouchKeepsTheRest(db, c, request.device);
    } else if request.GetKv? && (request.key, c.owner) in db.kv {
      var after := CloseStep(db, c, request, secs);
      assert after.kv - {(request.key, c.owner)} == db.kv - {(request.key, c.owner)};
      RowTouches(db, after, c, request.key, e);
    }
  }

  lemma PutTouches(db: Db, c: Claims, key: string, body: EntryBody, e: EntryKey)
    ensures var after := PutEntry(db, c.owner, key, body);
            TheRestIsSame(db, after, c) && (e == (key, c.owner) || SameEntry(db, after, e))
    ensures var after := DropEntry(db, c.owner, key);
            TheRestIsSame(db, after, c) && (e == (key, c.owner) || SameEntry(db, after, e))
  {
    hide TheRestIsSame, SameEntry;
    var put := PutEntry(db, c.owner, key, body);
    assert put.kv - {(key, c.owner)} == db.kv - {(key, c.owner)};
    RowTouches(db, put, c, key, e);
    RowTouches(db, DropEntry(db, c.owner, key), c, key, e);
  }

  /** Replacing the recipients of one entry. */
  lemma ReplacedElsewhere(db: Db, owner: string, key: string, devices: seq<Id>, e: EntryKey)
    requires e != (key, owner) && forall r | r in db.recipients :: r < db.nextId
    ensures var rows := WithoutEntry(db.recipients, owner, key) + NewRecipients(db.nextId, owner, key, devices);
            && (forall r | r in db.recipients && OfEntry(db.recipients[r], e.1, e.0) ::
                  r in rows && rows[r] == db.recipients[r])
            && (forall r | r in rows && OfEntry(rows[r], e.1, e.0) ::
                  r in db.recipients && db.recipients[r] == rows[r])
  {
    NewRecipientsAre(db.nextId, owner, key, devices);
  }

  lemma SealIs(db: Db, c: Claims, key: string, sealed: string, devices: seq<Id>)
    ensures var (r, after) := WriteDeviceKv(db, 0, Bare(c), key, sealed, devices);
            && (r.Err? ==> after == db)
            && (r.Ok? ==> after == MarkEncrypted(Resealed(db, c.owner, key, sealed, devices), c.owner, key))
  {
    hide RecipientsValid, NewRecipients, WithoutEntry, MarkEncrypted;
  }

  lemma EntryTablesOnly(db: Db, after: Db, c: Claims)
    requires after == db.(kv := after.kv, bodies := after.bodies, recipients := after.recipients, nextId := after.nextId)
    ensures TheRestIsSame(db, after, c)
  {
  }

  lemma SealKeepsTheRest(db: Db, c: Claims, key: string, sealed: string, devices: seq<Id>)
    ensures TheRestIsSame(db, WriteDeviceKv(db, 0, Bare(c), key, sealed, devices).1, c)
  {
    hide WriteDeviceKv, NewRecipients, WithoutEntry, MarkEncrypted, TheRestIsSame;
    NothingTouched(db, c, (key, c.owner));
    SealIs(db, c, key, sealed, devices);
    var resealed := Resealed(db, c.owner, key, sealed, devices);
    MarkChangesOneRow(resealed, c.owner, key);
    EntryTablesOnly(db, MarkEncrypted(resealed, c.owner, key), c);
  }

  lemma SealWrites(db: Db, c: Claims, key: string, sealed: string, devices: seq<Id>)
    ensures var (r, after) := WriteDeviceKv(db, 0, Bare(c), key, sealed, devices);
            && (r.Err? ==> after == db)
            && after.kv - {(key, c.owner)} == db.kv - {(key, c.owner)}
            && after.bodies - {(key, c.owner)} == db.bodies - {(key, c.owner)}
            && (r.Ok? ==> after.recipients == WithoutEntry(db.recipients, c.owner, key)
                                              + NewRecipients(db.nextId, c.owner, key, devices))
  {
    hide WriteDeviceKv, NewRecipients, WithoutEntry, MarkEncrypted;
    SealIs(db, c, key, sealed, devices);
    var resealed := Resealed(db, c.owner, key, sealed, devices);
    MarkChangesOneRow(resealed, c.owner, key);
    if WriteDeviceKv(db, 0, Bare(c), key, sealed, devices).0.Ok? {
      assert resealed.bodies - {(key, c.owner)} == db.bodies - {(key, c.owner)};
      assert MarkEncrypted(resealed, c.owner, key).bodies == resealed.bodies;
    }
  }

  lemma SealTouches(db: Db, c: Claims, key: string, sealed: string, devices: seq<Id>, e: EntryKey)
    requires forall r | r in db.recipients :: r < db.nextId
    ensures var after := WriteDeviceKv(db, 0, Bare(c), key, sealed, devices).1;
            e == (key, c.owner) || SameEntry(db, after, e)
  {
    hide RecipientsValid, NewRecipients, WithoutEntry, OfEntry, WriteDeviceKv;
    SealWrites(db, c, key, sealed, devices);
    if e != (key, c.owner) {
      ReplacedElsewhere(db, c.owner, key, devices, e);
      var after := WriteDeviceKv(db, 0, Bare(c), key, sealed, devices).1;
      SameBut(db.kv, after.kv, (key, c.owner), e);
      SameBut(db.bodies, after.bodies, (key, c.owner), e);
    }
  }

  /** A read or write after the checks touches entries of the request's names under the caller only. */
  lemma WorkTouches(db: Db, c: Claims, request: EntryRequest, done: nat, e: EntryKey)
    requires forall r | r in db.recipients :: r < db.nextId
    ensures var after := WorkStep(db, c, request, done).1;
            TheRestIsSame(db, after, c) && (SameEntry(db, after, e) || (e.1 == c.owner && e.0 in NamesOf(request)))
  {
    hide TheRestIsSame, SameEntry, PutEntry, DropEntry, ImportBody, ParseFile, AdminRead, GetEntry, WriteDeviceKv;
    NothingTouched(db, c, e);
    match request
    case PostValue(key, body) => PutTouches(db, c, key, body, e);
    case DeleteValue(key) => PutTouches(db, c, key, EntryBody("", None, false, false, None), e);
    case PostImport(prefix, options, lines) =>
      if ParseFile(prefix, lines).Ok? && done < |ParseFile(prefix, lines).value| {
        var (key, value) := ParseFile(prefix, lines).value[done];
        assert NamesOf(request)[done] == key;
        PutTouches(db, c, key, ImportBody(db, c.owner, key, value, options), e);
      }
    case PostDeviceKv(key, sealed, devices) =>
      SealKeepsTheRest(db, c, key, sealed, devices);
      SealTouches(db, c, key, sealed, devices, e);
    case PutKv(_, _, key, body) => PutTouches(db, c, key, body, e);
    case DeleteKv(_, key) => PutTouches(db, c, key, EntryBody("", None, false, false, None), e);
    case _ =>
  }

  /** The device's check of one of the request's names. */
  lemma NameIsChecked(past: seq<Db>, call: Call, name: string)
    requires AllPassed(past, call) && call.caller.device.Some? && name in NamesOf(call.request)
    ensures Vouched(past, call.begun, Check(call.caller.device.value, name, true))
  {
    hide Vouched, NamesOf, AllPassed;
    var i :| 0 <= i < |NamesOf(call.request)| && NamesOf(call.request)[i] == name;
    assert ChecksOf(call.caller, call.request)[i] == Check(call.caller.device.value, name, true);
    PassageVouches(past, call, i);
  }

  /** In every run, whatever else happens to the tables in between: a step of a call touches only entries of the
      caller's owner that the request names, and only after all reads of the call have passed in their order; so
      the device had been unbanned at one instant of the call, and then its policy had permitted the name. That the
      ids of recipients are drawn from the counter is part of `Intact`, which holds in every run of `Audit`. */
  lemma WritesAreVouched(base: nat, start: Db, actions: seq<Action>, p: nat, e: EntryKey)
    requires p in Exec(base, start, actions).calls
    requires var db := Exec(base, start, actions).db; forall r | r in db.recipients :: r < db.nextId
    ensures var s := Exec(base, start, actions);
            var call := s.calls[p];
            var after := CallStep(base, s.db, call).1;
            && TheRestIsSame(s.db, after, call.caller)
            && (|| SameEntry(s.db, after, e)
                || (&& e.1 == call.caller.owner && e.0 in NamesOf(call.request)
                    && AllPassed(s.past, call)
                    && (call.caller.device.Some? ==>
                          Vouched(s.past, call.begun, Check(call.caller.device.value, e.0, true)))))
  {
    hide Exec, TheRestIsSame, SameEntry, Vouched, ChecksOf, CheckStep, WorkStep, CloseStep, Enter, Passed, Reads;
    StagesAreEstablished(base, start, actions);
    var s := Exec(base, start, actions);
    var call := s.calls[p];
    var (c, request) := (call.caller, call.request);
    assert Established(s.past, call);
    NothingTouched(s.db, c, e);
    match call.stage
    case Checking(n, unbanned) => CheckTouches(base, s.db, c, request, n, unbanned, e);
    case Working(done) =>
      WorkTouches(s.db, c, request, done, e);
      if c.device.Some? && e.0 in NamesOf(request) { NameIsChecked(s.past, call, e.0); }
    case Closing(_, secs) =>
      CloseTouches(s.db, c, request, secs, e);
      if c.device.Some? && e.0 in NamesOf(request) { NameIsChecked(s.past, call, e.0); }
    case _ =>
  }

  /** An answer that is no refusal rests on the same reads: the caller's device had been unbanned and then
      permitted every name, and so had the device of the path when it is another one. */
  lemma AnswersAreVouched(base: nat, start: Db, actions: seq<Action>, p: nat, name: string)
    requires p in Exec(base, start, actions).calls
    requires var stage := Exec(base, start, actions).calls[p].stage; stage.Finished? && stage.answer.Ok?
    ensures var s := Exec(base, start, actions);
            var call := s.calls[p];
            && AllPassed(s.past, call)
            && (call.caller.device.Some? && name in NamesOf(call.request) ==>
                  Vouched(s.past, call.begun, Check(call.caller.device.value, name, true)))
            && (call.request.GetDeviceKv? && call.caller.device != Some(call.request.device) ==>
                  Vouched(s.past, call.begun, Check(call.request.device, call.request.key, false)))
  {
    hide Exec, Vouched, NamesOf, Passed, Reads;
    StagesAreEstablished(base, start, actions);
    var s := Exec(base, start, actions);
    var call := s.calls[p];
    assert Established(s.past, call);
    var checks := ChecksOf(call.caller, call.request);
    if call.caller.device.Some? && name in NamesOf(call.request) { NameIsChecked(s.past, call, name); }
    if call.request.GetDeviceKv? && call.caller.device != Some(call.request.device) {
      assert checks[|checks| - 1] == Check(call.request.device, call.request.key, false);
      PassageVouches(s.past, call, |checks| - 1);
    }
  }

  /** So an entry is not touched by a call during which the device was never unbanned and then, or later,
      permitted the name. */
  lemma UnvouchedIsNotTouched(base: nat, start: Db, actions: seq<Action>, p: nat, e: EntryKey)
    requires p in Exec(base, start, actions).calls && Exec(base, start, actions).calls[p].caller.device.Some?
    requires var db := Exec(base, start, actions).db; forall r | r in db.recipients :: r < db.nextId
    requires var s := Exec(base, start, actions);
             !Vouched(s.past, s.calls[p].begun, Check(s.calls[p].caller.device.value, e.0, true))
    ensures var s := Exec(base, start, actions); SameEntry(s.db, CallStep(base, s.db, s.calls[p]).1, e)
  {
    hide Exec, TheRestIsSame, SameEntry, CallStep, Vouched, NamesOf, AllPassed;
    WritesAreVouched(base, start, actions, p, e);
  }

  // ---------------------------------------------------------------- a call on its own

  /** `n` steps of one call with nothing in between. */
  function Alone(base: nat, db: Db, call: Call, n: nat): (Call, Db) {
    if n == 0 then (call, db)
    else
      var (before, mid) := Alone(base, db, call, n - 1);
      var (stage, after) := CallStep(base, mid, before);
      (before.(stage := stage), after)
  }

  lemma {:induction false} AloneAdds(base: nat, db: Db, call: Call, m: nat, n: nat)
    ensures var (mid, tables) := Alone(base, db, call, m);
            Alone(base, db, call, m + n) == Alone(base, tables, mid, n)
  {
    hide CallStep;
    if n > 0 { AloneAdds(base, db, call, m, n - 1); }
  }

  function Advances(p: nat, n: nat): seq<Action> { seq(n, _ => Advance(p)) }

  /** Steps of one call in a row are that call on its own. */
  lemma {:induction false} AdvancesAreAlone(base: nat, start: Db, actions: seq<Action>, p: nat, n: nat)
    requires p in Exec(base, start, actions).calls
    ensures var s := Exec(base, start, actions);
            var t := Exec(base, start, actions + Advances(p, n));
            p in t.calls && (t.calls[p], t.db) == Alone(base, s.db, s.calls[p], n)
  {
    hide CallStep;
    if n == 0 {
      assert actions + Advances(p, 0) == actions;
    } else {
      AdvancesAreAlone(base, start, actions, p, n - 1);
      var longer := actions + Advances(p, n);
      assert longer[..|longer| - 1] == actions + Advances(p, n - 1);
      assert longer[|longer| - 1] == Advance(p);
    }
  }

  predicate Passes(db: Db, k: Check) {
    !Banned(db.bans, k.device, db.now) && KeyPermitted(db.policies, db.policyKeys, k.device, k.name)
  }

  /** Reads that pass one after another take a step each and change nothing. */
  lemma {:induction false} ReadsInARow(base: nat, db: Db, call: Call, m: nat, n: nat)
    requires m <= n <= Reads(call.caller, call.request) && call.stage == StageAfter(m)
    requires forall i | m <= i < n :: ReadPasses(db, call.caller, call.request, i)
    ensures Alone(base, db, call, n - m) == (call.(stage := StageAfter(n)), db)
  {
    hide ReadPasses, Reads, StageAfter, CallStep;
    if m < n {
      ReadsInARow(base, db, call, m, n - 1);
      ReadStep(base, db, call.(stage := StageAfter(n - 1)), n - 1);
    }
  }

  /** Checks that pass take two reads each and change nothing. */
  lemma PassingChecks(base: nat, db: Db, call: Call, n: nat)
    requires call.stage == Checking(0, false) && n <= |ChecksOf(call.caller, call.request)|
    requires forall i | 0 <= i < n :: Passes(db, ChecksOf(call.caller, call.request)[i])
    ensures Alone(base, db, call, 2 * n) == (call.(stage := Checking(n, false)), db)
  {
    hide ChecksOf, Alone, Banned, KeyPermitted, Enter;
    forall i | 1 <= i < 1 + 2 * n ensures ReadPasses(db, call.caller, call.request, i) {
      assert Passes(db, ChecksOf(call.caller, call.request)[(i - 1) / 2]);
    }
    ReadsInARow(base, db, call, 1, 1 + 2 * n);
  }

  /** The outcome of the first check that does not pass. */
  function Refusal(base: nat, db: Db, c: Claims, k: Check): (AppError, Db) {
    if Banned(db.bans, k.device, db.now) then (DeviceBanned, db)
    else if !k.own then (Forbidden, db)
    else if k.device !in db.bans && k.device !in db.devices then (Internal, db)
    else (DeviceBanned, db.(bans := AfterViolation(db.bans, k.device, c.owner, base, db.now, k.name)))
  }

  /** The first check that does not pass, or their number. */
  function FirstFailing(db: Db, checks: seq<Check>): (n: nat)
    ensures n <= |checks| && forall i | 0 <= i < n :: Passes(db, checks[i])
    ensures n < |checks| ==> !Passes(db, checks[n])
  {
    if checks == [] then 0
    else
      var n := FirstFailing(db, checks[..|checks| - 1]);
      if n < |checks| - 1 then n else if Passes(db, checks[n]) then n + 1 else n
  }

  /** The checks on their own: all pass, or the first that does not ends the call. */
  lemma ChecksAlone(base: nat, db: Db, call: Call) returns (n: nat)
    requires call.stage == Checking(0, false)
    ensures var checks := ChecksOf(call.caller, call.request);
            var f := FirstFailing(db, checks);
            Alone(base, db, call, n) ==
              if f == |checks| then (call.(stage := Working(0)), db)
              else (call.(stage := Finished(Err(Refusal(base, db, call.caller, checks[f]).0))),
                    Refusal(base, db, call.caller, checks[f]).1)
  {
    hide Banned, KeyPermitted, AfterViolation, ChecksOf;
    var checks := ChecksOf(call.caller, call.request);
    var f := FirstFailing(db, checks);
    PassingChecks(base, db, call, f);
    var one := Alone(base, db, call, 2 * f + 1);
    if f < |checks| && !Banned(db.bans, checks[f].device, db.now) {
      assert one == (call.(stage := Checking(f, true)), db);
      n := 2 * f + 2;
    } else {
      n := 2 * f + 1;
    }
  }

  /** The answer and the tables of the handler of a request. */
  function Handled(db: Db, base: nat, c: Claims, request: EntryRequest): (Answer, Db) {
    match request
    case GetDeviceKv(device, key) => FetchDeviceKv(db, base, c, device, key)
    case GetValue(key) => AdminRead(db, base, c, key)
    case PostValue(key, body) => var (r, after) := AdminWrite(db, base, c, key, body); (Done(r), after)
    case DeleteValue(key) => var (r, after) := AdminDelete(db, base, c, key); (Done(r), after)
    case PostImport(prefix, options, lines) =>
      var (r, after) := Import(db, base, c, prefix, options, lines);
      (if r.Err? then Err(r.error) else Ok(""), after)
    case PostDeviceKv(key, sealed, devices) =>
      var (r, after) := WriteDeviceKv(db, base, c, key, sealed, devices); (Done(r), after)
    case GetKv(allowed, key) => GetEntry(db, base, c, allowed, key)
    case PutKv(allowed, admin, key, body) =>
      var (r, after) := PutByKey(db, base, c, allowed, admin, key, body); (Done(r), after)
    case DeleteKv(allowed, key) => var (r, after) := DeleteByKey(db, base, c, allowed, key); (Done(r), after)
  }

  lemma HandledIsHandler(db: Db, base: nat, c: Claims, request: EntryRequest)
    ensures Handled(db, base, c, request).1 == HandleEntries(db, base, c, request)
  {
    hide FetchDeviceKv, AdminRead, AdminWrite, AdminDelete, Import, WriteDeviceKv, GetEntry, PutByKey, DeleteByKey;
  }

  /** The caller's check of one name, in the two forms. */
  lemma CheckIsAuthorize(base: nat, db: Db, c: Claims, name: string)
    requires c.device.Some?
    ensures var k := Check(c.device.value, name, true);
            AuthorizeCaller(db, base, c, name) ==
              if Passes(db, k) then (Ok(()), db) else (Err(Refusal(base, db, c, k).0), Refusal(base, db, c, k).1)
  {
    hide Banned, KeyPermitted, AfterViolation;
  }

  lemma {:induction false} ChecksAreAuthorizeAll(base: nat, db: Db, c: Claims, entries: seq<(string, string)>)
    ensures var checks := OwnChecks(c, Names(entries));
            var f := FirstFailing(db, checks);
            AuthorizeAll(db, base, c, entries) ==
              if f == |checks| then (Ok(()), db)
              else (Err(Refusal(base, db, c, checks[f]).0), Refusal(base, db, c, checks[f]).1)
  {
    hide AuthorizeCaller, Passes, Refusal;
    if entries != [] {
      var n := |entries| - 1;
      ChecksAreAuthorizeAll(base, db, c, entries[..n]);
      if c.device.Some? {
        CheckIsAuthorize(base, db, c, entries[n].0);
        assert OwnChecks(c, Names(entries))[..n] == OwnChecks(c, Names(entries[..n]));
      } else {
        BareCallerPasses(base, db, c, entries[n].0);
      }
    }
  }

  lemma BareCallerPasses(base: nat, db: Db, c: Claims, name: string)
    requires c.device.None?
    ensures AuthorizeCaller(db, base, c, name) == (Ok(()), db)
  {
  }

  lemma FirstOfFew(db: Db, k: Check, l: Check)
    ensures FirstFailing(db, []) == 0
    ensures FirstFailing(db, [k]) == if Passes(db, k) then 1 else 0
    ensures FirstFailing(db, [k, l]) == if !Passes(db, k) then 0 else if Passes(db, l) then 2 else 1
  {
    hide Passes;
    assert [k][..0] == [] && [k, l][..1] == [k];
  }

  lemma ChecksAreFew(c: Claims, request: EntryRequest)
    requires !request.PostImport?
    ensures ChecksOf(c, request)
         == (if c.device.Some? then [Check(c.device.value, request.key, true)] else []) + PathChecks(c, request)
  {
    assert OwnChecks(c, [request.key]) == if c.device.Some? then [Check(c.device.value, request.key, true)] else [];
  }

  /** One name: the checks are the caller's, and perhaps that of the path. */
  lemma ChecksOfOneName(base: nat, db: Db, c: Claims, request: EntryRequest)
    requires !request.PostImport?
    ensures var own := AuthorizeCaller(db, base, c, request.key);
            var checks := ChecksOf(c, request);
            var f := FirstFailing(db, checks);
            && (own.0.Err? ==> f < |checks| && own == (Err(Refusal(base, db, c, checks[f]).0),
                                                       Refusal(base, db, c, checks[f]).1))
            && (own.0.Ok? ==>
                  own == (Ok(()), db)
                  && if !request.GetDeviceKv? || c.device == Some(request.device)
                        || Passes(db, Check(request.device, request.key, false))
                     then f == |checks| else f < |checks| && checks[f] == Check(request.device, request.key, false))
  {
    hide AuthorizeCaller, Passes, Refusal, FirstFailing, ChecksOf;
    ChecksAreFew(c, request);
    var path := if request.GetDeviceKv? then Check(request.device, request.key, false) else Check(0, "", false);
    if c.device.Some? {
      CheckIsAuthorize(base, db, c, request.key);
      FirstOfFew(db, Check(c.device.value, request.key, true), path);
      assert [Check(c.device.value, request.key, true)] + [path] == [Check(c.device.value, request.key, true), path];
      assert [Check(c.device.value, request.key, true)] + [] == [Check(c.device.value, request.key, true)];
    } else {
      BareCallerPasses(base, db, c, request.key);
      FirstOfFew(db, path, path);
      assert [] + [path] == [path];
    }
  }

  lemma OneStepAlone(base: nat, db: Db, call: Call)
    ensures Alone(base, db, call, 1) == (call.(stage := CallStep(base, db, call).0), CallStep(base, db, call).1)
  {
    hide CallStep;
    assert Alone(base, db, call, 0) == (call, db);
  }

  lemma TwoStepsAlone(base: nat, db: Db, call: Call, stage: Stage, mid: Db)
    requires CallStep(base, db, call) == (stage, mid)
    ensures var next := CallStep(base, mid, call.(stage := stage));
            Alone(base, db, call, 2) == (call.(stage := next.0), next.1)
  {
    hide CallStep;
    OneStepAlone(base, db, call);
    assert Alone(base, db, call, 1) == (call.(stage := stage), mid);
  }

  /** Once the caller's check has passed, its device no longer matters. */
  lemma PassedIsBare(db: Db, base: nat, c: Claims, request: EntryRequest)
    requires !request.GetDeviceKv? && !request.PostImport?
    requires AuthorizeCaller(db, base, c, request.key) == (Ok(()), db)
    ensures Handled(db, base, c, request) == Handled(db, 0, Bare(c), request)
  {
    hide AuthorizeKey, PutEntry, DropEntry, MayAccess, Present, Readable, RecipientsValid, MarkEncrypted,
      NewRecipients, WithoutEntry;
    BareCallerPasses(0, db, Bare(c), request.key);
  }

  lemma ReadAlone(base: nat, db: Db, call: Call) returns (n: nat)
    requires call.stage == Working(0) && call.request.GetKv?
    ensures var done := Handled(db, 0, Bare(call.caller), call.request);
            Alone(base, db, call, n) == (call.(stage := Finished(done.0)), done.1)
  {
    hide MayAccess, Readable, Alone;
    var (c, key) := (call.caller, call.request.key);
    BareCallerPasses(0, db, Bare(c), key);
    var (stage, after) := CallStep(base, db, call);
    if stage.Closing? {
      TwoStepsAlone(base, db, call, stage, db);
      n := 2;
    } else {
      OneStepAlone(base, db, call);
      n := 1;
    }
  }

  lemma WorkAlone(base: nat, db: Db, call: Call) returns (n: nat)
    requires call.stage == Working(0) && !call.request.GetDeviceKv? && !call.request.PostImport?
    requires AuthorizeCaller(db, base, call.caller, call.request.key) == (Ok(()), db)
    ensures var done := Handled(db, base, call.caller, call.request);
            Alone(base, db, call, n) == (call.(stage := Finished(done.0)), done.1)
  {
    hide Alone, AuthorizeCaller, AdminRead, AdminWrite, AdminDelete, WriteDeviceKv, PutByKey, DeleteByKey, GetEntry;
    PassedIsBare(db, base, call.caller, call.request);
    if call.request.GetKv? {
      n := ReadAlone(base, db, call);
    } else {
      OneStepAlone(base, db, call);
      BareReadChangesNothing(db, call.caller, call.request);
      n := 1;
    }
  }

  lemma BareReadChangesNothing(db: Db, c: Claims, request: EntryRequest)
    ensures request.GetValue? ==> Handled(db, 0, Bare(c), request).1 == db
  {
  }

  lemma FetchAlone(base: nat, db: Db, call: Call) returns (n: nat)
    requires call.stage == Working(0) && call.request.GetDeviceKv?
    requires var (c, device, key) := (call.caller, call.request.device, call.request.key);
             && device in db.devices && db.devices[device].owner == c.owner
             && AuthorizeCaller(db, base, c, key) == (Ok(()), db)
             && (c.device == Some(device) || Passes(db, Check(device, key, false)))
    ensures var done := Handled(db, base, call.caller, call.request);
            Alone(base, db, call, n) == (call.(stage := Finished(done.0)), done.1)
  {
    hide Alone, AuthorizeCaller, Touch, Banned, KeyPermitted, ReceivedBy;
    var (stage, after) := CallStep(base, db, call);
    if stage.Closing? {
      TwoStepsAlone(base, db, call, stage, db);
      n := 2;
    } else {
      OneStepAlone(base, db, call);
      n := 1;
    }
  }

  /** The rows of an import, one statement each. */
  lemma {:induction false} RowsAlone(base: nat, db: Db, call: Call, n: nat)
    requires call.stage == Working(0) && call.request.PostImport?
    requires ParseFile(call.request.prefix, call.request.lines).Ok?
    requires n <= |ParseFile(call.request.prefix, call.request.lines).value|
    ensures var entries := ParseFile(call.request.prefix, call.request.lines).value;
            Alone(base, db, call, n)
              == (call.(stage := Working(n)), PutAll(db, call.caller.owner, call.request.options, entries[..n]))
  {
    hide ParseFile, PutEntry, ImportBody;
    if n > 0 {
      var entries := ParseFile(call.request.prefix, call.request.lines).value;
      RowsAlone(base, db, call, n - 1);
      assert entries[..n][..n - 1] == entries[..n - 1] && entries[..n][n - 1] == entries[n - 1];
    }
  }

  lemma ImportAlone(base: nat, db: Db, call: Call) returns (n: nat)
    requires call.stage == Working(0) && call.request.PostImport?
    requires ParseFile(call.request.prefix, call.request.lines).Ok?
    requires AuthorizeAll(db, base, call.caller, ParseFile(call.request.prefix, call.request.lines).value) == (Ok(()), db)
    ensures var done := Handled(db, base, call.caller, call.request);
            Alone(base, db, call, n) == (call.(stage := Finished(done.0)), done.1)
  {
    hide ParseFile, PutAll, AuthorizeAll;
    var entries := ParseFile(call.request.prefix, call.request.lines).value;
    RowsAlone(base, db, call, |entries|);
    assert entries[..|entries|] == entries;
    n := |entries| + 1;
  }

  /** What is left of a call when its checks begin. */
  lemma CheckedAlone(base: nat, db: Db, call: Call) returns (n: nat)
    requires call.stage == Checking(0, false) && Enter(db, call.caller, call.request) == Checking(0, false)
    ensures var done := Handled(db, base, call.caller, call.request);
            Alone(base, db, call, n) == (call.(stage := Finished(done.0)), done.1)
  {
    hide Alone, AuthorizeCaller, AuthorizeAll, Refusal, FirstFailing, Passes, ChecksOf, ParseFile;
    var (c, request) := (call.caller, call.request);
    var checks := ChecksOf(c, request);
    var f := FirstFailing(db, checks);
    n := ChecksAlone(base, db, call);
    if f < |checks| {
      RefusedIsHandled(base, db, c, request);
    } else {
      var working := call.(stage := Working(0));
      var m: nat;
      if request.PostImport? {
        ImportChecksPass(base, db, c, request);
        m := ImportAlone(base, db, working);
      } else {
        ChecksOfOneName(base, db, c, request);
        if request.GetDeviceKv? { m := FetchAlone(base, db, working); } else { m := WorkAlone(base, db, working); }
      }
      AloneAdds(base, db, call, n, m);
      n := n + m;
    }
  }

  lemma ImportChecksPass(base: nat, db: Db, c: Claims, request: EntryRequest)
    requires request.PostImport? && ParseFile(request.prefix, request.lines).Ok?
    ensures var checks := ChecksOf(c, request);
            var f := FirstFailing(db, checks);
            AuthorizeAll(db, base, c, ParseFile(request.prefix, request.lines).value) ==
              if f == |checks| then (Ok(()), db)
              else (Err(Refusal(base, db, c, checks[f]).0), Refusal(base, db, c, checks[f]).1)
  {
    hide AuthorizeAll, Refusal, FirstFailing, ParseFile;
    var entries := ParseFile(request.prefix, request.lines).value;
    ChecksAreAuthorizeAll(base, db, c, entries);
    assert ChecksOf(c, request) == OwnChecks(c, Names(entries));
  }

  lemma RefusedIsHandled(base: nat, db: Db, c: Claims, request: EntryRequest)
    requires FirstFailing(db, ChecksOf(c, request)) < |ChecksOf(c, request)|
    requires Enter(db, c, request) == Checking(0, false)
    ensures var k := ChecksOf(c, request)[FirstFailing(db, ChecksOf(c, request))];
            Handled(db, base, c, request) == (Err(Refusal(base, db, c, k).0), Refusal(base, db, c, k).1)
  {
    hide AuthorizeAll, AuthorizeCaller, FirstFailing, ParseFile, PutAll, ChecksOf;
    if request.PostImport? {
      ImportChecksPass(base, db, c, request);
    } else if AuthorizeCaller(db, base, c, request.key).0.Ok? {
      ChecksOfOneName(base, db, c, request);
      hide Banned, KeyPermitted;
    } else {
      ChecksOfOneName(base, db, c, request);
      RefusedCallerIsHandled(base, db, c, request);
    }
  }

  lemma RefusedCallerIsHandled(base: nat, db: Db, c: Claims, request: EntryRequest)
    requires !request.PostImport? && Enter(db, c, request) == Checking(0, false)
    requires AuthorizeCaller(db, base, c, request.key).0.Err?
    ensures var own := AuthorizeCaller(db, base, c, request.key);
            Handled(db, base, c, request) == (Err(own.0.error), own.1)
  {
    hide AuthorizeCaller;
  }

  /** A call that nothing interrupts answers and leaves the tables as its handler does. */
  lemma UninterruptedIsHandler(base: nat, start: Db, actions: seq<Action>, p: nat, c: Claims, request: EntryRequest)
      returns (n: nat)
    requires p !in Exec(base, start, actions).calls
    ensures var s := Exec(base, start, actions);
            var t := Exec(base, start, actions + [Begin(p, c, request)] + Advances(p, n));
            && p in t.calls && t.calls[p].stage == Finished(Handled(s.db, base, c, request).0)
            && t.db == HandleEntries(s.db, base, c, request)
  {
    hide Handled, CallStep, Enter, Alone;
    var s := Exec(base, start, actions);
    var begun := actions + [Begin(p, c, request)];
    assert begun[..|begun| - 1] == actions && begun[|begun| - 1] == Begin(p, c, request);
    HandledIsHandler(s.db, base, c, request);
    n := EnteredAlone(base, s.db, Call(c, request, |s.past|, Entered));
    AdvancesAreAlone(base, start, begun, p, n);
  }

  lemma EnteredAlone(base: nat, db: Db, call: Call) returns (n: nat)
    requires call.stage == Entered
    ensures var done := Handled(db, base, call.caller, call.request);
            Alone(base, db, call, n) == (call.(stage := Finished(done.0)), done.1)
  {
    hide Handled, Alone, Enter;
    OneStepAlone(base, db, call);
    EnterChecks(db, call.caller, call.request);
    if Enter(db, call.caller, call.request).Finished? {
      EnteredAndRefused(base, db, call.caller, call.request);
      n := 1;
    } else {
      var m := CheckedAlone(base, db, call.(stage := Checking(0, false)));
      AloneAdds(base, db, call, 1, m);
      n := 1 + m;
    }
  }

  lemma EnteredAndRefused(base: nat, db: Db, c: Claims, request: EntryRequest)
    requires Enter(db, c, request).Finished?
    ensures Handled(db, base, c, request) == (Enter(db, c, request).answer, db)
  {
    hide ParseFile;
  }

  // ---------------------------------------------------------------- the check is not the write

  /** The tables go through the history `h`, and during each of them the call takes some steps. */
  function Interleaved(h: seq<Db>, steps: seq<nat>): seq<Action>
    requires |h| == |steps|
  {
    if h == [] then []
    else
      var n := |h| - 1;
      Interleaved(h[..n], steps[..n]) + [Elsewhere(h[n])] + Advances(0, steps[n])
  }

  function Schedule(c: Claims, request: EntryRequest, h: seq<Db>, steps: seq<nat>): seq<Action>
    requires |h| == |steps|
  {
    [Begin(0, c, request)] + Interleaved(h, steps)
  }

  /** On this schedule the call has passed its reads, and its work is next, in the last tables of the history. */
  ghost predicate Reaches(base: nat, start: Db, c: Claims, request: EntryRequest, h: seq<Db>, steps: seq<nat>) {
    && |h| == |steps| > 0
    && var s := Exec(base, start, Schedule(c, request, h, steps));
       0 in s.calls && s.calls[0] == Call(c, request, 0, Working(0)) && s.db == h[|h| - 1]
  }

  lemma JustBegan(base: nat, db: Db, c: Claims, request: EntryRequest)
    ensures var s := Exec(base, db, [Begin(0, c, request)]);
            0 in s.calls && s.calls[0] == Call(c, request, 0, Entered) && s.db == db
  {
    assert [Begin(0, c, request)][..0] == [];
  }

  lemma TablesReplaced(base: nat, db: Db, actions: seq<Action>, later: Db)
    ensures var t := Exec(base, db, actions + [Elsewhere(later)]);
            t.db == later && t.calls == Exec(base, db, actions).calls
  {
    assert (actions + [Elsewhere(later)])[..|actions|] == actions;
  }

  /** The last tables of a schedule and the steps during them. */
  lemma LastPart(base: nat, start: Db, c: Claims, request: EntryRequest, h: seq<Db>, steps: seq<nat>)
    requires |h| == |steps| > 0
    requires 0 in Exec(base, start, Schedule(c, request, h[..|h| - 1], steps[..|h| - 1])).calls
    ensures var n := |h| - 1;
            var call := Exec(base, start, Schedule(c, request, h[..n], steps[..n])).calls[0];
            var t := Exec(base, start, Schedule(c, request, h, steps));
            0 in t.calls && (t.calls[0], t.db) == Alone(base, h[n], call, steps[n])
  {
    hide Exec, Alone;
    var n := |h| - 1;
    var before := Schedule(c, request, h[..n], steps[..n]);
    TablesReplaced(base, start, before, h[n]);
    AdvancesAreAlone(base, start, before + [Elsewhere(h[n])], 0, steps[n]);
    assert Schedule(c, request, h, steps) == before + [Elsewhere(h[n])] + Advances(0, steps[n]);
  }

  lemma {:induction false} AloneIsFounded(base: nat, h: seq<Db>, call: Call, n: nat)
    requires h != [] && Founded(h, call.caller, call.request, call.stage)
    ensures var (after, db) := Alone(base, h[|h| - 1], call, n);
            && after == call.(stage := after.stage) && Founded(h, call.caller, call.request, after.stage)
            && (Reading(after.stage) ==> db == h[|h| - 1])
  {
    hide Founded, CallStep, Reading;
    if n > 0 {
      AloneIsFounded(base, h, call, n - 1);
      var (before, db) := Alone(base, h[|h| - 1], call, n - 1);
      StepIsFounded(base, h, db, before);
    }
  }

  /** On every schedule the stage of the call rests on the history. */
  lemma {:induction false} ScheduleIsFounded(base: nat, start: Db, c: Claims, request: EntryRequest, h: seq<Db>,
                                             steps: seq<nat>)
    requires |h| == |steps|
    ensures var s := Exec(base, start, Schedule(c, request, h, steps));
            && 0 in s.calls && s.calls[0] == Call(c, request, 0, s.calls[0].stage)
            && Founded(h, c, request, s.calls[0].stage)
  {
    hide Exec, Alone;
    if h == [] {
      assert Schedule(c, request, h, steps) == [Begin(0, c, request)];
      JustBegan(base, start, c, request);
    } else {
      hide Founded;
      var n := |h| - 1;
      ScheduleIsFounded(base, start, c, request, h[..n], steps[..n]);
      LastPart(base, start, c, request, h, steps);
      var call := Exec(base, start, Schedule(c, request, h[..n], steps[..n])).calls[0];
      assert h == h[..n] + [h[n]];
      FoundedStays(h[..n], h[n], c, request, call.stage);
      AloneIsFounded(base, h, call, steps[n]);
    }
  }

  /** How many of the instants come before `m`; the rest do not. */
  function Before(at: seq<nat>, m: nat): (n: nat)
    requires forall i, j | 0 <= i < j < |at| :: at[i] <= at[j]
    ensures n <= |at| && (forall i | 0 <= i < n :: at[i] < m) && (forall i | n <= i < |at| :: at[i] >= m)
  {
    if at == [] || at[0] >= m then 0 else 1 + Before(at[1..], m)
  }

  /** A passage is a schedule: take each read at its instant. */
  lemma {:induction false} PassageIsScheduled(base: nat, start: Db, c: Claims, request: EntryRequest, h: seq<Db>,
                                              at: seq<nat>) returns (steps: seq<nat>)
    requires Passage(h, c, request, at)
    ensures |h| == |steps|
    ensures var s := Exec(base, start, Schedule(c, request, h, steps));
            && 0 in s.calls && s.calls[0] == Call(c, request, 0, StageAfter(|at|))
            && (h != [] ==> s.db == h[|h| - 1])
    decreases |h|
  {
    hide Exec, Alone, ReadPasses, Reads, StageAfter;
    if h == [] {
      steps := [];
      assert Schedule(c, request, h, steps) == [Begin(0, c, request)];
      assert StageAfter(0) == Entered by { ProgressIsStage(Entered); }
      JustBegan(base, start, c, request);
    } else {
      var m := |h| - 1;
      var n := Before(at, m);
      assert Passage(h[..m], c, request, at[..n]);
      var earlier := PassageIsScheduled(base, start, c, request, h[..m], at[..n]);
      steps := earlier + [|at| - n];
      assert steps[..m] == earlier;
      LastPart(base, start, c, request, h, steps);
      forall i | n <= i < |at| ensures ReadPasses(h[m], c, request, i) { assert at[i] == m; }
      ReadsInARow(base, h[m], Call(c, request, 0, StageAfter(n)), n, |at|);
    }
  }

  /** One more step at the end of a schedule. */
  lemma OneMoreStep(base: nat, start: Db, c: Claims, request: EntryRequest, h: seq<Db>, steps: seq<nat>)
    requires |h| == |steps| > 0 && 0 in Exec(base, start, Schedule(c, request, h, steps)).calls
    ensures var n := |h| - 1;
            var s := Exec(base, start, Schedule(c, request, h, steps));
            var t := Exec(base, start, Schedule(c, request, h, steps[n := steps[n] + 1]));
            var (stage, db) := CallStep(base, s.db, s.calls[0]);
            0 in t.calls && t.calls[0] == s.calls[0].(stage := stage) && t.db == db
  {
    hide CallStep;
    var n := |h| - 1;
    var longer := steps[n := steps[n] + 1];
    assert longer[..n] == steps[..n];
    assert Advances(0, steps[n] + 1) == Advances(0, steps[n]) + [Advance(0)];
    var actions := Schedule(c, request, h, steps);
    assert Schedule(c, request, h, longer) == actions + [Advance(0)];
    assert (actions + [Advance(0)])[..|actions|] == actions;
  }

  /** For every request and every history of the tables: on some schedule the request gets to its work exactly if
      the history has instants, in order, at which its reads pass. */
  lemma WorkIsReachedExactlyIfTheReadsPass(base: nat, start: Db, c: Claims, request: EntryRequest, h: seq<Db>)
    ensures (exists steps :: Reaches(base, start, c, request, h, steps)) <==> Passed(h, c, request, Reads(c, request))
  {
    hide Exec, Schedule, Reads, Passage, StageAfter, CallStep;
    if Passed(h, c, request, Reads(c, request)) {
      var at: seq<nat> :| |at| == Reads(c, request) && Passage(h, c, request, at);
      PassageNeedsHistory(h, c, request, at);
      var steps := PassageIsScheduled(base, start, c, request, h, at);
      OneMoreStep(base, start, c, request, h, steps);
      ReadsDone(base, h[|h| - 1], Call(c, request, 0, StageAfter(|at|)));
      assert Reaches(base, start, c, request, h, steps[|h| - 1 := steps[|h| - 1] + 1]);
    }
    if steps :| Reaches(base, start, c, request, h, steps) {
      ScheduleIsFounded(base, start, c, request, h, steps);
    }
  }

  lemma PassageNeedsHistory(h: seq<Db>, c: Claims, request: EntryRequest, at: seq<nat>)
    requires |at| == Reads(c, request) && Passage(h, c, request, at)
    ensures h != []
  {
    assert at[0] < |h|;
  }

  lemma WriteStep(base: nat, db: Db, call: Call)
    requires call.stage == Working(0) && call.request.PostValue?
    ensures CallStep(base, db, call).1 == PutEntry(db, call.caller.owner, call.request.key, call.request.body)
  {
  }

  /** A request with one name passes its reads exactly if the device is unbanned and then, or later, permitted. */
  lemma OneNamePasses(h: seq<Db>, c: Claims, request: EntryRequest)
    requires c.device.Some? && !request.GetDeviceKv? && !request.PostImport?
    ensures Passed(h, c, request, Reads(c, request)) <==> Vouched(h, 0, Check(c.device.value, request.key, true))
  {
    hide Banned, KeyPermitted, ChecksOf, Passed, Vouched;
    ChecksAreFew(c, request);
    var k := Check(c.device.value, request.key, true);
    assert ChecksOf(c, request) == [k];
    if Passed(h, c, request, Reads(c, request)) {
      assert h[0..] == h;
      PassageVouches(h, Call(c, request, 0, Entered), 0);
    }
    if Vouched(h, 0, k) { VouchedPasses(h, c, request, k); }
  }

  lemma VouchedPasses(h: seq<Db>, c: Claims, request: EntryRequest, k: Check)
    requires !request.GetDeviceKv? && !request.PostImport? && ChecksOf(c, request) == [k] && Vouched(h, 0, k)
    ensures Passed(h, c, request, Reads(c, request))
  {
    hide Banned, KeyPermitted, ChecksOf;
    var t: nat, u: nat :| t <= u && UnbannedAt(h, t, k.device) && PermittedAt(h, u, k.device, k.name);
    var at := [t, t, u];
    assert forall i | 0 <= i < 3 :: ReadPasses(h[at[i]], c, request, i);
    assert Passage(h, c, request, at);
  }

  /** The write of an entry goes through, into the last tables of the history. */
  ghost predicate Writes(base: nat, start: Db, c: Claims, key: string, body: EntryBody, h: seq<Db>, steps: seq<nat>) {
    && Reaches(base, start, c, PostValue(key, body), h, steps)
    && Exec(base, start, Schedule(c, PostValue(key, body), h, steps) + [Advance(0)]).db
       == PutEntry(h[|h| - 1], c.owner, key, body)
  }

  /** For every history of the tables: on some schedule an entry is written into the last ones exactly if the
      history has an instant without a ban and, then or later, one at which the policy permits the name. The last
      tables themselves have no say. */
  lemma NameIsWrittenExactlyIfVouched(base: nat, start: Db, c: Claims, key: string, body: EntryBody, h: seq<Db>)
    requires c.device.Some?
    ensures (exists steps :: Writes(base, start, c, key, body, h, steps))
        <==> Vouched(h, 0, Check(c.device.value, key, true))
  {
    hide Exec, Schedule, Reads, Passed, Vouched, Reaches, PutEntry;
    var request := PostValue(key, body);
    OneNamePasses(h, c, request);
    WorkIsReachedExactlyIfTheReadsPass(base, start, c, request, h);
    if Vouched(h, 0, Check(c.device.value, key, true)) {
      var steps :| Reaches(base, start, c, request, h, steps);
      ReachedIsWritten(base, start, c, key, body, h, steps);
    }
  }

  lemma ReachedIsWritten(base: nat, start: Db, c: Claims, key: string, body: EntryBody, h: seq<Db>, steps: seq<nat>)
    requires Reaches(base, start, c, PostValue(key, body), h, steps)
    ensures Writes(base, start, c, key, body, h, steps)
  {
    hide Schedule, PutEntry, CallStep;
    var actions := Schedule(c, PostValue(key, body), h, steps);
    assert (actions + [Advance(0)])[..|actions|] == actions;
    WriteStep(base, h[|h| - 1], Call(c, PostValue(key, body), 0, Working(0)));
  }

  lemma {:induction false} FinishedStays(base: nat, db: Db, call: Call, n: nat)
    requires call.stage.Finished?
    ensures Alone(base, db, call, n) == (call, db)
  {
    if n > 0 { FinishedStays(base, db, call, n - 1); }
  }

  /** What two steps of a write make of its first reads, and of its last. */
  lemma FirstReads(base: nat, db: Db, call: Call)
    requires call.stage == Entered && call.request.PostValue? && call.caller.device.Some?
    ensures var (after, tables) := Alone(base, db, call, 2);
            && after == call.(stage := after.stage)
            && if Banned(db.bans, call.caller.device.value, db.now) then after.stage.Finished?
               else after.stage == Checking(0, true) && tables == db
  {
    hide Alone, Banned, ChecksOf;
    ChecksAreFew(call.caller, call.request);
    TwoStepsAlone(base, db, call, Checking(0, false), db);
  }

  lemma LastRead(base: nat, db: Db, call: Call)
    requires call.stage == Checking(0, true) && call.request.PostValue? && call.caller.device.Some?
    ensures var (after, tables) := Alone(base, db, call, 2);
            && after == call.(stage := after.stage)
            && if !KeyPermitted(db.policies, db.policyKeys, call.caller.device.value, call.request.key)
               then after.stage.Finished? else after.stage == Working(0) && tables == db
  {
    hide Alone, KeyPermitted, AfterViolation, ChecksOf;
    ChecksAreFew(call.caller, call.request);
    assert |ChecksOf(call.caller, call.request)| == 1;
    var (stage, after) := CallStep(base, db, call);
    TwoStepsAlone(base, db, call, stage, after);
  }

  /** One schedule for any three tables: `a` when the ban is read, `b` when the policy is read, `later` when the
      entry is written. The check is not repeated: the entry is written exactly if `a` has no ban and `b` permits
      the name, whatever `later` says of either. */
  lemma CheckedNameIsWrittenLater(base: nat, start: Db, a: Db, b: Db, later: Db, c: Claims, key: string, body: EntryBody)
    requires c.device.Some?
    ensures Exec(base, start, Schedule(c, PostValue(key, body), [a, b, later], [2, 2, 1])).db
         == if !Banned(a.bans, c.device.value, a.now) && KeyPermitted(b.policies, b.policyKeys, c.device.value, key)
            then PutEntry(later, c.owner, key, body) else later
  {
    hide Exec, Alone, Schedule, PutEntry, Banned, KeyPermitted, CallStep;
    var request := PostValue(key, body);
    var (call, h) := (Call(c, request, 0, Entered), [a, b, later]);
    var steps: seq<nat> := [2, 2, 1];
    Beginning(base, start, c, request);
    assert h[..2] == [a, b] && h[..2][..1] == [a] && [a][..0] == [];
    assert steps[..2] == [2, 2] && steps[..2][..1] == [2] && [2 as nat][..0] == [];
    LastPart(base, start, c, request, [a], [2]);
    FirstReads(base, a, call);
    LastPart(base, start, c, request, h[..2], steps[..2]);
    var unbanned := Alone(base, a, call, 2).0;
    if unbanned.stage.Finished? { FinishedStays(base, b, unbanned, 2); } else { LastRead(base, b, unbanned); }
    LastPart(base, start, c, request, h, steps);
    var checked := Alone(base, b, unbanned, 2).0;
    if checked.stage.Finished? {
      FinishedStays(base, later, checked, 1);
    } else {
      OneStepAlone(base, later, checked);
      WriteStep(base, later, checked);
    }
  }

  lemma Beginning(base: nat, start: Db, c: Claims, request: EntryRequest)
    ensures var s := Exec(base, start, Schedule(c, request, [], []));
            0 in s.calls && s.calls[0] == Call(c, request, 0, Entered)
  {
    assert Schedule(c, request, [], []) == [Begin(0, c, request)];
    JustBegan(base, start, c, request);
  }

  /** A device without a policy, and the same device banned and allowed nothing. */
  const FREE: Db := EmptyDb(0).(devices := map[0 := Device("owner", "device", "key", "type", None)])

  const SHUT_OUT: Db :=
    FREE.(bans := map[0 := BanRow("owner", Some(0), Some(60), 1, None)],
          policies := map[0 := PolicyRow("owner", "allow_list", None)])

  /** The device is banned and refused the name between its check and its write, and the entry is written. */
  lemma BannedAndRefusedNameIsWritten(base: nat, body: EntryBody)
    ensures Banned(SHUT_OUT.bans, 0, SHUT_OUT.now)
    ensures !KeyPermitted(SHUT_OUT.policies, SHUT_OUT.policyKeys, 0, "name") && SHUT_OUT.kv == map[]
    ensures var request := PostValue("name", body);
            var after := Exec(base, FREE, Schedule(Claims("owner", Some(0), 0), request,
                                                   [FREE, FREE, SHUT_OUT], [2, 2, 1])).db;
            ("name", "owner") in after.kv && after.kv[("name", "owner")].value == body.value
  {
    hide Exec, Schedule;
    CheckedNameIsWrittenLater(base, FREE, FREE, FREE, SHUT_OUT, Claims("owner", Some(0), 0), "name", body);
    assert KeysOf([], 0) == [];
    assert ParseMode("allow_list") == Some(AllowList);
  }
}
