/** What a policy means for its device: which updates are taken, which names they leave readable, and who may
    still manage credentials. The modes are given by the names that clients send. */
module PolicyMeaning {
  import opened Basics
  import opened Text
  import opened Regex
  import opened Policy
  import opened PatternText
  import opened Tables
  import opened Handlers

  predicate ListMode(mode: string) { mode == "allow_list" || mode == "deny_list" }

  /** A list is taken exactly if it has at most 500 names, of at most 256 characters once trimmed, and not all of
      them are blank; a pattern exactly if it compiles; no other mode is taken but `allow_all`. */
  lemma UpdateIsTakenExactly(body: UpdateRequest)
    ensures Validated(body).Ok? <==>
              || body.mode == "allow_all"
              || (ListMode(body.mode) && |body.keys| <= 500 && (forall k | k in body.keys :: |Trim(k)| <= 256)
                  && exists k | k in body.keys :: Trim(k) != "")
              || (body.mode == "regex" && body.pattern.Some? && CompilePattern(Trim(body.pattern.value)).Some?)
    ensures Validated(body).Err? ==> Validated(body).error == BadRequest
  {
    hide CompilePattern, Trim;
    DistinctIsExact(body.keys);
    if Distinct(body.keys) != [] {
      assert Listed(body.keys, Distinct(body.keys)[0]);
    }
    forall k | k in body.keys && Trim(k) != "" ensures Distinct(body.keys) != [] {
      assert Listed(body.keys, Trim(k));
    }
    EmptyDoesNotCompile();
  }

  lemma EmptyDoesNotCompile()
    ensures CompilePattern("").None?
  {
  }

  /** Only an owner without a device of its own sets a policy, of an own device, and only a valid one; nothing
      else is saved. */
  lemma PolicyIsSetExactly(db: Db, c: Claims, device: Id, body: UpdateRequest)
    ensures UpdatePolicy(db, c, device, body).0
         == if c.device.Some? then Err(Forbidden)
            else if device !in db.devices || db.devices[device].owner != c.owner then Err(NotFound)
            else if Validated(body).Err? then Err(BadRequest) else Ok(())
    ensures UpdatePolicy(db, c, device, body).0.Err? ==> UpdatePolicy(db, c, device, body).1 == db
  {
    hide Validated, SavedPolicies, SavedKeys;
    UpdateIsTakenExactly(body);
  }

  // ---------------------------------------------------------------- the names that a policy leaves readable

  lemma SavedDecision(db: Db, c: Claims, device: Id, body: UpdateRequest, name: string)
    requires UpdatePolicy(db, c, device, body).0.Ok?
    ensures Validated(body).Ok?
    ensures var (after, n) := (UpdatePolicy(db, c, device, body).1, Validated(body).value);
            && LoadPolicy(after.policies, after.policyKeys, device) == Some(LoadedPolicy(n.mode, n.keys, n.pattern))
            && (KeyPermitted(after.policies, after.policyKeys, device, name) <==> Meant(body, name))
  {
    hide LoadPolicy, KeyPermitted, Meant, SavedPolicies, SavedKeys;
    SavedPolicyIsLoaded(db.policies, db.policyKeys, c.owner, device, Validated(body).value, device + 1);
    SavedPolicyMeansRequest(db.policies, db.policyKeys, c.owner, device, body, name, device + 1);
  }

  /** From then on the device may read every name, the listed names, or all but the listed ones. */
  lemma ListDecides(db: Db, c: Claims, device: Id, body: UpdateRequest, name: string)
    requires UpdatePolicy(db, c, device, body).0.Ok?
    ensures var after := UpdatePolicy(db, c, device, body).1;
            var permitted := KeyPermitted(after.policies, after.policyKeys, device, name);
            var listed := name != "" && exists k | k in body.keys :: Trim(k) == name;
            && (body.mode == "allow_all" ==> permitted)
            && (body.mode == "allow_list" ==> (permitted <==> listed))
            && (body.mode == "deny_list" ==> (permitted <==> !listed))
  {
    hide UpdatePolicy, KeyPermitted;
    SavedDecision(db, c, device, body, name);
  }

  /** Or, if the pattern is the text of some tree, the words of that tree. */
  lemma PatternDecides(db: Db, c: Claims, device: Id, body: UpdateRequest, re: Re, lazy: bool, name: string)
    requires UpdatePolicy(db, c, device, body).0.Ok? && body.mode == "regex" && AnchorFree(re)
    requires body.pattern.Some? && Trim(body.pattern.value) == PrintAlternatives(re, lazy)
    requires 0 < |PrintAlternatives(re, lazy)| <= MAX_PATTERN_LEN && Nest(ShapeAlternatives(re)) <= NEST_LIMIT - 2
    ensures var after := UpdatePolicy(db, c, device, body).1;
            KeyPermitted(after.policies, after.policyKeys, device, name) <==> InLanguage(re, name)
  {
    hide UpdatePolicy, LoadPolicy, CompilePattern, IsMatch, InLanguage, AnchorFree, Nest;
    SavedDecision(db, c, device, body, name);
    PrintedPatternAcceptsItsLanguage(re, lazy, name);
  }

  lemma {:induction false} KeysOfAreRows(table: KeyTable, device: Id, name: string)
    ensures name in KeysOf(table, device) <==> (device, name) in table
  {
    if table != [] {
      KeysOfAreRows(table[1..], device, name);
      assert table == [table[0]] + table[1..];
    }
  }

  /** A device without a policy may read everything; a stored mode that nobody knows is read as a list of the
      names that are allowed. */
  lemma StoredModeDecides(policies: map<Id, PolicyRow>, table: KeyTable, device: Id, name: string)
    ensures device !in policies ==> KeyPermitted(policies, table, device, name)
    ensures device in policies && policies[device].mode != "allow_all" && policies[device].mode != "deny_list"
            && policies[device].mode != "regex" ==>
              (KeyPermitted(policies, table, device, name) <==> (device, name) in table)
  {
    hide CompilePattern, IsMatch;
    KeysOfAreRows(table, device, name);
  }

  /** Nobody but a device is shown less than everything. */
  lemma OnlyDevicesAreFiltered(policies: map<Id, PolicyRow>, table: KeyTable, name: string)
    ensures ListingFilter(policies, table, None).Allows(name)
  {
  }

  // ---------------------------------------------------------------- who may manage credentials

  /** A device may manage credentials exactly if its policy is `allow_all`, or it has none. Setting a policy
      changes this for no other caller. */
  lemma PolicyDecidesManagement(db: Db, c: Claims, device: Id, body: UpdateRequest, other: Claims)
    requires UpdatePolicy(db, c, device, body).0.Ok?
    ensures var after := UpdatePolicy(db, c, device, body).1;
            MayManageCredentials(after, other)
            <==> if other.device == Some(device) then body.mode == "allow_all" else MayManageCredentials(db, other)
  {
    hide UpdatePolicy, LoadPolicy;
    SavedDecision(db, c, device, body, "");
    if other.device.Some? && other.device != Some(device) {
      OthersAreLoaded(db, c, device, body, other.device.value);
    }
    ModeOfUpdate(body);
  }

  lemma OthersAreLoaded(db: Db, c: Claims, device: Id, body: UpdateRequest, other: Id)
    requires UpdatePolicy(db, c, device, body).0.Ok? && other != device
    ensures var after := UpdatePolicy(db, c, device, body).1;
            LoadPolicy(after.policies, after.policyKeys, other) == LoadPolicy(db.policies, db.policyKeys, other)
  {
    hide LoadPolicy, SavedPolicies, SavedKeys;
    SavedPolicyIsLoaded(db.policies, db.policyKeys, c.owner, device, Validated(body).value, other);
  }

  lemma ModeOfUpdate(body: UpdateRequest)
    requires Validated(body).Ok?
    ensures Validated(body).value.mode == AllowAll <==> body.mode == "allow_all"
  {
    hide Distinct, CompilePattern, Trim;
  }

  /** Whoever has no device, or one without a policy, may manage credentials and every key. */
  lemma UnrestrictedManagesEverything(db: Db, c: Claims, k: Id)
    requires c.device.None? || c.device.value !in db.policies
    ensures MayManageCredentials(db, c) && MayManageKey(db, c, k)
  {
  }

  /** A caller that may not manage credentials may still manage the keys of its own device. */
  lemma RestrictedManagesItsOwnKeys(db: Db, c: Claims, k: Id)
    requires !MayManageCredentials(db, c)
    ensures c.device.Some?
    ensures MayManageKey(db, c, k)
       <==> k in db.apiKeys && db.apiKeys[k].owner == c.owner && db.apiKeys[k].device == c.device
  {
    hide IsRestricted;
  }
}
