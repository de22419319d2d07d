/** The two tables (`license_codes`, keyed by code string, and `licenses`,
    keyed by user id) and the operations on them: code creation by an
    administrator, redemption of a code by a user, and the status query.
    Each state change is first given as a pure step on `Tables`; the class
    `LicenseDB` holds the tables in fields and its methods make the same
    changes in place. */
module Registry {
  import opened Wrappers
  import opened Text
  import opened Codes
  import opened Licenses

  /** The integer Discord user id stored in `used_by` and `user_id`. */
  type UserId = int

  datatype Error = Unauthorized | CodeNotFound | CodeAlreadyUsed

  /** A row of `license_codes` (its key, the code string, is the map key). */
  datatype CodeRow = CodeRow(kind: string, createdAt: int, usedBy: Option<UserId>, usedAt: Option<int>)

  datatype Tables = Tables(codes: map<string, CodeRow>, licenses: map<UserId, LicenseRow>)

  /** The outcome of one operation and the tables after it. On success the
      result carries the new code (creation) or the plan label (redemption). */
  datatype Step = Step(result: Result<string, Error>, next: Tables)

  ghost predicate WellFormedTables(t: Tables)
  {
    forall u :: u in t.licenses ==> WellFormed(t.licenses[u])
  }

  /** The `코드생성` command: refused unless the caller is an administrator;
      otherwise the upper-cased type names the plan, suffixes the code, and an
      unused row is written under the code, replacing any row already there. */
  function CreateStep(t: Tables, kindInput: string, isAdmin: bool,
                      g1: string, g2: string, g3: string, now: int): (s: Step)
    requires IsGroup(g1) && IsGroup(g2) && IsGroup(g3)
    ensures !isAdmin ==> s == Step(Failure(Unauthorized), t)
    ensures isAdmin ==>
              var code := GenerateLicense(Upper(kindInput), g1, g2, g3);
              && s.result == Success(code)
              && s.next.codes.Keys == t.codes.Keys + {code}
              && s.next.codes[code] == CodeRow(Upper(kindInput), now, None, None)
              && (forall c :: c in t.codes && c != code ==> s.next.codes[c] == t.codes[c])
              && s.next.licenses == t.licenses
  {
    if !isAdmin then Step(Failure(Unauthorized), t)
    else
      var kind := Upper(kindInput);
      var code := GenerateLicense(kind, g1, g2, g3);
      Step(Success(code), t.(codes := t.codes[code := CodeRow(kind, now, None, None)]))
  }

  /** The license modal's submit: the stripped input is looked up; a missing
      or already used code is refused; otherwise the user's license is
      replaced by the one the code's plan grants and the code is marked used. */
  function RedeemStep(t: Tables, input: string, user: UserId, now: int): (s: Step)
    ensures var code := Strip(input);
            code !in t.codes ==> s == Step(Failure(CodeNotFound), t)
    ensures var code := Strip(input);
            code in t.codes && t.codes[code].usedBy.Some? ==> s == Step(Failure(CodeAlreadyUsed), t)
    ensures var code := Strip(input);
            code in t.codes && t.codes[code].usedBy.None? ==>
              var row := t.codes[code];
              && s.result == Success(PlanFor(row.kind).planLabel)
              && s.next.licenses.Keys == t.licenses.Keys + {user}
              && s.next.licenses[user] == Activate(code, row.kind, now)
              && (forall u :: u in t.licenses && u != user ==> s.next.licenses[u] == t.licenses[u])
              && s.next.codes.Keys == t.codes.Keys
              && s.next.codes[code] == CodeRow(row.kind, row.createdAt, Some(user), Some(now))
              && (forall c :: c in t.codes && c != code ==> s.next.codes[c] == t.codes[c])
  {
    var code := Strip(input);
    if code !in t.codes then Step(Failure(CodeNotFound), t)
    else
      var row := t.codes[code];
      if row.usedBy.Some? then Step(Failure(CodeAlreadyUsed), t)
      else
        Step(Success(PlanFor(row.kind).planLabel),
             Tables(t.codes[code := row.(usedBy := Some(user), usedAt := Some(now))],
                    t.licenses[user := Activate(code, row.kind, now)]))
  }

  /** The "my info" button: classifies the user's license row at `now`. */
  function StatusStep(t: Tables, user: UserId, now: int): (s: Status)
    requires WellFormedTables(t)
    ensures s.NoLicense? <==> user !in t.licenses
    ensures user in t.licenses ==> s == StatusOf(Some(t.licenses[user]), now)
  {
    StatusOf(if user in t.licenses then Some(t.licenses[user]) else None, now)
  }

  lemma CreateKeepsWellFormed(t: Tables, kindInput: string, isAdmin: bool,
                              g1: string, g2: string, g3: string, now: int)
    requires IsGroup(g1) && IsGroup(g2) && IsGroup(g3)
    requires WellFormedTables(t)
    ensures WellFormedTables(CreateStep(t, kindInput, isAdmin, g1, g2, g3, now).next)
  {
  }

  lemma RedeemKeepsWellFormed(t: Tables, input: string, user: UserId, now: int)
    requires WellFormedTables(t)
    ensures WellFormedTables(RedeemStep(t, input, user, now).next)
  {
  }

  /** A used code stays used, with the same redeemer and time, through every
      redemption; and redemptions never add or remove code rows. */
  lemma RedeemKeepsUsedCodes(t: Tables, input: string, user: UserId, now: int, c: string)
    requires c in t.codes && t.codes[c].usedBy.Some?
    ensures var next := RedeemStep(t, input, user, now).next;
            next.codes.Keys == t.codes.Keys && next.codes[c] == t.codes[c]
  {
  }

  /** A code is redeemed at most once: after a successful redemption, any
      further attempt on the same (stripped) code, by any user at any time,
      is refused as already used and changes nothing. */
  lemma RedeemOnlyOnce(t: Tables, input: string, user: UserId, now: int,
                       again: string, other: UserId, later: int)
    requires RedeemStep(t, input, user, now).result.Success?
    requires Strip(again) == Strip(input)
    ensures var t' := RedeemStep(t, input, user, now).next;
            RedeemStep(t', again, other, later) == Step(Failure(CodeAlreadyUsed), t')
  {
  }

  /** A redemption replaces the user's license outright: what the user held
      before has no bearing on the new row. */
  lemma RedeemReplacesLicense(t1: Tables, t2: Tables, input: string, user: UserId, now: int)
    requires t1.codes == t2.codes
    requires RedeemStep(t1, input, user, now).result.Success?
    ensures RedeemStep(t1, input, user, now).next.licenses[user]
            == RedeemStep(t2, input, user, now).next.licenses[user]
  {
  }

  /** A created code can be redeemed with the plan it was created for, even
      when typed back with surrounding white space, provided the type does
      not itself end in white space. */
  lemma {:induction false} CreatedCodeRedeems(t: Tables, kindInput: string, g1: string, g2: string, g3: string,
                           created: int, pad1: string, pad2: string, user: UserId, now: int)
    requires IsGroup(g1) && IsGroup(g2) && IsGroup(g3)
    requires kindInput == [] || !IsSpace(kindInput[|kindInput| - 1])
    requires AllSpace(pad1) && AllSpace(pad2)
    ensures var s := CreateStep(t, kindInput, true, g1, g2, g3, created);
            var r := RedeemStep(s.next, pad1 + s.result.value + pad2, user, now);
            && r.result == Success(PlanFor(Upper(kindInput)).planLabel)
            && r.next.licenses[user] == Activate(s.result.value, Upper(kindInput), now)
  {
    var kind := Upper(kindInput);
    var code := GenerateLicense(kind, g1, g2, g3);
    var s := CreateStep(t, kindInput, true, g1, g2, g3, created);
    assert s.result.value == code;
    assert code in s.next.codes && s.next.codes[code].usedBy.None?;
    assert kind == [] || !IsSpace(kind[|kind| - 1]);
    GeneratedCodeSurvivesStrip(kind, g1, g2, g3);
    StripPadded(pad1, code, pad2);
    assert Strip(pad1 + code + pad2) == code;
  }

  /** `strip()` leaves a generated code intact exactly when its type does not
      end in white space; otherwise the stripped input is a different string
      from the stored code. */
  lemma GeneratedCodeSurvivesStrip(kind: string, g1: string, g2: string, g3: string)
    requires IsGroup(g1) && IsGroup(g2) && IsGroup(g3)
    ensures var code := GenerateLicense(kind, g1, g2, g3);
            Strip(code) == code <==> (kind == [] || !IsSpace(kind[|kind| - 1]))
  {
    var code := GenerateLicense(kind, g1, g2, g3);
    assert !IsSpace(code[0]);
    if kind != [] && IsSpace(kind[|kind| - 1]) {
      assert !IsTrimmed(code) by { assert code[|code| - 1] == kind[|kind| - 1]; }
    } else {
      assert IsTrimmed(code) by { assert code[|code| - 1] == if kind == [] then '-' else kind[|kind| - 1]; }
    }
  }

  /** `INSERT OR REPLACE` does not check for a used row: if freshly drawn groups
      repeat those of a code already redeemed, creation resets that code to
      unused, and a code that was refused as already used redeems again. */
  lemma {:induction false} CreateCanReopenUsedCode(t: Tables, kindInput: string, g1: string, g2: string, g3: string,
                                created: int, user: UserId, now: int)
    requires IsGroup(g1) && IsGroup(g2) && IsGroup(g3)
    requires kindInput == [] || !IsSpace(kindInput[|kindInput| - 1])
    requires var code := GenerateLicense(Upper(kindInput), g1, g2, g3);
             code in t.codes && t.codes[code].usedBy.Some?
    ensures var code := GenerateLicense(Upper(kindInput), g1, g2, g3);
            && RedeemStep(t, code, user, now).result == Failure(CodeAlreadyUsed)
            && RedeemStep(CreateStep(t, kindInput, true, g1, g2, g3, created).next, code, user, now).result.Success?
  {
    var kind := Upper(kindInput);
    var code := GenerateLicense(kind, g1, g2, g3);
    assert Strip(code) == code by {
      assert kind == [] || !IsSpace(kind[|kind| - 1]);
      GeneratedCodeSurvivesStrip(kind, g1, g2, g3);
    }
    assert RedeemStep(t, code, user, now).result == Failure(CodeAlreadyUsed);
    var s := CreateStep(t, kindInput, true, g1, g2, g3, created);
    assert s.result.value == code && "" + code + "" == code;
    CreatedCodeRedeems(t, kindInput, g1, g2, g3, created, "", "", user, now);
  }

  /** Both tables held in place; the methods perform the source's statements
      one by one and end in the state the matching step describes. */
  class LicenseDB {
    var codes: map<string, CodeRow>
    var licenses: map<UserId, LicenseRow>

    function State(): Tables
      reads this
    {
      Tables(codes, licenses)
    }

    ghost predicate Valid()
      reads this
    {
      WellFormedTables(State())
    }

    constructor ()
      ensures Valid()
      ensures codes == map[] && licenses == map[]
    {
      codes := map[];
      licenses := map[];
    }

    /** `코드생성` with the administrator check passed in and the random
        groups and the clock given. */
    method CreateCode(kindInput: string, isAdmin: bool, g1: string, g2: string, g3: string, now: int)
      returns (r: Result<string, Error>)
      requires Valid()
      requires IsGroup(g1) && IsGroup(g2) && IsGroup(g3)
      modifies this
      ensures Valid()
      ensures Step(r, State()) == CreateStep(old(State()), kindInput, isAdmin, g1, g2, g3, now)
    {
      if !isAdmin {
        return Failure(Unauthorized);
      }
      var kind := Upper(kindInput);
      var code := GenerateLicense(kind, g1, g2, g3);
      codes := codes[code := CodeRow(kind, now, None, None)];
      r := Success(code);
    }

    /** `LicenseModal.on_submit` with the user id and the clock given; the
        two writes are applied together, as the single commit does. */
    method Redeem(input: string, user: UserId, now: int) returns (r: Result<string, Error>)
      requires Valid()
      modifies this
      ensures Valid()
      ensures Step(r, State()) == RedeemStep(old(State()), input, user, now)
    {
      var code := Strip(input);
      if code !in codes {
        return Failure(CodeNotFound);
      }
      var row := codes[code];
      if row.usedBy.Some? {
        return Failure(CodeAlreadyUsed);
      }
      var plan := PlanFor(row.kind);
      var expires := if plan.duration.Some? then Some(now + plan.duration.value) else None;
      licenses := licenses[user := LicenseRow(code, plan.planLabel, now, expires)];
      codes := codes[code := CodeRow(row.kind, row.createdAt, Some(user), Some(now))];
      r := Success(plan.planLabel);
    }

    /** `LicenseView.myinfo_button`: reads one row and changes nothing. */
    method QueryStatus(user: UserId, now: int) returns (s: Status)
      requires Valid()
      ensures s == StatusStep(State(), user, now)
    {
      var row := if user in licenses then Some(licenses[user]) else None;
      s := StatusOf(row, now);
    }
  }

  /** The worked example end to end: an administrator creates a seven-day code,
      a user redeems it, the status reads four days left three days on, and a
      second user's attempt on the same code is refused. */
  method SevenDayScenario(g1: string, g2: string, g3: string, user: UserId, t0: int)
    requires IsGroup(g1) && IsGroup(g2) && IsGroup(g3)
  {
    var db := new LicenseDB();
    var created := db.CreateCode("7d", true, g1, g2, g3, t0);
    assert Upper("7d") == "7D";
    var code := GenerateLicense("7D", g1, g2, g3);
    assert created == Success(code);
    CreatedCodeRedeems(Tables(map[], map[]), "7d", g1, g2, g3, t0, " ", "\n", user, t0);
    var redeemed := db.Redeem(" " + code + "\n", user, t0);
    assert redeemed == Success(SevenDayLabel);
    SevenDayExample(code, t0);
    var status := db.QueryStatus(user, t0 + 3 * Day);
    assert status == Active(SevenDayLabel, t0, t0 + 7 * Day, 4, 0);
    var again := db.Redeem(code, user + 1, t0 + Day);
    assert again == Failure(CodeAlreadyUsed);
  }
}
