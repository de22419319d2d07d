/** A user's license row, the mapping from a code's plan type to its duration
    and label, and the read-time status classification with its remaining
    days and hours. Timestamps are whole seconds. */
module Licenses {
  import opened Wrappers

  const Hour: int := 3600
  const Day: int := 86400

  const SevenDayLabel: string := "7일"
  const ThirtyDayLabel: string := "30일"
  const PermanentLabel: string := "영구"
  const OneTimeLabel: string := "1회용"

  /** A row of the `licenses` table (its key, the user id, is the map key). */
  datatype LicenseRow = LicenseRow(code: string, planLabel: string, activatedAt: int, expiresAt: Option<int>)

  /** The only rows the status query can read: an unset expiry goes with the
      permanent label (otherwise parsing the expiry would raise). */
  predicate WellFormed(row: LicenseRow)
  {
    row.planLabel == PermanentLabel || row.expiresAt.Some?
  }

  /** What a plan type grants: a label and, unless permanent, a duration in seconds. */
  datatype Plan = Plan(planLabel: string, duration: Option<int>)

  function PlanFor(kind: string): (p: Plan)
    ensures kind == "7D" ==> p == Plan(SevenDayLabel, Some(7 * Day))
    ensures kind == "30D" ==> p == Plan(ThirtyDayLabel, Some(30 * Day))
    ensures kind == "PERM" ==> p == Plan(PermanentLabel, None)
    ensures kind !in {"7D", "30D", "PERM"} ==> p == Plan(OneTimeLabel, Some(Day))
    ensures p.duration.None? <==> p.planLabel == PermanentLabel
    ensures p.duration.Some? ==> p.duration.value >= Day
  {
    if kind == "7D" then Plan(SevenDayLabel, Some(7 * Day))
    else if kind == "30D" then Plan(ThirtyDayLabel, Some(30 * Day))
    else if kind == "PERM" then Plan(PermanentLabel, None)
    else Plan(OneTimeLabel, Some(Day))
  }

  /** The license row a redemption at `now` writes for a code of type `kind`. */
  function Activate(code: string, kind: string, now: int): (row: LicenseRow)
    ensures WellFormed(row)
    ensures row.code == code && row.activatedAt == now && row.planLabel == PlanFor(kind).planLabel
    ensures row.expiresAt.None? <==> kind == "PERM"
    ensures row.expiresAt.Some? ==> row.expiresAt.value - now == PlanFor(kind).duration.value
  {
    var plan := PlanFor(kind);
    LicenseRow(code, plan.planLabel, now, if plan.duration.Some? then Some(now + plan.duration.value) else None)
  }

  /** `timedelta.days` and `timedelta.seconds // 3600` of a positive span. */
  function SplitRemaining(remaining: int): (dh: (nat, nat))
    requires remaining > 0
    ensures dh.1 < 24
    ensures dh.0 * Day + dh.1 * Hour <= remaining < dh.0 * Day + dh.1 * Hour + Hour
  {
    (remaining / Day, (remaining % Day) / Hour)
  }

  /** The two bounds pin the split down: no other whole days and hours fit. */
  lemma SplitUnique(remaining: int, days: nat, hours: nat)
    requires remaining > 0 && hours < 24
    requires days * Day + hours * Hour <= remaining < days * Day + hours * Hour + Hour
    ensures SplitRemaining(remaining) == (days, hours)
  {
    var rest := remaining - days * Day;
    assert 0 <= rest < Day;
    assert remaining / Day == days by {
      assert remaining == days * Day + rest;
    }
    assert remaining % Day == rest;
    assert rest / Hour == hours by {
      assert rest == hours * Hour + (rest - hours * Hour);
    }
  }

  /** The outcome of the "my info" query. */
  datatype Status =
    | NoLicense
    | Permanent(activatedAt: int)
    | Expired(activatedAt: int, expiresAt: int)
    | Active(planLabel: string, activatedAt: int, expiresAt: int, days: nat, hours: nat)

  function StatusOf(row: Option<LicenseRow>, now: int): (s: Status)
    requires row.Some? ==> WellFormed(row.value)
    ensures s.NoLicense? <==> row.None?
    ensures s.Permanent? <==> row.Some? && row.value.planLabel == PermanentLabel
    ensures s.Expired? <==> row.Some? && row.value.planLabel != PermanentLabel && row.value.expiresAt.value - now <= 0
    ensures s.Active? <==> row.Some? && row.value.planLabel != PermanentLabel && row.value.expiresAt.value - now > 0
    ensures s.Permanent? || s.Expired? ==> s.activatedAt == row.value.activatedAt
    ensures s.Expired? ==> s.expiresAt == row.value.expiresAt.value
    ensures s.Active? ==>
              && s.planLabel == row.value.planLabel && s.activatedAt == row.value.activatedAt
              && s.expiresAt == row.value.expiresAt.value
              && s.hours < 24
              && s.days * Day + s.hours * Hour <= s.expiresAt - now < s.days * Day + s.hours * Hour + Hour
  {
    match row
    case None => NoLicense
    case Some(r) =>
      if r.planLabel == PermanentLabel then Permanent(r.activatedAt)
      else
        var remaining := r.expiresAt.value - now;
        if remaining <= 0 then Expired(r.activatedAt, r.expiresAt.value)
        else
          var (days, hours) := SplitRemaining(remaining);
          Active(r.planLabel, r.activatedAt, r.expiresAt.value, days, hours)
  }

  /** Once expired, a license stays expired at every later time. */
  lemma ExpiredStaysExpired(row: LicenseRow, now: int, later: int)
    requires WellFormed(row) && now <= later
    requires StatusOf(Some(row), now).Expired?
    ensures StatusOf(Some(row), later) == StatusOf(Some(row), now)
  {
  }

  /** A permanent license reads the same at every time. */
  lemma PermanentAtAnyTime(row: LicenseRow, now: int, other: int)
    requires WellFormed(row) && row.planLabel == PermanentLabel
    ensures StatusOf(Some(row), now) == StatusOf(Some(row), other) == Permanent(row.activatedAt)
  {
  }

  /** The status of the license a code of type `kind` gives at `at`, `elapsed`
      seconds later: permanent for "PERM", otherwise active with the remaining
      time split into days and hours until the plan's duration has passed, and
      expired from then on. */
  lemma StatusOfActivated(code: string, kind: string, at: int, elapsed: int)
    ensures var s := StatusOf(Some(Activate(code, kind, at)), at + elapsed);
            var plan := PlanFor(kind);
            && (kind == "PERM" ==> s == Permanent(at))
            && (kind != "PERM" && elapsed >= plan.duration.value ==>
                  s == Expired(at, at + plan.duration.value))
            && (kind != "PERM" && elapsed < plan.duration.value ==>
                  s == Active(plan.planLabel, at, at + plan.duration.value,
                              (plan.duration.value - elapsed) / Day,
                              ((plan.duration.value - elapsed) % Day) / Hour))
  {
  }

  /** The worked example: a seven-day code read three days on has four whole
      days and no hours left, and reads expired eight days on. */
  lemma SevenDayExample(code: string, at: int)
    ensures StatusOf(Some(Activate(code, "7D", at)), at + 3 * Day)
            == Active(SevenDayLabel, at, at + 7 * Day, 4, 0)
    ensures StatusOf(Some(Activate(code, "7D", at)), at + 8 * Day).Expired?
  {
    StatusOfActivated(code, "7D", at, 3 * Day);
  }
}
