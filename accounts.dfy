/** The account rules of app.py: spending and buying export credits
    (`consume_credit`, `buy_credits`), the administrator's edits of a user
    (`admin_update_user`) and of a plan's price (`admin_update_plan`),
    e-mail verification (`verify_email`) and the signup timing gate.

    A `User` and a `Plan` are objects whose fields these operations assign,
    as the ORM rows are in the source. Every update is also given as a pure
    step on an `Account` value; each method's postcondition ties the object's
    new state to that step, and the lemmas below state what the steps
    promise. The database lookups they depend on (is a plan name known, is an
    e-mail taken) are passed in as sets; clocks and fresh token hashes are
    passed in as values. */
module Accounts {
  import opened Wrappers
  import opened Text
  import opened Clock

  const DefaultPlanName: string := "Colorado Starter"
  const DefaultRole: string := "subscriber"
  const AdminRole: string := "admin"

  /** The fields of a user row that the rules read or write. */
  datatype Account = Account(
    email: string,
    role: string,
    credits: int,
    plan: string,
    fleetSize: int,
    isVerified: bool,
    tokenHash: Option<string>,
    sentAt: Option<int>)

  /** A whole-number form field as `int(request.form.get(name, current))`
      reads it: absent (the current value is used), a number, or text that
      `int` rejects with `ValueError`. */
  datatype IntField = Absent | Number(n: int) | NotANumber

  function FieldValue(f: IntField, current: int): (v: Option<int>)
    ensures v.None? <==> f.NotANumber?
    ensures f.Absent? ==> v == Some(current)
    ensures f.Number? ==> v == Some(f.n)
  {
    match f
    case Absent => Some(current)
    case Number(n) => Some(n)
    case NotANumber => None
  }

  function Max(a: int, b: int): int { if a >= b then a else b }

  // ---------------------------------------------------------------------
  // Credits
  // ---------------------------------------------------------------------

  /** `consume_credit`: refuses when the balance is zero or below, and
      otherwise spends exactly one credit. */
  function ConsumeCreditStep(a: Account): (r: (Account, bool))
    ensures r.1 <==> a.credits > 0
    ensures r.0.credits == (if r.1 then a.credits - 1 else a.credits)
    ensures r.0 == a.(credits := r.0.credits)
    ensures a.credits >= 0 ==> r.0.credits >= 0
  {
    if a.credits <= 0 then (a, false) else (a.(credits := a.credits - 1), true)
  }

  /** Credits bought when the form leaves the amount out. */
  const DefaultPurchase: int := 5

  /** `buy_credits`: `int(form.get("credits", 5))` credits are added; text
      that `int` rejects raises `ValueError` before anything is stored, and
      the request fails (`false`). */
  function BuyCreditsStep(a: Account, field: IntField): (r: (Account, bool))
    ensures r.1 <==> !field.NotANumber?
    ensures !r.1 ==> r.0 == a
    ensures field.Absent? ==> r.0.credits == a.credits + 5
    ensures field.Number? ==> r.0.credits == a.credits + field.n
    ensures r.0 == a.(credits := r.0.credits)
  {
    match FieldValue(field, DefaultPurchase)
    case None => (a, false)
    case Some(added) => (a.(credits := a.credits + added), true)
  }

  /** `n` export requests in a row: the account afterwards and how many of
      the requests were granted. */
  function ConsumeRepeatedly(a: Account, n: nat): (Account, nat)
    decreases n
  {
    if n == 0 then (a, 0)
    else
      var (a1, ok) := ConsumeCreditStep(a);
      var (a2, granted) := ConsumeRepeatedly(a1, n - 1);
      (a2, granted + (if ok then 1 else 0))
  }

  function Min(a: int, b: int): int { if a <= b then a else b }

  /** A balance of `c >= 0` credits grants exactly `min(n, c)` of `n` export
      requests and is left at `c - min(n, c)`: every granted export is paid
      for with one credit, and no request is granted once credits run out. */
  lemma {:induction false} ExportsBoundedByCredits(a: Account, n: nat)
    requires a.credits >= 0
    ensures ConsumeRepeatedly(a, n).1 == Min(n, a.credits)
    ensures ConsumeRepeatedly(a, n).0 == a.(credits := a.credits - Min(n, a.credits))
    decreases n
  {
    if n > 0 {
      ExportsBoundedByCredits(ConsumeCreditStep(a).0, n - 1);
    }
  }

  /** After buying `added >= 0` credits, that many more exports are granted. */
  lemma BuyingGrantsExports(a: Account, added: nat, n: nat)
    requires a.credits >= 0
    ensures ConsumeRepeatedly(BuyCreditsStep(a, Number(added)).0, n).1 == Min(n, a.credits + added)
  {
    ExportsBoundedByCredits(BuyCreditsStep(a, Number(added)).0, n);
  }

  // ---------------------------------------------------------------------
  // admin_update_user
  // ---------------------------------------------------------------------

  /** The form the administrator submits; `None` is a field left out. */
  datatype UserForm = UserForm(
    email: Option<string>,
    role: Option<string>,
    plan: Option<string>,
    fleetSize: IntField,
    credits: IntField)

  /** The form as the handler reads it: the e-mail lower-cased and stripped,
      a missing role "subscriber", a missing plan "Colorado Starter". */
  datatype UserUpdate = UserUpdate(
    email: string,
    role: string,
    plan: string,
    fleetSize: IntField,
    credits: IntField)

  datatype AdminOutcome = Forbidden | NotANumberError | EmailRequired | EmailExists | UserUpdated

  /** `email.lower().strip()`. */
  function NormalizeEmail(raw: string): string {
    Strip(Lower(raw))
  }

  /** Lower-casing keeps white space where it was. */
  lemma LowerKeepsSpaces(raw: string)
    ensures forall k :: 0 <= k < |raw| ==> (IsSpace(Lower(raw)[k]) <==> IsSpace(raw[k]))
  {
  }

  /** A normalised e-mail has no upper-case ASCII letter and neither starts
      nor ends with white space, and it is empty exactly when the raw text
      is all white space. */
  lemma NormalizedEmailShape(raw: string)
    ensures var e := NormalizeEmail(raw);
      && (forall k :: 0 <= k < |e| ==> !IsAsciiUpper(e[k]))
      && (e == [] || (!IsSpace(e[0]) && !IsSpace(e[|e| - 1])))
      && (e == [] <==> forall k :: 0 <= k < |raw| ==> IsSpace(raw[k]))
  {
    var lowered := Lower(raw);
    StripIsTrimmed(lowered);
    LowerKeepsSpaces(raw);
    StripKeeps(lowered, c => !IsAsciiUpper(c));
  }

  /** The reads at the top of `admin_update_user`. */
  function ReadUserForm(form: UserForm): UserUpdate {
    UserUpdate(NormalizeEmail(form.email.GetOr([])), form.role.GetOr(DefaultRole),
               form.plan.GetOr(DefaultPlanName), form.fleetSize, form.credits)
  }

  /** `admin_update_user` once the form is read. `knownPlans` are the plan
      names on record, `registered` the e-mails on record, and a changed
      e-mail gets the fresh token hash `newTokenHash` sent at `now`. */
  function AdminUpdateUserStep(
    a: Account, actorRole: string, form: UserUpdate,
    knownPlans: set<string>, registered: set<string>,
    newTokenHash: string, now: int): (r: (Account, AdminOutcome))
    ensures r.1 != UserUpdated ==> r.0 == a
  {
    if actorRole != AdminRole then (a, Forbidden)
    else
      var fleetSize := FieldValue(form.fleetSize, a.fleetSize);
      var credits := FieldValue(form.credits, a.credits);
      if fleetSize.None? || credits.None? then (a, NotANumberError)
      else if form.email == [] then (a, EmailRequired)
      else if form.email != a.email && form.email in registered then (a, EmailExists)
      else
        var plan := if form.plan in knownPlans then form.plan else DefaultPlanName;
        var updated := a.(email := form.email, role := form.role, plan := plan,
                          fleetSize := Max(fleetSize.value, 1), credits := Max(credits.value, 0));
        if form.email != a.email then
          (updated.(isVerified := false, tokenHash := Some(newTokenHash), sentAt := Some(now)), UserUpdated)
        else (updated, UserUpdated)
  }

  /** When an update is refused, and why: only an administrator may update;
      both numbers must parse; the e-mail must be non-empty after
      normalising; a changed e-mail must not belong to anyone. */
  lemma AdminUpdateOutcomes(
    a: Account, actorRole: string, form: UserUpdate,
    knownPlans: set<string>, registered: set<string>, newTokenHash: string, now: int)
    ensures var r := AdminUpdateUserStep(a, actorRole, form, knownPlans, registered, newTokenHash, now);
      && (r.1 == Forbidden <==> actorRole != "admin")
      && (r.1 == NotANumberError <==>
            actorRole == "admin" && (form.fleetSize.NotANumber? || form.credits.NotANumber?))
      && (r.1 == EmailRequired <==>
            actorRole == "admin" && !form.fleetSize.NotANumber? && !form.credits.NotANumber?
            && form.email == [])
      && (r.1 == EmailExists <==>
            actorRole == "admin" && !form.fleetSize.NotANumber? && !form.credits.NotANumber?
            && form.email != [] && form.email != a.email && form.email in registered)
  {
  }

  /** What an accepted update makes of fields the form leaves out: a
      missing role stores "subscriber", so it demotes an administrator; a
      missing plan stores "Colorado Starter"; a missing fleet size or credit
      count keeps the stored one, raised to 1 and to 0. */
  lemma OmittedFieldsOnUpdate(
    a: Account, actorRole: string, raw: UserForm,
    knownPlans: set<string>, registered: set<string>, newTokenHash: string, now: int)
    requires AdminUpdateUserStep(a, actorRole, ReadUserForm(raw), knownPlans, registered, newTokenHash, now).1
      == UserUpdated
    ensures var b := AdminUpdateUserStep(a, actorRole, ReadUserForm(raw), knownPlans, registered, newTokenHash, now).0;
      && (raw.role.None? ==> b.role == "subscriber")
      && (raw.plan.None? ==> b.plan == "Colorado Starter")
      && (raw.fleetSize.Absent? ==> b.fleetSize == Max(a.fleetSize, 1))
      && (raw.credits.Absent? ==> b.credits == Max(a.credits, 0))
  {
  }

  /** An administrator who sends numbers but leaves the e-mail out, or sends
      only white space, is told the e-mail is required, and nothing changes. */
  lemma BlankEmailRefused(
    a: Account, raw: UserForm,
    knownPlans: set<string>, registered: set<string>, newTokenHash: string, now: int)
    requires !raw.fleetSize.NotANumber? && !raw.credits.NotANumber?
    requires raw.email.Some? ==> forall k :: 0 <= k < |raw.email.value| ==> IsSpace(raw.email.value[k])
    ensures AdminUpdateUserStep(a, "admin", ReadUserForm(raw), knownPlans, registered, newTokenHash, now)
      == (a, EmailRequired)
  {
    NormalizedEmailShape(raw.email.GetOr([]));
  }

  /** What an accepted update stores: the fleet size is at least 1 and the
      credits at least 0 (each the submitted number, raised to the floor); the
      plan is the submitted one when it is on record and "Colorado Starter"
      otherwise; a changed e-mail resets verification and issues the fresh
      token, an unchanged one keeps the verification state. */
  lemma AdminUpdateStores(
    a: Account, actorRole: string, form: UserUpdate,
    knownPlans: set<string>, registered: set<string>, newTokenHash: string, now: int)
    requires AdminUpdateUserStep(a, actorRole, form, knownPlans, registered, newTokenHash, now).1 == UserUpdated
    ensures var b := AdminUpdateUserStep(a, actorRole, form, knownPlans, registered, newTokenHash, now).0;
      var fleet := FieldValue(form.fleetSize, a.fleetSize).value;
      var credits := FieldValue(form.credits, a.credits).value;
      && b.email == form.email && b.email != [] && b.role == form.role
      && b.fleetSize >= 1 && b.credits >= 0
      && (fleet >= 1 ==> b.fleetSize == fleet) && (fleet < 1 ==> b.fleetSize == 1)
      && (credits >= 0 ==> b.credits == credits) && (credits < 0 ==> b.credits == 0)
      && (form.plan in knownPlans ==> b.plan == form.plan)
      && (form.plan !in knownPlans ==> b.plan == "Colorado Starter")
      && (b.email != a.email ==> !b.isVerified && b.tokenHash == Some(newTokenHash) && b.sentAt == Some(now))
      && (b.email == a.email ==>
            b.isVerified == a.isVerified && b.tokenHash == a.tokenHash && b.sentAt == a.sentAt)
  {
  }

  // ---------------------------------------------------------------------
  // admin_update_plan
  // ---------------------------------------------------------------------

  datatype PlanOutcome = PlanForbidden | PriceNotANumber | NegativePrice | PriceUpdated

  /** `admin_update_plan`: the new price, from `price`, after the form's
      price field. */
  function AdminUpdatePlanStep(price: int, actorRole: string, field: IntField): (r: (int, PlanOutcome))
    ensures r.1 != PriceUpdated ==> r.0 == price
    ensures r.1 == PlanForbidden <==> actorRole != "admin"
    ensures r.1 == PriceNotANumber <==> actorRole == "admin" && field.NotANumber?
    ensures r.1 == PriceUpdated ==> r.0 >= 0 && FieldValue(field, price) == Some(r.0)
    ensures r.1 == NegativePrice <==>
      actorRole == "admin" && FieldValue(field, price).Some? && FieldValue(field, price).value < 0
    ensures r.1 == PriceUpdated <==>
      actorRole == "admin" && FieldValue(field, price).Some? && FieldValue(field, price).value >= 0
  {
    if actorRole != AdminRole then (price, PlanForbidden)
    else match FieldValue(field, price)
      case None => (price, PriceNotANumber)
      case Some(p) => if p < 0 then (price, NegativePrice) else (p, PriceUpdated)
  }

  // ---------------------------------------------------------------------
  // verify_email
  // ---------------------------------------------------------------------

  datatype VerifyOutcome = InvalidLink | AlreadyVerified | LinkExpired | EmailVerified

  /** A verification link is stale when it was sent and more than 24 hours
      have passed since; a user without a send time never has a stale link. */
  predicate LinkIsStale(a: Account, now: int) {
    a.sentAt.Some? && now - a.sentAt.value > MicrosPerDay
  }

  /** `verify_email` once the token has found user `a`. */
  function VerifyEmailStep(a: Account, now: int): (r: (Account, VerifyOutcome))
    ensures r.1 != EmailVerified ==> r.0 == a
    ensures r.1 != InvalidLink
    ensures r.1 == AlreadyVerified <==> a.isVerified
    ensures r.1 == LinkExpired <==> !a.isVerified && LinkIsStale(a, now)
    ensures r.1 == EmailVerified <==> !a.isVerified && !LinkIsStale(a, now)
    ensures r.1 == EmailVerified ==>
      r.0 == a.(isVerified := true, tokenHash := None, sentAt := None)
  {
    if a.isVerified then (a, AlreadyVerified)
    else if LinkIsStale(a, now) then (a, LinkExpired)
    else (a.(isVerified := true, tokenHash := None, sentAt := None), EmailVerified)
  }

  /** Verification is final: once verified, a user answers every later
      attempt with "already verified", and the used token is gone, so the
      same link no longer finds the user. */
  lemma VerificationIsFinal(a: Account, now: int, later: int, h: string)
    requires VerifyEmailStep(a, now).1 == EmailVerified
    ensures VerifyEmailStep(a, now).0.tokenHash != Some(h)
    ensures VerifyEmailStep(VerifyEmailStep(a, now).0, later).1 == AlreadyVerified
  {
  }

  /** The 24-hour limit is inclusive: a link used exactly 24 hours after it
      was sent still verifies, one microsecond later it has expired. */
  lemma ExpiryBoundary(a: Account, sent: int)
    requires !a.isVerified && a.sentAt == Some(sent)
    ensures VerifyEmailStep(a, sent + MicrosPerDay).1 == EmailVerified
    ensures VerifyEmailStep(a, sent + MicrosPerDay + 1).1 == LinkExpired
  {
  }

  // ---------------------------------------------------------------------
  // Signup timing gate
  // ---------------------------------------------------------------------

  const MinSignupSeconds: int := 3
  const MaxSignupSeconds: int := 3600

  /** The time check at the top of a signup: there must be a start time from
      showing the form (Python treats a missing one and a zero one alike),
      and between 3 and 3600 seconds, inclusive, must have passed. */
  function SignupTimingAccepted(startTs: Option<int>, now: int): (ok: bool)
    ensures ok ==> startTs.Some? && startTs.value != 0
    ensures ok ==> MinSignupSeconds * MicrosPerSecond <= now - startTs.value <= MaxSignupSeconds * MicrosPerSecond
  {
    if startTs.None? || startTs.value == 0 then false
    else
      var elapsed := now - startTs.value;
      !(elapsed < MinSignupSeconds * MicrosPerSecond || elapsed > MaxSignupSeconds * MicrosPerSecond)
  }

  /** The accepted window is exactly [3 s, 3600 s] after a non-zero start. */
  lemma SignupWindow(start: int, elapsed: int)
    requires start != 0
    ensures SignupTimingAccepted(Some(start), start + elapsed) <==>
      3 * MicrosPerSecond <= elapsed <= 3600 * MicrosPerSecond
  {
  }

  // ---------------------------------------------------------------------
  // The objects
  // ---------------------------------------------------------------------

  /** A user row. Its methods assign its fields as the request handlers do. */
  class User {
    var email: string
    var role: string
    var credits: int
    var plan: string
    var fleetSize: int
    var isVerified: bool
    var tokenHash: Option<string>
    var sentAt: Option<int>

    function Snapshot(): Account
      reads this
    {
      Account(email, role, credits, plan, fleetSize, isVerified, tokenHash, sentAt)
    }

    constructor (a: Account)
      ensures Snapshot() == a
    {
      email, role, credits, plan := a.email, a.role, a.credits, a.plan;
      fleetSize, isVerified, tokenHash, sentAt := a.fleetSize, a.isVerified, a.tokenHash, a.sentAt;
    }

    /** `consume_credit` on the current user. */
    method ConsumeCredit() returns (ok: bool)
      modifies this
      ensures (Snapshot(), ok) == ConsumeCreditStep(old(Snapshot()))
    {
      if credits <= 0 {
        return false;
      }
      credits := credits - 1;
      return true;
    }

    /** `buy_credits` on the current user. */
    method BuyCredits(field: IntField) returns (ok: bool)
      modifies this
      ensures (Snapshot(), ok) == BuyCreditsStep(old(Snapshot()), field)
    {
      var added := FieldValue(field, DefaultPurchase);
      if added.None? {
        return false;
      }
      credits := credits + added.value;
      return true;
    }

    /** `admin_update_user` on this user, once the form is read. */
    method AdminUpdate(
      actorRole: string, form: UserUpdate,
      knownPlans: set<string>, registered: set<string>,
      newTokenHash: string, now: int) returns (outcome: AdminOutcome)
      modifies this
      ensures (Snapshot(), outcome) ==
        AdminUpdateUserStep(old(Snapshot()), actorRole, form, knownPlans, registered, newTokenHash, now)
    {
      if actorRole != AdminRole {
        return Forbidden;
      }
      var newFleetSize := FieldValue(form.fleetSize, fleetSize);
      var newCredits := FieldValue(form.credits, credits);
      if newFleetSize.None? || newCredits.None? {
        return NotANumberError;
      }
      if form.email == [] {
        return EmailRequired;
      }
      var emailChanged := form.email != email;
      if emailChanged && form.email in registered {
        return EmailExists;
      }
      email := form.email;
      var newPlan := form.plan;
      if newPlan !in knownPlans {
        newPlan := DefaultPlanName;
      }
      role := form.role;
      plan := newPlan;
      fleetSize := Max(newFleetSize.value, 1);
      credits := Max(newCredits.value, 0);
      if emailChanged {
        isVerified := false;
        tokenHash := Some(newTokenHash);
        sentAt := Some(now);
      }
      return UserUpdated;
    }

    /** `verify_email` once the token has found this user. */
    method Verify(now: int) returns (outcome: VerifyOutcome)
      modifies this
      ensures (Snapshot(), outcome) == VerifyEmailStep(old(Snapshot()), now)
    {
      if isVerified {
        return AlreadyVerified;
      }
      if sentAt.Some? && now - sentAt.value > MicrosPerDay {
        return LinkExpired;
      }
      isVerified := true;
      tokenHash := None;
      sentAt := None;
      return EmailVerified;
    }
  }

  /** A plan row. */
  class Plan {
    var name: string
    var price: int

    constructor (name: string, price: int)
      ensures this.name == name && this.price == price
    {
      this.name := name;
      this.price := price;
    }

    /** `admin_update_plan` on this plan. */
    method AdminUpdatePrice(actorRole: string, field: IntField) returns (outcome: PlanOutcome)
      modifies this
      ensures (price, outcome) == AdminUpdatePlanStep(old(price), actorRole, field)
      ensures name == old(name)
    {
      if actorRole != AdminRole {
        return PlanForbidden;
      }
      var newPrice := FieldValue(field, price);
      if newPrice.None? {
        return PriceNotANumber;
      }
      if newPrice.value < 0 {
        return NegativePrice;
      }
      price := newPrice.value;
      return PriceUpdated;
    }
  }

  /** The first user, in `users` order, whose stored token hash is `h`. */
  function FirstWithTokenHash(users: seq<User>, h: string): (r: Option<nat>)
    reads users
    ensures r.Some? ==> r.value < |users| && users[r.value].tokenHash == Some(h)
    ensures r.Some? ==> forall j :: 0 <= j < r.value ==> users[j].tokenHash != Some(h)
    ensures r.None? <==> forall j :: 0 <= j < |users| ==> users[j].tokenHash != Some(h)
  {
    if users == [] then None
    else if users[0].tokenHash == Some(h) then Some(0)
    else
      match FirstWithTokenHash(users[1..], h)
      case None => None
      case Some(i) => Some(i + 1)
  }

  /** `verify_email(token)`, given the hash `h` of the token: an unknown
      hash changes nothing; otherwise the first user holding it goes through
      `VerifyEmailStep` and no other user changes. */
  method VerifyEmail(users: seq<User>, h: string, now: int) returns (outcome: VerifyOutcome)
    modifies users
    ensures old(FirstWithTokenHash(users, h)).None? ==>
      outcome == InvalidLink && forall u :: u in users ==> u.Snapshot() == old(u.Snapshot())
    ensures old(FirstWithTokenHash(users, h)).Some? ==>
      var u := users[old(FirstWithTokenHash(users, h)).value];
      && (u.Snapshot(), outcome) == VerifyEmailStep(old(u.Snapshot()), now)
      && forall v :: v in users && v != u ==> v.Snapshot() == old(v.Snapshot())
  {
    match FirstWithTokenHash(users, h)
    case None =>
      outcome := InvalidLink;
    case Some(i) =>
      outcome := users[i].Verify(now);
  }
}
