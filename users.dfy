/** Users: which serializer fields are required, what create and update
    store, and the login decision. Password hashing is abstracted: an
    account holds the raw password `set_password` was last given, and
    `check_password` compares with it. */
module Users {
  import opened Python

  const RoleChoices: seq<(string, string)> :=
    [("merchant", "Merchant"), ("consumer", "Consumer"), ("administrator", "Administrator")]

  const DefaultRole := "consumer"

  /** The fields `UserSerializer.__init__` makes optional once an instance
      is bound. */
  const UpdateOptional: set<string> := {"username", "email", "role", "password"}

  /** Whether the serializer requires `field`. `requiredOnCreate` is the
      set the model's field definitions make required for a new user. */
  function Required(field: string, updating: bool, requiredOnCreate: set<string>): (r: bool)
    ensures !updating ==> (r <==> field in requiredOnCreate)
    ensures updating && field in UpdateOptional ==> !r
    ensures updating && field !in UpdateOptional ==> (r <==> field in requiredOnCreate)
  {
    field in requiredOnCreate && !(updating && field in UpdateOptional)
  }

  /** An update never requires more than a create: the required fields of
      an update are those of a create minus the four optional ones. */
  lemma UpdateRequiresLess(requiredOnCreate: set<string>)
    ensures (set f | f in requiredOnCreate && Required(f, true, requiredOnCreate)) ==
      requiredOnCreate - UpdateOptional
    ensures forall f :: Required(f, true, requiredOnCreate) ==> Required(f, false, requiredOnCreate)
  {
    var upd := set f | f in requiredOnCreate && Required(f, true, requiredOnCreate);
    assert forall f :: f in upd <==> f in requiredOnCreate - UpdateOptional;
  }

  /** A stored user: its model fields (never the password nor
      `is_active`), the password last set, if any, and `is_active`. */
  datatype Account = Account(fields: map<string, Value>, password: Option<string>, isActive: bool)

  /** Validated data carries the password as a string (`CharField`). */
  predicate PasswordIsText(validated: map<string, Value>)
  {
    "password" in validated ==> validated["password"].Str?
  }

  /** Validated data carries `is_active` as a boolean (`BooleanField`,
      never None). */
  predicate ActiveIsBool(validated: map<string, Value>)
  {
    "is_active" in validated ==> validated["is_active"].Bool?
  }

  /** The types the serializer gives the two fields kept apart. */
  predicate FieldTypes(validated: map<string, Value>)
  {
    PasswordIsText(validated) && ActiveIsBool(validated)
  }

  /** A supplied `is_active` is written (by `create(**validated_data)` or by
      the `setattr` loop); without one the flag keeps `current`. */
  function ActiveFlag(current: bool, validated: map<string, Value>): (b: bool)
    requires ActiveIsBool(validated)
    ensures "is_active" in validated ==> (b <==> validated["is_active"] == Bool(true))
    ensures "is_active" !in validated ==> b == current
  {
    if "is_active" in validated then validated["is_active"].b else current
  }

  /** The two fields the model keeps outside `fields`. */
  const KeptApart: set<string> := {"password", "is_active"}

  /** `if password: set_password(password)`: a non-empty password replaces
      the current one; an absent or empty one leaves it. */
  function NewPassword(current: Option<string>, validated: map<string, Value>): (p: Option<string>)
    requires PasswordIsText(validated)
    ensures "password" in validated && |validated["password"].s| > 0 ==> p == Some(validated["password"].s)
    ensures !("password" in validated && |validated["password"].s| > 0) ==> p == current
  {
    if "password" in validated && Truthy(validated["password"]) then Some(validated["password"].s) else current
  }

  /** `UserSerializer.create`: the password is taken out of the stored
      fields and set only when non-empty; a missing role takes the model
      default; the user is active unless `is_active` says otherwise. */
  function Create(validated: map<string, Value>): (a: Account)
    requires FieldTypes(validated)
    ensures "password" !in a.fields && "is_active" !in a.fields
    ensures forall k :: k in validated && k !in KeptApart ==> k in a.fields && a.fields[k] == validated[k]
    ensures "role" !in validated ==> "role" in a.fields && a.fields["role"] == Str(DefaultRole)
    ensures a.fields.Keys == validated.Keys - KeptApart + {"role"}
    ensures a.password == NewPassword(None, validated)
    ensures a.isActive == ActiveFlag(true, validated)
  {
    var stored := validated - KeptApart;
    var withRole := if "role" in stored then stored else stored["role" := Str(DefaultRole)];
    Account(withRole, NewPassword(None, validated), ActiveFlag(true, validated))
  }

  /** The keys `update` pops before its loop. */
  const Popped: set<string> := {"groups", "user_permissions", "password", "profile_picture"}

  /** The supplied non-None values among the keys `done` of `rest`. */
  function Supplied(rest: map<string, Value>, done: set<string>): (s: map<string, Value>)
    ensures forall k :: k in s <==> k in done && k in rest && !rest[k].Null?
    ensures forall k :: k in s ==> s[k] == rest[k]
  {
    map k | k in done && k in rest && !rest[k].Null? :: rest[k]
  }

  /** The keys an update never writes into `fields`: the three popped
      and dropped ones, and `is_active`, which goes to the flag. */
  const OutsideFields: set<string> := {"groups", "user_permissions", "password", "is_active"}

  /** What `UserSerializer.update` leaves in the instance's fields: the
      supplied non-None values of every key but the four popped ones and
      `is_active`, and then a non-None `profile_picture`. */
  function MergeUpdate(current: map<string, Value>, validated: map<string, Value>): (m: map<string, Value>)
  {
    var rest := validated - Popped - {"is_active"};
    var merged := current + Supplied(rest, rest.Keys);
    if "profile_picture" in validated && !validated["profile_picture"].Null? then
      merged["profile_picture" := validated["profile_picture"]]
    else merged
  }

  /** The partial-update rules: omitted and None-valued fields keep their
      value, supplied ones are overwritten, `groups`, `user_permissions`,
      `password` and `is_active` never reach the fields. */
  lemma MergeUpdateRules(current: map<string, Value>, validated: map<string, Value>)
    ensures MergeUpdate(current, validated).Keys ==
      current.Keys + (set k | k in validated && k !in OutsideFields && !validated[k].Null?)
    ensures forall k :: k in current && (k !in validated || validated[k].Null?) ==>
      MergeUpdate(current, validated)[k] == current[k]
    ensures forall k :: k in validated && !validated[k].Null? && k !in OutsideFields ==>
      MergeUpdate(current, validated)[k] == validated[k]
    ensures forall k :: k in OutsideFields && k in current ==>
      MergeUpdate(current, validated)[k] == current[k]
    ensures forall k :: k in OutsideFields && k !in current ==>
      k !in MergeUpdate(current, validated)
  {
    var m := MergeUpdate(current, validated);
    var added := set k | k in validated && k !in OutsideFields && !validated[k].Null?;
    assert forall k :: k in m <==> k in current || k in added;
  }

  /** Applying the same update twice is applying it once. */
  lemma MergeUpdateIdempotent(current: map<string, Value>, validated: map<string, Value>)
    ensures MergeUpdate(MergeUpdate(current, validated), validated) == MergeUpdate(current, validated)
  {
    var once := MergeUpdate(current, validated);
    var twice := MergeUpdate(once, validated);
    MergeUpdateRules(current, validated);
    MergeUpdateRules(once, validated);
    assert twice.Keys == once.Keys;
  }

  /** A bound user instance, as `UserSerializer.update` changes it. */
  class UserInstance {
    var fields: map<string, Value>
    var password: Option<string>
    var isActive: bool

    /** The password and the active flag live apart from the model fields. */
    ghost predicate Valid()
      reads this
    {
      "password" !in fields && "is_active" !in fields
    }

    constructor(a: Account)
      requires "password" !in a.fields && "is_active" !in a.fields
      ensures Valid()
      ensures fields == a.fields && password == a.password && isActive == a.isActive
    {
      fields := a.fields;
      password := a.password;
      isActive := a.isActive;
    }

    /** The `for attr, value in validated_data.items()` loop: every
        non-None value is set, the others are skipped. */
    method SetSupplied(rest: map<string, Value>)
      requires "password" !in rest && "is_active" !in rest
      requires Valid()
      modifies this
      ensures Valid()
      ensures fields == old(fields) + Supplied(rest, rest.Keys)
      ensures password == old(password) && isActive == old(isActive)
    {
      var pending := rest.Keys;
      while pending != {}
        invariant pending <= rest.Keys
        invariant fields == old(fields) + Supplied(rest, rest.Keys - pending)
        invariant "password" !in fields && "is_active" !in fields
        invariant password == old(password) && isActive == old(isActive)
        decreases pending
      {
        var attr :| attr in pending;
        SuppliedStep(rest, rest.Keys - pending, attr);
        assert rest.Keys - (pending - {attr}) == (rest.Keys - pending) + {attr};
        if !rest[attr].Null? {
          fields := fields[attr := rest[attr]];
        }
        pending := pending - {attr};
      }
    }

    /** `UserSerializer.update`: pop the four keys, `setattr` every other
        non-None value (the `is_active` one to the flag), then the password
        when non-empty and the picture when not None. */
    method Update(validated: map<string, Value>)
      requires Valid()
      requires FieldTypes(validated)
      modifies this
      ensures Valid()
      ensures fields == MergeUpdate(old(fields), validated)
      ensures password == NewPassword(old(password), validated)
      ensures isActive == ActiveFlag(old(isActive), validated)
    {
      var newPassword := if "password" in validated then Some(validated["password"]) else None;
      var picture := if "profile_picture" in validated then validated["profile_picture"] else Null;
      SetSupplied(validated - Popped - {"is_active"});
      if "is_active" in validated {
        isActive := validated["is_active"].b;
      }
      if newPassword.Some? && Truthy(newPassword.value) {
        password := Some(newPassword.value.s);
      }
      if !picture.Null? {
        fields := fields["profile_picture" := picture];
      }
    }
  }

  /** One more key of the loop adds its value when it is not None. */
  lemma SuppliedStep(rest: map<string, Value>, done: set<string>, attr: string)
    requires attr in rest
    ensures !rest[attr].Null? ==> Supplied(rest, done + {attr}) == Supplied(rest, done)[attr := rest[attr]]
    ensures rest[attr].Null? ==> Supplied(rest, done + {attr}) == Supplied(rest, done)
  {
    var after := Supplied(rest, done + {attr});
    if !rest[attr].Null? {
      assert after.Keys == Supplied(rest, done).Keys + {attr};
    } else {
      assert after.Keys == Supplied(rest, done).Keys;
    }
  }

  // ---------------------------------------------------------------------
  // LoginSerializer.validate

  const IncorrectCredentials := "Incorrect credentials"

  /** What a successful login returns besides the tokens. */
  datatype LoginData = LoginData(username: Value, email: string)

  /** `user.check_password(raw)`. */
  predicate CheckPassword(a: Account, raw: string)
  {
    a.password == Some(raw)
  }

  /** `LoginSerializer.validate` over the accounts keyed by their unique
      email: an unknown email, a wrong password and an inactive account are
      refused with the same message. */
  function Login(accounts: map<string, Account>, email: string, raw: string): (r: Result<LoginData, string>)
    ensures r.Ok? <==> email in accounts && CheckPassword(accounts[email], raw) && accounts[email].isActive
    ensures r.Err? ==> r.error == IncorrectCredentials
    ensures r.Ok? ==> r.value.email == email
    ensures r.Ok? ==>
      r.value.username == (if "username" in accounts[email].fields then accounts[email].fields["username"] else Null)
  {
    if email !in accounts then Err(IncorrectCredentials)
    else
      var a := accounts[email];
      if !CheckPassword(a, raw) then Err(IncorrectCredentials)
      else if a.isActive then
        Ok(LoginData(if "username" in a.fields then a.fields["username"] else Null, email))
      else Err(IncorrectCredentials)
  }

  /** The refusal does not tell the three causes apart. */
  lemma RefusalsLookAlike(accounts: map<string, Account>, unknown: string, known: string,
                          wrong: string, right: string)
    requires unknown !in accounts
    requires known in accounts && !CheckPassword(accounts[known], wrong)
    requires known in accounts && CheckPassword(accounts[known], right) && !accounts[known].isActive
    ensures Login(accounts, unknown, wrong) == Login(accounts, known, wrong) == Login(accounts, known, right)
  {
  }

  /** A user created with a non-empty password, and not created inactive,
      can log in with it and with no other; one created without a password
      or with `is_active` false cannot log in at all. */
  lemma CreatedUserLogsIn(accounts: map<string, Account>, email: string, validated: map<string, Value>, raw: string)
    requires FieldTypes(validated)
    ensures ("password" in validated && validated["password"] == Str(raw) && |raw| > 0 &&
             ("is_active" !in validated || validated["is_active"] == Bool(true))) ==>
      Login(accounts[email := Create(validated)], email, raw).Ok?
    ensures Login(accounts[email := Create(validated)], email, raw).Ok? ==>
      && "password" in validated && validated["password"] == Str(raw) && |raw| > 0
      && ("is_active" !in validated || validated["is_active"] == Bool(true))
  {
  }

  /** The email an account is looked up by after an update: a supplied
      string `email` is written by the `setattr` loop like any other field,
      so `objects.get(email=...)` then finds the account under it. */
  function EmailAfter(email: string, validated: map<string, Value>): (e: string)
    ensures "email" in validated && validated["email"].Str? ==> e == validated["email"].s
    ensures !("email" in validated && validated["email"].Str?) ==> e == email
  {
    if "email" in validated && validated["email"].Str? then validated["email"].s else email
  }

  /** Login after `UserSerializer.update`, the account taking the fields,
      password and flag `UserInstance.Update` gives it and being looked up
      by its new email. Only a non-empty new password logs in after an
      update that sets one; after one with neither password nor
      `is_active`, the old password logs in exactly when it did before,
      now under the updated email and returning the updated username;
      after one with `is_active` false every login is refused; and a
      changed email no longer finds the account under the old one. */
  lemma UpdatedPasswordLogsIn(a: Account, email: string, validated: map<string, Value>, raw: string)
    requires FieldTypes(validated)
    ensures var a' := Account(MergeUpdate(a.fields, validated), NewPassword(a.password, validated),
                              ActiveFlag(a.isActive, validated));
            var e' := EmailAfter(email, validated);
      && ("password" in validated && |validated["password"].s| > 0 ==>
            (Login(map[e' := a'], e', raw).Ok? <==>
               validated["password"].s == raw && ActiveFlag(a.isActive, validated)))
      && (!("password" in validated && |validated["password"].s| > 0) && "is_active" !in validated ==>
            (Login(map[e' := a'], e', raw).Ok? <==> Login(map[email := a], email, raw).Ok?))
      && (Login(map[e' := a'], e', raw).Ok? ==>
            Login(map[e' := a'], e', raw).value.username ==
              (if "username" in validated && !validated["username"].Null? then validated["username"]
               else if "username" in a.fields then a.fields["username"] else Null))
      && ("is_active" in validated && validated["is_active"] == Bool(false) ==>
            Login(map[e' := a'], e', raw).Err?)
      && (e' != email ==> Login(map[e' := a'], email, raw).Err?)
  {
    MergeUpdateRules(a.fields, validated);
  }
}
