/** The users app's serializers (users/serializers.py): registration input with
    its email checks, the user update input with its read-only fields, and the
    category input with its read-only fields. Each turns a submitted payload into
    validated data or a field-keyed error map, as ModelSerializer.is_valid does:
    every field is checked and all failures are reported together. A payload
    field is None when the key was not submitted. */
module UsersSerializers {
  import opened Common
  import opened Validators
  import opened SerializerFields
  import opened UsersModels
  import opened Store

  /** The message of the EmailValidator that EmailField appends. */
  const EnterValidEmailMessage := "Enter a valid email address."
  const InvalidEmailFormatMessage := "Invalid email format"
  const EmailExistsMessage := "Email already exists"

  /** AbstractUser's first_name and last_name: max_length 150, blank allowed. */
  const PersonNameMaxLength: nat := 150

  /** Django's EmailValidator; `isEmail` stands for its address syntax check. */
  function EmailValidator(isEmail: string -> bool): string -> seq<string> {
    v => if isEmail(v) then [] else [EnterValidEmailMessage]
  }

  // ---------------------------------------------------------------------------
  // CreateUserSerializer

  /** CreateUserSerializer.validate_email (serializers.py:55-67): the syntax check,
      then an exact-match lookup of the value as submitted (after trimming). */
  function ValidateEmail(users: map<UserId, User>, value: string, isEmail: string -> bool): (r: seq<string>)
    ensures r == [] <==> isEmail(value) && !EmailTaken(users, value)
    ensures !isEmail(value) ==> r == [InvalidEmailFormatMessage]
    ensures isEmail(value) && EmailTaken(users, value) ==> r == [EmailExistsMessage]
  {
    if !isEmail(value) then [InvalidEmailFormatMessage]
    else if EmailTaken(users, value) then [EmailExistsMessage]
    else []
  }

  /** The registration email field: EmailField's own checks (required, not blank, no
      null character, the address syntax), then validate_email on the trimmed value. */
  function EmailInput(raw: Option<string>, users: map<UserId, User>, isEmail: string -> bool): (r: FieldResult<string>)
    ensures !r.Skipped?
    ensures r.Value? <==>
      && raw.Some? && !AllSpace(raw.value)
      && isEmail(Strip(raw.value)) && '\0' !in Strip(raw.value) && !EmailTaken(users, Strip(raw.value))
    ensures r.Value? ==> r.value == Strip(raw.value)
  {
    var field := CharInput(raw, true, false, None, NoValidators, EmailValidator(isEmail));
    if field.Value? then
      var messages := ValidateEmail(users, field.value, isEmail);
      if messages == [] then field else Invalid(messages)
    else field
  }

  /** Whatever an email field reports, it is never "Invalid email format": EmailField
      runs the same syntax check first, so validate_email only sees valid addresses. */
  lemma FormatMessageNeverReported(raw: Option<string>, users: map<UserId, User>, isEmail: string -> bool)
    ensures EmailInput(raw, users, isEmail).Invalid? ==>
              InvalidEmailFormatMessage !in EmailInput(raw, users, isEmail).messages
  {
    var field := CharInput(raw, true, false, None, NoValidators, EmailValidator(isEmail));
    if raw.Some? && !AllSpace(raw.value) {
      var v := Strip(raw.value);
      var messages := ValidatorMessages(v, None, NoValidators, EmailValidator(isEmail));
      assert InvalidEmailFormatMessage[0] == 'I';
      assert messages == (if '\0' in v then [NullCharacterMessage] else []) + EmailValidator(isEmail)(v);
      assert NullCharacterMessage[0] == 'N' && EnterValidEmailMessage[0] == 'E';
      if field.Value? {
        assert isEmail(v);
      }
    } else {
      assert RequiredMessage[0] == 'T' && BlankMessage[0] == 'T';
    }
  }

  /** The registration payload; `id` and `auth_token` are read-only and so not part of it. */
  datatype RegistrationPayload = RegistrationPayload(
    email: Option<string>,
    password: Option<string>,
    firstName: Option<string>,
    lastName: Option<string>)

  /** validated_data of a valid registration. */
  datatype Registration = Registration(
    email: string,
    password: string,
    firstName: Option<string>,
    lastName: Option<string>)

  /** Records a failing field's messages under its name. */
  function Report<T>(errors: ErrorDict, field: string, r: FieldResult<T>): (e: ErrorDict)
    ensures r.Invalid? ==> e == errors[field := r.messages]
    ensures !r.Invalid? ==> e == errors
  {
    if r.Invalid? then errors[field := r.messages] else errors
  }

  function OptionalValue(r: FieldResult<string>): Option<string> {
    if r.Value? then Some(r.value) else None
  }

  /** The four writable fields of CreateUserSerializer as the framework builds them:
      password (declared, required, trimmed), first and last name (from the model:
      optional, blank allowed, at most 150 characters) and the email field. */
  function PasswordInput(p: RegistrationPayload): (r: FieldResult<string>)
    ensures !r.Skipped?
  {
    CharInput(p.password, true, false, None, NoValidators, NoValidators)
  }

  function PersonNameInput(raw: Option<string>): FieldResult<string> {
    CharInput(raw, false, true, Some(PersonNameMaxLength), NoValidators, NoValidators)
  }

  /** CreateUserSerializer.is_valid. */
  function ValidateRegistration(users: map<UserId, User>, p: RegistrationPayload, isEmail: string -> bool):
    (r: Result<Registration, ErrorDict>)
    ensures r.Ok? <==>
      && PasswordInput(p).Value? && !PersonNameInput(p.firstName).Invalid?
      && !PersonNameInput(p.lastName).Invalid? && EmailInput(p.email, users, isEmail).Value?
    ensures r.Ok? ==>
      && r.value.email == EmailInput(p.email, users, isEmail).value
      && r.value.password == PasswordInput(p).value
      && r.value.firstName == OptionalValue(PersonNameInput(p.firstName))
      && r.value.lastName == OptionalValue(PersonNameInput(p.lastName))
    ensures r.Err? ==>
      && ("password" in r.error <==> PasswordInput(p).Invalid?)
      && ("email" in r.error <==> EmailInput(p.email, users, isEmail).Invalid?)
      && ("first_name" in r.error <==> PersonNameInput(p.firstName).Invalid?)
      && ("last_name" in r.error <==> PersonNameInput(p.lastName).Invalid?)
      && r.error.Keys <= {"password", "email", "first_name", "last_name"}
  {
    var password := PasswordInput(p);
    var first := PersonNameInput(p.firstName);
    var last := PersonNameInput(p.lastName);
    var email := EmailInput(p.email, users, isEmail);
    var errors := Report(Report(Report(Report(map[], "password", password), "first_name", first), "last_name", last),
                         "email", email);
    assert password.Invalid? ==> "password" in errors;
    assert first.Invalid? ==> "first_name" in errors;
    assert last.Invalid? ==> "last_name" in errors;
    assert email.Invalid? ==> "email" in errors;
    if errors != map[] then Err(errors)
    else
      Ok(Registration(email.value, password.value, OptionalValue(first), OptionalValue(last)))
  }

  /** A valid registration carries the trimmed address, which no user holds as written and
      which passed the syntax check, and the trimmed, non-blank password. */
  lemma RegistrationAccepted(users: map<UserId, User>, p: RegistrationPayload, isEmail: string -> bool)
    requires ValidateRegistration(users, p, isEmail).Ok?
    ensures var reg := ValidateRegistration(users, p, isEmail).value;
      && p.email.Some? && reg.email == Strip(p.email.value) && reg.email != []
      && isEmail(reg.email) && !EmailTaken(users, reg.email)
      && p.password.Some? && reg.password == Strip(p.password.value) && reg.password != []
  {
  }

  /** An empty registration reports exactly the two required fields. */
  lemma EmptyRegistrationErrors(users: map<UserId, User>, isEmail: string -> bool)
    ensures ValidateRegistration(users, RegistrationPayload(None, None, None, None), isEmail)
              == Err(map["password" := [RequiredMessage], "email" := [RequiredMessage]])
  {
    var p := RegistrationPayload(None, None, None, None);
    var r := ValidateRegistration(users, p, isEmail);
    assert "password" != "email";
    assert r.error == map["password" := [RequiredMessage]]["email" := [RequiredMessage]];
  }

  /** An address some user already holds, submitted exactly, is refused under `email`
      with "Email already exists". */
  lemma ExistingEmailRejected(users: map<UserId, User>, p: RegistrationPayload, isEmail: string -> bool, u: UserId)
    requires p.email.Some? && u in users && users[u].email == Strip(p.email.value) && users[u].email != []
    requires isEmail(users[u].email) && '\0' !in users[u].email
    ensures ValidateRegistration(users, p, isEmail).Err?
    ensures ValidateRegistration(users, p, isEmail).error["email"] == [EmailExistsMessage]
  {
    assert EmailTaken(users, Strip(p.email.value));
  }

  /** An address the syntax check refuses is reported under `email`. */
  lemma MalformedEmailRejected(users: map<UserId, User>, p: RegistrationPayload, isEmail: string -> bool)
    requires p.email.Some? && !AllSpace(p.email.value) && !isEmail(Strip(p.email.value))
    ensures ValidateRegistration(users, p, isEmail).Err?
    ensures EnterValidEmailMessage in ValidateRegistration(users, p, isEmail).error["email"]
  {
    var v := Strip(p.email.value);
    assert ValidatorMessages(v, None, NoValidators, EmailValidator(isEmail))
             == (if '\0' in v then [NullCharacterMessage] else []) + [EnterValidEmailMessage];
  }

  /** What CreateUserSerializer.create hands to create_user (serializers.py:69-75): the
      validated fields plus username set to the submitted email; an omitted name keeps
      the model's default, the empty string. */
  function RegistrationFields(reg: Registration): (f: UserFields)
    ensures f.username == Some(reg.email) && f.isStaff.None? && f.isSuperuser.None?
    ensures f.firstName == reg.firstName.GetOr("") && f.lastName == reg.lastName.GetOr("")
  {
    UserFields(Some(reg.email), reg.firstName.GetOr(""), reg.lastName.GetOr(""), None, None)
  }

  // ---------------------------------------------------------------------------
  // UserSerializer (updates)

  /** An update payload for UserSerializer; a nested `profile` is not part of it. */
  datatype UserPayload = UserPayload(
    id: Option<string>,
    email: Option<string>,
    firstName: Option<string>,
    lastName: Option<string>)

  /** The names an update sets; None leaves a name as it is. */
  datatype NameChange = NameChange(firstName: Option<string>, lastName: Option<string>)

  /** UserSerializer.is_valid for an update: `id` and `email` are read-only (serializers.py:33)
      and never read; the names are optional whether or not the update is partial. */
  function ValidateUserUpdate(p: UserPayload): (r: Result<NameChange, ErrorDict>)
    ensures r.Ok? <==> !PersonNameInput(p.firstName).Invalid? && !PersonNameInput(p.lastName).Invalid?
    ensures r.Ok? ==>
      && r.value.firstName == OptionalValue(PersonNameInput(p.firstName))
      && r.value.lastName == OptionalValue(PersonNameInput(p.lastName))
    ensures r.Err? ==>
      && ("first_name" in r.error <==> PersonNameInput(p.firstName).Invalid?)
      && ("last_name" in r.error <==> PersonNameInput(p.lastName).Invalid?)
      && r.error.Keys <= {"first_name", "last_name"}
  {
    var first := PersonNameInput(p.firstName);
    var last := PersonNameInput(p.lastName);
    var errors := Report(Report(map[], "first_name", first), "last_name", last);
    assert first.Invalid? ==> "first_name" in errors;
    assert last.Invalid? ==> "last_name" in errors;
    if errors != map[] then Err(errors) else Ok(NameChange(OptionalValue(first), OptionalValue(last)))
  }

  /** An accepted name is the trimmed submitted one; an omitted name stays omitted. */
  lemma PersonNameAccepted(raw: Option<string>)
    requires !PersonNameInput(raw).Invalid?
    ensures raw.None? ==> OptionalValue(PersonNameInput(raw)).None?
    ensures raw.Some? ==> OptionalValue(PersonNameInput(raw)) == Some(Strip(raw.value))
    ensures raw.Some? ==> |Strip(raw.value)| <= PersonNameMaxLength
  {
  }

  /** Submitting an id or an email changes nothing about the outcome of an update. */
  lemma ReadOnlyUserFieldsIgnored(p: UserPayload, id: Option<string>, email: Option<string>)
    ensures ValidateUserUpdate(p.(id := id, email := email)) == ValidateUserUpdate(p)
  {
  }

  // ---------------------------------------------------------------------------
  // CategorySerializer

  /** A category payload; `id`, `user` and `note_count` are read-only (serializers.py:83-89). */
  datatype CategoryPayload = CategoryPayload(
    id: Option<string>,
    user: Option<string>,
    name: Option<string>,
    color: Option<string>,
    noteCount: Option<string>)

  /** The fields a category write sets; None (only in a partial update) keeps the stored value. */
  datatype CategoryChange = CategoryChange(name: Option<string>, color: Option<string>)

  /** validate_hex_color as a serializer validator. */
  function HexColorMessages(v: string): seq<string> {
    match ValidateHexColor(v)
    case Pass => []
    case Fail(m) => [m]
  }

  /** The name field the framework derives from Category.name. */
  function CategoryNameInput(raw: Option<string>, partial: bool): FieldResult<string> {
    CharInput(raw, !partial, false, Some(NameMaxLength), NoValidators, NoValidators)
  }

  /** The color field the framework derives from Category.color, validate_hex_color included. */
  function CategoryColorInput(raw: Option<string>, partial: bool): FieldResult<string> {
    CharInput(raw, !partial, false, Some(ColorMaxLength), HexColorMessages, NoValidators)
  }

  /** CategorySerializer.is_valid. */
  function ValidateCategoryPayload(p: CategoryPayload, partial: bool): (r: Result<CategoryChange, ErrorDict>)
    ensures r.Ok? <==> !CategoryNameInput(p.name, partial).Invalid? && !CategoryColorInput(p.color, partial).Invalid?
    ensures r.Ok? ==>
      && r.value.name == OptionalValue(CategoryNameInput(p.name, partial))
      && r.value.color == OptionalValue(CategoryColorInput(p.color, partial))
    ensures r.Err? ==>
      && ("name" in r.error <==> CategoryNameInput(p.name, partial).Invalid?)
      && ("color" in r.error <==> CategoryColorInput(p.color, partial).Invalid?)
      && r.error.Keys <= {"name", "color"}
  {
    var name := CategoryNameInput(p.name, partial);
    var color := CategoryColorInput(p.color, partial);
    var errors := Report(Report(map[], "name", name), "color", color);
    assert name.Invalid? ==> "name" in errors;
    assert color.Invalid? ==> "color" in errors;
    if errors != map[] then Err(errors) else Ok(CategoryChange(OptionalValue(name), OptionalValue(color)))
  }

  /** An accepted name is the trimmed submitted one and already satisfies what
      Category.full_clean demands of a name; in a full write it must be present. */
  lemma CategoryNameAccepted(raw: Option<string>, partial: bool)
    requires !CategoryNameInput(raw, partial).Invalid?
    ensures !partial ==> raw.Some?
    ensures raw.Some? ==>
      var name := Strip(raw.value);
      && OptionalValue(CategoryNameInput(raw, partial)) == Some(name)
      && NameAcceptable(name) && Strip(name) == name
  {
    if raw.Some? {
      StripIdempotent(raw.value);
    }
  }

  /** An accepted colour is the trimmed submitted one and already satisfies what
      Category.full_clean demands of a colour; in a full write it must be present. */
  lemma CategoryColorAccepted(raw: Option<string>, partial: bool)
    requires !CategoryColorInput(raw, partial).Invalid?
    ensures !partial ==> raw.Some?
    ensures raw.Some? ==>
      var color := Strip(raw.value);
      && OptionalValue(CategoryColorInput(raw, partial)) == Some(color)
      && ColorAcceptable(color)
  {
  }

  /** Submitting an id, an owner or a note count changes nothing about the outcome. */
  lemma ReadOnlyCategoryFieldsIgnored(p: CategoryPayload, partial: bool,
                                      id: Option<string>, user: Option<string>, noteCount: Option<string>)
    ensures ValidateCategoryPayload(p.(id := id, user := user, noteCount := noteCount), partial)
              == ValidateCategoryPayload(p, partial)
  {
  }

  /** The category a write stores: the submitted fields over the existing ones. */
  function Merge(existing: Category, change: CategoryChange): (c: Category)
    ensures c.owner == existing.owner
    ensures c.name == change.name.GetOr(existing.name) && c.color == change.color.GetOr(existing.color)
  {
    existing.(name := change.name.GetOr(existing.name), color := change.color.GetOr(existing.color))
  }

  /** What the serializer accepts, laid over a clean category (or given in full), passes
      full_clean unchanged: the model-level validation error of Category.save cannot follow
      a valid payload. */
  lemma ValidPayloadIsClean(existing: Category, p: CategoryPayload, partial: bool)
    requires ValidateCategoryPayload(p, partial).Ok?
    requires partial ==> IsCleanCategory(existing)
    ensures IsCleanCategory(Merge(existing, ValidateCategoryPayload(p, partial).value))
    ensures FullClean(Merge(existing, ValidateCategoryPayload(p, partial).value))
              == Ok(Merge(existing, ValidateCategoryPayload(p, partial).value))
  {
    var c := Merge(existing, ValidateCategoryPayload(p, partial).value);
    CategoryNameAccepted(p.name, partial);
    CategoryColorAccepted(p.color, partial);
    FullCleanIsClean(c);
  }
}
