/** The users app's models (users/models.py): the User record and what
    UserManager builds, and Category with the validation its save() runs. */
module UsersModels {
  import opened Common
  import opened Validators

  // ---------------------------------------------------------------------------
  // Users

  /** set_password: the stored hash stands for the raw password; None makes the password unusable. */
  datatype Password = Unusable | Hashed(raw: string)

  /** A row of the user table. `username` is kept; `email` is the login name. */
  datatype User = User(
    email: string,
    username: string,
    password: Password,
    firstName: string,
    lastName: string,
    isStaff: bool,
    isSuperuser: bool,
    isActive: bool)

  /** The keyword arguments create_user passes on to the model; None keeps the model's default. */
  datatype UserFields = UserFields(
    username: Option<string>,
    firstName: string,
    lastName: string,
    isStaff: Option<bool>,
    isSuperuser: Option<bool>)

  /** Position of the last occurrence of c, as rsplit(c, 1) finds it. */
  function LastIndexOf(s: string, c: char): (r: Option<nat>)
    ensures r.None? ==> c !in s
    ensures r.Some? ==> r.value < |s| && s[r.value] == c && c !in s[r.value + 1..]
  {
    if s == [] then None
    else if s[|s| - 1] == c then Some(|s| - 1)
    else
      var r := LastIndexOf(s[..|s| - 1], c);
      assert s == s[..|s| - 1] + [s[|s| - 1]];
      r
  }

  /** BaseUserManager.normalize_email: split the stripped address at its last `@` and
      lower-case the domain; an address without `@` is returned as given. */
  function NormalizeEmail(email: string): (r: string)
    ensures '@' !in Strip(email) ==> r == email
    ensures '@' in Strip(email) ==> |r| == |Strip(email)| && '@' in r
  {
    var t := Strip(email);
    match LastIndexOf(t, '@')
    case None => email
    case Some(k) => t[..k] + "@" + AsciiLower(t[k + 1..])
  }

  /** The last occurrence of c is the one with no c after it. */
  lemma {:induction false} LastIndexOfAt(s: string, c: char, k: nat)
    requires k < |s| && s[k] == c
    requires forall i | k < i < |s| :: s[i] != c
    ensures LastIndexOf(s, c) == Some(k)
    decreases |s|
  {
    if k < |s| - 1 {
      var p := s[..|s| - 1];
      LastIndexOfAt(p, c, k);
    }
  }

  lemma AsciiLowerIdempotent(s: string)
    ensures AsciiLower(AsciiLower(s)) == AsciiLower(s)
  {
  }

  /** Lower-casing neither creates nor removes whitespace or an `@`. */
  lemma LowerCharKeeps(c: char)
    ensures IsSpace(LowerChar(c)) <==> IsSpace(c)
    ensures LowerChar(c) == '@' <==> c == '@'
  {
  }

  lemma SplitAtParts(local: string, domain: string)
    ensures (local + "@" + domain)[..|local|] == local
    ensures (local + "@" + domain)[|local|] == '@'
    ensures (local + "@" + domain)[|local| + 1..] == domain
  {
  }

  /** The address normalize_email builds from a stripped address whose last `@` is at k. */
  lemma NormalizedShape(t: string, k: nat)
    requires t == [] || (!IsSpace(t[0]) && !IsSpace(t[|t| - 1]))
    requires k < |t| && t[k] == '@'
    requires forall i | k < i < |t| :: t[i] != '@'
    ensures var r := t[..k] + "@" + AsciiLower(t[k + 1..]);
      && |r| == |t|
      && (!IsSpace(r[0]) && !IsSpace(r[|r| - 1]))
      && r[k] == '@'
      && (forall i | k < i < |r| :: r[i] != '@')
  {
    var tail := t[k + 1..];
    var domain := AsciiLower(tail);
    var r := t[..k] + "@" + domain;
    SplitAtParts(t[..k], domain);
    forall i | k < i < |r| ensures r[i] != '@' {
      assert r[i] == domain[i - k - 1] == LowerChar(tail[i - k - 1]);
      assert tail[i - k - 1] == t[i];
      LowerCharKeeps(t[i]);
    }
    if k > 0 {
      assert r[0] == t[0];
    }
    if tail != [] {
      assert r[|r| - 1] == LowerChar(tail[|tail| - 1]);
      assert tail[|tail| - 1] == t[|t| - 1];
      LowerCharKeeps(t[|t| - 1]);
    }
  }

  /** Normalising an already normalised address changes nothing. */
  lemma NormalizeEmailIdempotent(email: string)
    ensures NormalizeEmail(NormalizeEmail(email)) == NormalizeEmail(email)
  {
    var t := Strip(email);
    match LastIndexOf(t, '@')
    case None =>
    case Some(k) =>
      var tail := t[k + 1..];
      var r := t[..k] + "@" + AsciiLower(tail);
      assert NormalizeEmail(email) == r;
      NormalizedShape(t, k);
      StripOfTrimmed(r);
      LastIndexOfAt(r, '@', k);
      SplitAtParts(t[..k], AsciiLower(tail));
      AsciiLowerIdempotent(tail);
  }

  /** An address without surrounding whitespace keeps its local part and lower-cases the
      part after its last `@`. */
  lemma NormalizeSplitsAtLastAt(local: string, domain: string)
    requires local == [] || !IsSpace(local[0])
    requires domain == [] || !IsSpace(domain[|domain| - 1])
    requires forall i | 0 <= i < |domain| :: domain[i] != '@'
    ensures NormalizeEmail(local + "@" + domain) == local + "@" + AsciiLower(domain)
  {
    var e := local + "@" + domain;
    SplitAtParts(local, domain);
    if local != [] { assert e[0] == local[0]; }
    if domain != [] { assert e[|e| - 1] == domain[|domain| - 1]; }
    StripOfTrimmed(e);
    forall i | |local| < i < |e| ensures e[i] != '@' {
      assert e[i] == domain[i - |local| - 1];
    }
    LastIndexOfAt(e, '@', |local|);
  }

  /** The domain of a mixed-case address is lower-cased, as the registration tests expect. */
  lemma NormalizeEmailLowersDomain()
    ensures NormalizeEmail("a@EXAMPLE.com") == "a@example.com"
  {
    var local, domain := "a", "EXAMPLE.com";
    assert local + "@" + domain == "a@EXAMPLE.com";
    assert AsciiLower(domain) == "example.com";
    assert local + "@" + "example.com" == "a@example.com";
    NormalizeSplitsAtLastAt(local, domain);
  }

  /** The provisioning command's address is already normalised. */
  lemma NormalizeEmailKeepsAdmin()
    ensures NormalizeEmail("admin@example.com") == "admin@example.com"
  {
    var local, domain := "admin", "example.com";
    assert local + "@" + domain == "admin@example.com";
    assert AsciiLower(domain) == domain;
    NormalizeSplitsAtLastAt(local, domain);
  }

  /** The object create_user builds before saving it (models.py:27-30): normalised email,
      username overwritten with that email whatever was passed, the password set. */
  function NewUser(email: string, password: Option<string>, extra: UserFields): User {
    var normalized := NormalizeEmail(email);
    User(
      email := normalized,
      username := normalized,
      password := if password.Some? then Hashed(password.value) else Unusable,
      firstName := extra.firstName,
      lastName := extra.lastName,
      isStaff := extra.isStaff.GetOr(false),
      isSuperuser := extra.isSuperuser.GetOr(false),
      isActive := true)
  }

  /** create_superuser's setdefault calls (models.py:38-39). */
  function SuperuserFields(extra: UserFields): (r: UserFields)
    ensures r.isStaff.Some? && r.isSuperuser.Some?
    ensures extra.isStaff.None? ==> r.isStaff == Some(true)
    ensures extra.isSuperuser.None? ==> r.isSuperuser == Some(true)
    ensures extra.isStaff.Some? ==> r.isStaff == extra.isStaff
    ensures extra.isSuperuser.Some? ==> r.isSuperuser == extra.isSuperuser
    ensures r.username == extra.username && r.firstName == extra.firstName && r.lastName == extra.lastName
  {
    extra.(isStaff := Some(extra.isStaff.GetOr(true)), isSuperuser := Some(extra.isSuperuser.GetOr(true)))
  }

  // ---------------------------------------------------------------------------
  // Categories

  /** A row of the category table; owner None marks a global category. */
  datatype Category = Category(owner: Option<UserId>, name: string, color: string)

  const NameMaxLength: nat := 100
  const ColorMaxLength: nat := 7

  const CleanNameMessage := "Name cannot be empty or whitespace"
  const ModelBlankMessage := "This field cannot be blank."

  /** Django's MaxLengthValidator message on a model field. */
  function ModelMaxLengthMessage(limit: nat, length: nat): string {
    "Ensure this value has at most " + DecimalString(limit) + " characters (it has " + DecimalString(length) + ")."
  }

  /** Category.clean (models.py:94-100): refuses an empty or whitespace-only name,
      otherwise yields the stripped name that is then stored. */
  function CleanName(name: string): (r: Result<string, string>)
    ensures r.Err? <==> AllSpace(name)
    ensures r.Err? ==> r.error == CleanNameMessage
    ensures r.Ok? ==> r.value == Strip(name) && r.value != [] && Strip(r.value) == r.value
  {
    if name == [] || AllSpace(name) then Err(CleanNameMessage)
    else
      StripIdempotent(name);
      Ok(Strip(name))
  }

  /** clean_fields for `name`: blank check, then max_length, on the value before stripping. */
  function NameFieldErrors(name: string): seq<string> {
    if name == [] then [ModelBlankMessage]
    else if |name| > NameMaxLength then [ModelMaxLengthMessage(NameMaxLength, |name|)]
    else []
  }

  /** clean_fields for `color`: blank check, then validate_hex_color and max_length (all validators run). */
  function ColorFieldErrors(color: string): seq<string> {
    if color == [] then [ModelBlankMessage]
    else
      (match ValidateHexColor(color) case Pass => [] case Fail(m) => [m])
      + (if |color| > ColorMaxLength then [ModelMaxLengthMessage(ColorMaxLength, |color|)] else [])
  }

  predicate NameAcceptable(name: string) {
    !AllSpace(name) && |name| <= NameMaxLength
  }

  predicate ColorAcceptable(color: string) {
    AcceptedColor(color) && |color| <= ColorMaxLength
  }

  /** Model.full_clean as Category.save runs it (models.py:102-104): field checks, then
      clean(); every message is collected, keyed by field; on success the name is stripped. */
  function FullClean(c: Category): (r: Result<Category, ErrorDict>)
    ensures r.Ok? <==> NameAcceptable(c.name) && ColorAcceptable(c.color)
    ensures r.Ok? ==> r.value == c.(name := Strip(c.name))
    ensures r.Err? ==> ("name" in r.error <==> !NameAcceptable(c.name))
    ensures r.Err? ==> ("color" in r.error <==> !ColorAcceptable(c.color))
    ensures r.Err? && AllSpace(c.name) ==> CleanNameMessage in r.error["name"]
    ensures r.Err? ==> r.error.Keys <= {"name", "color"}
  {
    var errors := AddErrors(AddErrors(map[], "name", NameFieldErrors(c.name)), "color", ColorFieldErrors(c.color));
    match CleanName(c.name)
    case Err(m) => Err(AddError(errors, "name", m))
    case Ok(n) =>
      if errors == map[] then Ok(c.(name := n)) else Err(errors)
  }

  /** What a stored category satisfies: it passed full_clean and holds the stripped name. */
  predicate IsCleanCategory(c: Category) {
    NameAcceptable(c.name) && ColorAcceptable(c.color) && Strip(c.name) == c.name
  }

  /** Whatever full_clean accepts is clean, and a clean category passes full_clean unchanged:
      saving a stored category again changes nothing. */
  lemma FullCleanIsClean(c: Category)
    ensures FullClean(c).Ok? ==> IsCleanCategory(FullClean(c).value)
    ensures IsCleanCategory(c) ==> FullClean(c) == Ok(c)
  {
    StripIdempotent(c.name);
  }

  /** The trimming example the tests use (test_models.py): "  Test Category  " is stored as "Test Category". */
  lemma NameStrippedExample()
    ensures CleanName("  Test Category  ") == Ok("Test Category")
  {
    assert "  Test Category  " == "  " + "Test Category" + "  ";
    StripSurrounded("  ", "Test Category", "  ");
  }
}
