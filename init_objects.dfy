/** The create_init_objects management command
    (users/management/commands/create_init_objects.py): create the admin superuser
    unless the guard finds one, then seed three global categories. The guard looks
    for username "admin", but create_user stores the address as the username, so the
    guard never sees the admin it created; the command as written therefore fails on
    its second run, and a corrected command that guards on the address is given
    beside it. */
module InitObjects {
  import opened Common
  import opened Ordering
  import opened Validators
  import opened UsersModels
  import opened Store

  const AdminUsername := "admin"
  const AdminEmail := "admin@example.com"
  const AdminPassword := "12345"

  /** The three global categories the command seeds (create_init_objects.py:21-25). */
  function DefaultCategories(): seq<Category> {
    [RandomThoughts(), School(), Personal()]
  }

  function RandomThoughts(): Category { Category(None, "Random Thoughts", "#EF9C66") }
  function School(): Category { Category(None, "School", "#FCDC94") }
  function Personal(): Category { Category(None, "Personal", "#78ABA8") }

  /** A seed with a trimmed, non-blank name of at most 100 characters and a `#` plus six
      hex digits colour is clean. */
  lemma SeedClean(name: string, digits: string)
    requires name != [] && !IsSpace(name[0]) && !IsSpace(name[|name| - 1]) && |name| <= NameMaxLength
    requires |digits| == 6 && AllHex(digits)
    ensures IsCleanCategory(Category(None, name, "#" + digits))
  {
    StripOfTrimmed(name);
    SixHexDigitsPass(digits);
  }

  /** The categories a seeding loop may store: global ones that pass full_clean unchanged. */
  predicate AllCleanGlobal(seeds: seq<Category>) {
    forall i | 0 <= i < |seeds| :: seeds[i].owner.None? && IsCleanCategory(seeds[i])
  }

  lemma RandomThoughtsClean()
    ensures IsCleanCategory(RandomThoughts())
  {
    var name, digits := "Random Thoughts", "EF9C66";
    assert "#" + digits == "#EF9C66";
    SeedClean(name, digits);
  }

  lemma SchoolClean()
    ensures IsCleanCategory(School())
  {
    var name, digits := "School", "FCDC94";
    assert "#" + digits == "#FCDC94";
    SeedClean(name, digits);
  }

  lemma PersonalClean()
    ensures IsCleanCategory(Personal())
  {
    var name, digits := "Personal", "78ABA8";
    assert "#" + digits == "#78ABA8";
    SeedClean(name, digits);
  }

  /** Every seeded category is global and passes full_clean unchanged; in particular its
      colour satisfies validate_hex_color. */
  lemma DefaultCategoriesClean()
    ensures |DefaultCategories()| == 3 && AllCleanGlobal(DefaultCategories())
  {
    RandomThoughtsClean();
    SchoolClean();
    PersonalClean();
    CleanTriple(RandomThoughts(), School(), Personal());
  }

  lemma CleanTriple(a: Category, b: Category, c: Category)
    requires a.owner.None? && IsCleanCategory(a)
    requires b.owner.None? && IsCleanCategory(b)
    requires c.owner.None? && IsCleanCategory(c)
    ensures AllCleanGlobal([a, b, c])
  {
  }

  /** The category table after storing seeds[k] under ids[k], in order. */
  function Seeded(base: map<CategoryId, Category>, ids: seq<CategoryId>, seeds: seq<Category>): map<CategoryId, Category>
    requires |ids| == |seeds|
    decreases |ids|
  {
    if ids == [] then base
    else Seeded(base, ids[..|ids| - 1], seeds[..|seeds| - 1])[ids[|ids| - 1] := seeds[|seeds| - 1]]
  }

  /** Ids without repeats, none of them a key of the table. */
  predicate FreshIds(ids: seq<CategoryId>, base: map<CategoryId, Category>) {
    Distinct(ids) && forall k | 0 <= k < |ids| :: ids[k] !in base
  }

  lemma FreshAppend(ids: seq<CategoryId>, base: map<CategoryId, Category>, id: CategoryId)
    requires FreshIds(ids, base) && id !in base && id !in ids
    ensures FreshIds(ids + [id], base)
  {
    var r := ids + [id];
    forall i, j | 0 <= i < j < |r| ensures r[i] != r[j] {
      if j == |ids| {
        assert r[i] == ids[i];
      } else {
        assert r[i] == ids[i] && r[j] == ids[j];
      }
    }
  }

  /** Seeding adds exactly the given ids as keys. */
  lemma {:induction false} SeededKeys(base: map<CategoryId, Category>, ids: seq<CategoryId>, seeds: seq<Category>)
    requires |ids| == |seeds|
    ensures forall c :: c in Seeded(base, ids, seeds) <==> c in base || c in ids
    decreases |ids|
  {
    if ids != [] {
      var n := |ids| - 1;
      SeededKeys(base, ids[..n], seeds[..n]);
      assert ids == ids[..n] + [ids[n]];
    }
  }

  /** Each seed sits under its id, and rows already there keep their values. */
  lemma {:induction false} SeededValues(base: map<CategoryId, Category>, ids: seq<CategoryId>, seeds: seq<Category>)
    requires |ids| == |seeds| && FreshIds(ids, base)
    ensures forall k | 0 <= k < |ids| :: ids[k] in Seeded(base, ids, seeds) && Seeded(base, ids, seeds)[ids[k]] == seeds[k]
    ensures forall c | c in base :: c in Seeded(base, ids, seeds) && Seeded(base, ids, seeds)[c] == base[c]
    decreases |ids|
  {
    if ids != [] {
      var n := |ids| - 1;
      SeededValues(base, ids[..n], seeds[..n]);
      forall k | 0 <= k < n
        ensures ids[k] in Seeded(base, ids, seeds) && Seeded(base, ids, seeds)[ids[k]] == seeds[k]
      {
        assert ids[..n][k] == ids[k] && seeds[..n][k] == seeds[k];
      }
    }
  }

  /** Seeding with fresh ids grows the table by exactly their number. */
  lemma {:induction false} SeededSize(base: map<CategoryId, Category>, ids: seq<CategoryId>, seeds: seq<Category>)
    requires |ids| == |seeds| && FreshIds(ids, base)
    ensures |Seeded(base, ids, seeds)| == |base| + |ids|
    decreases |ids|
  {
    if ids != [] {
      var n := |ids| - 1;
      var front, last := ids[..n], ids[n];
      assert FreshIds(front, base) by {
        forall i, j | 0 <= i < j < |front| ensures front[i] != front[j] {
          assert front[i] == ids[i] && front[j] == ids[j];
        }
      }
      SeededSize(base, front, seeds[..n]);
      SeededKeys(base, front, seeds[..n]);
      assert last !in front by {
        forall i | 0 <= i < |front| ensures front[i] != last {
          assert front[i] == ids[i];
        }
      }
      assert last !in Seeded(base, front, seeds[..n]);
    }
  }

  /** Category.objects.create for one clean global category: full_clean passes and the
      row is inserted under a fresh key. */
  method SeedOne(db: Database, c: Category) returns (id: CategoryId)
    requires db.Valid() && c.owner.None? && IsCleanCategory(c)
    modifies db
    ensures db.Valid()
    ensures id !in old(db.categories) && db.categories == old(db.categories)[id := c]
    ensures db.users == old(db.users) && db.tokens == old(db.tokens) && db.profiles == old(db.profiles)
    ensures db.notes == old(db.notes)
  {
    FullCleanIsClean(c);
    var saved := db.InsertCategory(c);
    match saved
    case Err(_) =>
      assert false;
    case Ok(k) =>
      id := k;
  }

  /** Storing seeds[i] under a key not in the table extends the seeded prefix by one. */
  lemma SeededStep(base: map<CategoryId, Category>, created: seq<CategoryId>, seeds: seq<Category>, i: nat,
                   before: map<CategoryId, Category>, id: CategoryId)
    requires i < |seeds| && |created| == i && FreshIds(created, base)
    requires before == Seeded(base, created, seeds[..i]) && id !in before
    ensures FreshIds(created + [id], base)
    ensures before[id := seeds[i]] == Seeded(base, created + [id], seeds[..i + 1])
  {
    SeededKeys(base, created, seeds[..i]);
    FreshAppend(created, base, id);
    assert seeds[..i + 1][..i] == seeds[..i];
    assert (created + [id])[..i] == created;
  }

  /** One turn of the seeding loop: seeds[i] goes in under an id not used before. */
  method SeedNext(db: Database, base: map<CategoryId, Category>, created: seq<CategoryId>, seeds: seq<Category>, i: nat)
    returns (id: CategoryId)
    requires db.Valid() && AllCleanGlobal(seeds) && i < |seeds| && |created| == i
    requires FreshIds(created, base) && db.categories == Seeded(base, created, seeds[..i])
    modifies db
    ensures db.Valid()
    ensures FreshIds(created + [id], base) && db.categories == Seeded(base, created + [id], seeds[..i + 1])
    ensures db.users == old(db.users) && db.tokens == old(db.tokens) && db.profiles == old(db.profiles)
    ensures db.notes == old(db.notes)
  {
    ghost var before := db.categories;
    id := SeedOne(db, seeds[i]);
    SeededStep(base, created, seeds, i, before, id);
  }

  /** The loop of the try block (create_init_objects.py:27-33): Category.objects.create
      for each seed in order, every one running Category.save and so full_clean. */
  method SeedCategories(db: Database, seeds: seq<Category>) returns (created: seq<CategoryId>)
    requires db.Valid() && AllCleanGlobal(seeds)
    modifies db
    ensures db.Valid()
    ensures |created| == |seeds| && FreshIds(created, old(db.categories))
    ensures db.categories == Seeded(old(db.categories), created, seeds)
    ensures db.users == old(db.users) && db.tokens == old(db.tokens) && db.profiles == old(db.profiles)
    ensures db.notes == old(db.notes)
  {
    created := [];
    var base := db.categories;
    var i := 0;
    while i < |seeds|
      invariant 0 <= i <= |seeds| && |created| == i && base == old(db.categories)
      invariant db.Valid()
      invariant FreshIds(created, old(db.categories))
      invariant db.categories == Seeded(old(db.categories), created, seeds[..i])
      invariant db.users == old(db.users) && db.tokens == old(db.tokens) && db.profiles == old(db.profiles)
      invariant db.notes == old(db.notes)
    {
      var id := SeedNext(db, base, created, seeds, i);
      created := created + [id];
      i := i + 1;
    }
    assert seeds[..i] == seeds;
  }

  /** The superuser the command asks for: create_superuser's flags, and create_user's
      username, which is the address and not the "admin" passed in. */
  function AdminUser(): User {
    SuperuserRow(AdminEmail, AdminPassword, AdminUsername)
  }

  lemma AdminUserShape()
    ensures AdminUser().email == AdminEmail && AdminUser().username == AdminEmail
    ensures AdminUser().isStaff && AdminUser().isSuperuser && AdminUser().password == Hashed(AdminPassword)
  {
    NormalizeEmailKeepsAdmin();
  }

  /** Some user has this username. */
  predicate UsernameTaken(users: map<UserId, User>, name: string) {
    exists u | u in users :: users[u].username == name
  }

  /** Adding the admin the command creates never makes its own guard true: the guard
      does not see it. */
  lemma GuardMissesCreatedAdmin(users: map<UserId, User>, id: UserId)
    requires !UsernameTaken(users, AdminUsername)
    ensures !UsernameTaken(users[id := AdminUser()], AdminUsername)
  {
    AdminUserShape();
    assert AdminEmail != AdminUsername by { assert |AdminEmail| != |AdminUsername|; }
  }

  /** The users table after the command's superuser step created the admin. */
  ghost predicate AddsAdmin(before: map<UserId, User>, after: map<UserId, User>) {
    AddsRow(before, after, AdminUser())
  }

  /** The categories table after seeding the three defaults under fresh ids. */
  predicate SeedsDefaults(before: map<CategoryId, Category>, after: map<CategoryId, Category>, created: seq<CategoryId>) {
    |created| == 3 && FreshIds(created, before) && after == Seeded(before, created, DefaultCategories())
  }

  /** `after` is `before` with `row` inserted under a new id. */
  ghost predicate AddsRow(before: map<UserId, User>, after: map<UserId, User>, row: User) {
    exists id | id !in before :: after == before[id := row]
  }

  lemma AddsRowAt(before: map<UserId, User>, after: map<UserId, User>, row: User, id: UserId)
    requires id !in before && after == before[id := row]
    ensures AddsRow(before, after, row)
  {
  }

  /** A superuser row with this address, password and (ignored) username. */
  function SuperuserRow(email: string, password: string, username: string): User {
    NewUser(email, Some(password), SuperuserFields(UserFields(Some(username), "", "", None, None)))
  }

  /** create_superuser with an already-normalized address, guarded by the address: the
      row is added exactly when no user has that address yet. */
  method EnsureSuperuser(db: Database, email: string, password: string, username: string)
    requires db.Valid() && email != [] && NormalizeEmail(email) == email
    modifies db
    ensures db.Valid()
    ensures EmailTaken(db.users, email)
    ensures EmailTaken(old(db.users), email) ==> db.users == old(db.users)
    ensures !EmailTaken(old(db.users), email) ==>
      AddsRow(old(db.users), db.users, SuperuserRow(email, password, username))
    ensures db.categories == old(db.categories) && db.notes == old(db.notes)
  {
    if !EmailTaken(db.users, email) {
      var admin := db.CreateSuperuser(email, Some(password), UserFields(Some(username), "", "", None, None));
      AddsRowAt(old(db.users), db.users, SuperuserRow(email, password, username), admin.value);
      EmailTakenBy(db.users, admin.value, email);
    }
  }

  /** create_superuser with an already-normalized address, guarded by the username:
      when the username is free the row is added, or refused with an integrity error
      if the address is stored already. */
  method EnsureNamedSuperuser(db: Database, email: string, password: string, username: string) returns (r: Result<(), ApiError>)
    requires db.Valid() && email != [] && NormalizeEmail(email) == email
    modifies db
    ensures db.Valid()
    ensures UsernameTaken(old(db.users), username) ==> r == Ok(()) && db.users == old(db.users)
    ensures !UsernameTaken(old(db.users), username) && EmailTaken(old(db.users), email) ==>
      r == Err(IntegrityError) && db.users == old(db.users)
    ensures !UsernameTaken(old(db.users), username) && !EmailTaken(old(db.users), email) ==>
      && r == Ok(())
      && AddsRow(old(db.users), db.users, SuperuserRow(email, password, username))
    ensures db.categories == old(db.categories) && db.notes == old(db.notes)
  {
    r := Ok(());
    if !UsernameTaken(db.users, username) {
      var admin := db.CreateSuperuser(email, Some(password), UserFields(Some(username), "", "", None, None));
      if admin.Err? {
        return Err(admin.error);
      }
      AddsRowAt(old(db.users), db.users, SuperuserRow(email, password, username), admin.value);
    }
  }

  /** Command.handle as written (create_init_objects.py:8-36). The superuser step sits
      outside the try block, so its integrity error ends the command before any
      seeding; otherwise the three categories are added and the command returns true. */
  method HandleAsWritten(db: Database) returns (r: Result<bool, ApiError>, created: seq<CategoryId>)
    requires db.Valid()
    modifies db
    ensures db.Valid()
    ensures !UsernameTaken(old(db.users), AdminUsername) && EmailTaken(old(db.users), AdminEmail) ==>
      r == Err(IntegrityError) && created == [] && db.users == old(db.users) && db.categories == old(db.categories)
    ensures !UsernameTaken(old(db.users), AdminUsername) && !EmailTaken(old(db.users), AdminEmail) ==>
      AddsAdmin(old(db.users), db.users)
    ensures UsernameTaken(old(db.users), AdminUsername) ==> db.users == old(db.users)
    ensures UsernameTaken(old(db.users), AdminUsername) || !EmailTaken(old(db.users), AdminEmail) ==>
      r == Ok(true) && SeedsDefaults(old(db.categories), db.categories, created)
    ensures db.notes == old(db.notes)
  {
    NormalizeEmailKeepsAdmin();
    var admin := EnsureNamedSuperuser(db, AdminEmail, AdminPassword, AdminUsername);
    if admin.Err? {
      return Err(admin.error), [];
    }
    DefaultCategoriesClean();
    created := SeedCategories(db, DefaultCategories());
    r := Ok(true);
  }

  /** The command as intended: the guard asks for the address create_user actually
      stores, so a second run skips the superuser and only seeds again. */
  method HandleCorrected(db: Database) returns (r: Result<bool, ApiError>, created: seq<CategoryId>)
    requires db.Valid()
    modifies db
    ensures db.Valid()
    ensures r == Ok(true)
    ensures EmailTaken(db.users, AdminEmail)
    ensures EmailTaken(old(db.users), AdminEmail) ==> db.users == old(db.users)
    ensures !EmailTaken(old(db.users), AdminEmail) ==> AddsAdmin(old(db.users), db.users)
    ensures SeedsDefaults(old(db.categories), db.categories, created)
    ensures db.notes == old(db.notes)
  {
    NormalizeEmailKeepsAdmin();
    EnsureSuperuser(db, AdminEmail, AdminPassword, AdminUsername);
    DefaultCategoriesClean();
    created := SeedCategories(db, DefaultCategories());
    r := Ok(true);
  }

  /** On a fresh database the command as written succeeds once and then fails: the
      second run's guard misses the admin, and creating it again violates the unique
      address. */
  method RerunAsWritten() returns (first: Result<bool, ApiError>, second: Result<bool, ApiError>)
    ensures first == Ok(true)
    ensures second == Err(IntegrityError)
  {
    var db := new Database();
    assert !UsernameTaken(db.users, AdminUsername);
    var created;
    first, created := HandleAsWritten(db);
    ghost var empty: map<UserId, User> := map[];
    ghost var id :| id !in empty && db.users == empty[id := AdminUser()];
    GuardMissesCreatedAdmin(empty, id);
    AdminUserShape();
    assert db.users[id].email == AdminEmail;
    second, created := HandleAsWritten(db);
  }

  /** On a fresh database the corrected command succeeds on every run; the admin is
      created once and each run seeds three more global categories, duplicates included. */
  method RerunCorrected() returns (first: Result<bool, ApiError>, second: Result<bool, ApiError>, users: nat, categories: nat)
    ensures first == Ok(true) && second == Ok(true)
    ensures users == 1 && categories == 6
  {
    var db := new Database();
    var created1, created2;
    first, created1 := HandleCorrected(db);
    SeededSize(map[], created1, DefaultCategories());
    ghost var afterFirst := db.categories;
    second, created2 := HandleCorrected(db);
    SeededSize(afterFirst, created2, DefaultCategories());
    users, categories := |db.users|, |db.categories|;
  }
}
