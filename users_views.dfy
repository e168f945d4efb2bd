/** The users app's endpoints (users/views.py): the user view set with its `me`
    action, the registration endpoint and the category view set. A caller is
    None for an anonymous request and Some(id) for an authenticated user, who
    exists. Reads are functions of the tables; writes are methods on the database. */
module UsersViews {
  import opened Common
  import opened Ordering
  import opened Permissions
  import opened UsersModels
  import opened NotesModels
  import opened Store
  import opened UsersSerializers

  // ---------------------------------------------------------------------------
  // UserViewSet

  datatype UserAction = CreateAction | RetrieveAction | UpdateAction | PartialUpdateAction | MeAction

  /** The view-level permission classes of the user view set. */
  datatype PermissionClass = AllowAnyClass | IsUserOrReadOnlyClass

  /** UserViewSet.get_permissions (views.py:32-40): AllowAny for create, the set's own
      IsUserOrReadOnly otherwise. */
  function UserViewPermissions(action: UserAction): seq<PermissionClass> {
    if action == CreateAction then [AllowAnyClass] else [IsUserOrReadOnlyClass]
  }

  /** has_permission of a class: AllowAny lets everyone in, and IsUserOrReadOnly keeps
      BasePermission's default, which does too. */
  function HasPermission(p: PermissionClass, caller: Option<UserId>): bool {
    match p
    case AllowAnyClass => true
    case IsUserOrReadOnlyClass => true
  }

  /** No action of the user view set refuses a request before the object is looked up,
      whoever sends it: anonymous callers reach retrieve, update and `me`. */
  lemma UserViewAdmitsEveryone(action: UserAction, caller: Option<UserId>)
    ensures |UserViewPermissions(action)| == 1
    ensures forall i | 0 <= i < |UserViewPermissions(action)| :: HasPermission(UserViewPermissions(action)[i], caller)
    ensures action == CreateAction <==> UserViewPermissions(action)[0] == AllowAnyClass
  {
  }

  /** What UserSerializer renders: id, names, email and the nested profile. */
  datatype UserOut = UserOut(id: UserId, firstName: string, lastName: string, email: string, profile: Profile)

  function UserRepresentation(users: map<UserId, User>, profiles: map<UserId, Profile>, id: UserId): (r: UserOut)
    requires id in users && id in profiles
    ensures r.id == id && r.email == users[id].email && r.profile == profiles[id]
    ensures r.firstName == users[id].firstName && r.lastName == users[id].lastName
  {
    UserOut(id, users[id].firstName, users[id].lastName, users[id].email, profiles[id])
  }

  /** The retrieve action: the object is looked up first (a missing user is a 404),
      then IsUserOrReadOnly lets every GET through. */
  function RetrieveUser(users: map<UserId, User>, profiles: map<UserId, Profile>,
                        caller: Option<UserId>, id: UserId): (r: Result<UserOut, ApiError>)
    requires profiles.Keys == users.Keys
  {
    if id !in users then Err(NotFound)
    else if !IsUserOrReadOnly(GET, id, caller) then Err(Forbidden)
    else Ok(UserRepresentation(users, profiles, id))
  }

  /** Any caller, anonymous or not, reads any existing user's record; a missing one is a 404. */
  lemma RetrieveUserOutcome(users: map<UserId, User>, profiles: map<UserId, Profile>, caller: Option<UserId>, id: UserId)
    requires profiles.Keys == users.Keys
    ensures id !in users <==> RetrieveUser(users, profiles, caller, id) == Err(NotFound)
    ensures id in users ==> RetrieveUser(users, profiles, caller, id) == Ok(UserRepresentation(users, profiles, id))
    ensures RetrieveUser(users, profiles, caller, id) == RetrieveUser(users, profiles, None, id)
  {
  }

  /** What the `me` action renders. For an anonymous caller UserSerializer reads
      AnonymousUser, whose id is None; every other field is non-required (blank names,
      read-only email, `profile` with required=False), so the attribute the anonymous
      user lacks makes the field skipped rather than raised: the body is `{"id": null}`. */
  datatype MeOut = NullIdOnly | Record(user: UserOut)

  /** The `me` action (views.py:42-47): always 200; the caller's own record, or only a
      null id for an anonymous caller. */
  function Me(users: map<UserId, User>, profiles: map<UserId, Profile>, caller: Option<UserId>): (r: MeOut)
    requires profiles.Keys == users.Keys
    requires caller.Some? ==> caller.value in users
    ensures caller.None? <==> r == NullIdOnly
    ensures caller.Some? ==> r.Record? && r.user.id == caller.value && r.user.email == users[caller.value].email
  {
    match caller
    case None => NullIdOnly
    case Some(u) => Record(UserRepresentation(users, profiles, u))
  }

  /** `me` and retrieve agree on the caller's own record. */
  lemma MeIsOwnRecord(users: map<UserId, User>, profiles: map<UserId, Profile>, u: UserId)
    requires profiles.Keys == users.Keys && u in users
    ensures Me(users, profiles, Some(u)).Record?
    ensures RetrieveUser(users, profiles, Some(u), u) == Ok(Me(users, profiles, Some(u)).user)
  {
  }

  /** The update and partial_update actions (UpdateModelMixin): lookup (404), then the
      object permission, which lets only the user themself write (403), then the
      serializer (400); the names submitted replace the stored ones and an omitted name
      stays. PUT and PATCH behave alike here because no field of UserSerializer is required. */
  method UpdateUser(db: Database, caller: Option<UserId>, id: UserId, p: UserPayload) returns (r: Result<UserOut, ApiError>)
    requires db.Valid()
    modifies db
    ensures db.Valid()
    ensures id !in old(db.users) ==> r == Err(NotFound) && unchanged(db)
    ensures id in old(db.users) && caller != Some(id) ==> r == Err(Forbidden) && unchanged(db)
    ensures id in old(db.users) && caller == Some(id) && ValidateUserUpdate(p).Err? ==>
      r == Err(BadRequest(ValidateUserUpdate(p).error)) && unchanged(db)
    ensures id in old(db.users) && caller == Some(id) && ValidateUserUpdate(p).Ok? ==>
      var change := ValidateUserUpdate(p).value;
      var before := old(db.users)[id];
      && db.users == old(db.users)[id := before.(firstName := change.firstName.GetOr(before.firstName),
                                                 lastName := change.lastName.GetOr(before.lastName))]
      && r == Ok(UserRepresentation(db.users, db.profiles, id))
      && db.profiles == old(db.profiles) && db.categories == old(db.categories) && db.notes == old(db.notes)
  {
    if id !in db.users {
      return Err(NotFound);
    }
    if !IsUserOrReadOnly(PUT, id, caller) {
      return Err(Forbidden);
    }
    var validated := ValidateUserUpdate(p);
    if validated.Err? {
      return Err(BadRequest(validated.error));
    }
    var before := db.users[id];
    db.SaveUserNames(id, validated.value.firstName.GetOr(before.firstName), validated.value.lastName.GetOr(before.lastName));
    r := Ok(UserRepresentation(db.users, db.profiles, id));
  }

  // ---------------------------------------------------------------------------
  // Registration (UserViewSet.create and RegistrationView.post)

  const RegisteredMessage := "User registered successfully"

  /** What CreateUserSerializer renders after a save; the token key itself is random and
      stands here as the fact that a token exists for the user. */
  datatype NewUserOut = NewUserOut(id: UserId, firstName: string, lastName: string, email: string, hasToken: bool)

  /** CreateUserSerializer.is_valid, then save (serializers.py:55-75): invalid data is a
      400 with the field messages and writes nothing; valid data goes to create_user,
      whose insert can still fail on the address unique constraint. */
  method CreateAccount(db: Database, p: RegistrationPayload, isEmail: string -> bool) returns (r: Result<NewUserOut, ApiError>)
    requires db.Valid()
    modifies db
    ensures db.Valid()
    ensures ValidateRegistration(old(db.users), p, isEmail).Err? ==>
      r == Err(BadRequest(ValidateRegistration(old(db.users), p, isEmail).error)) && unchanged(db)
    ensures ValidateRegistration(old(db.users), p, isEmail).Ok? ==>
      var reg := ValidateRegistration(old(db.users), p, isEmail).value;
      && (EmailTaken(old(db.users), NormalizeEmail(reg.email)) ==> r == Err(IntegrityError) && db.users == old(db.users) && db.tokens == old(db.tokens) && db.profiles == old(db.profiles))
      && (!EmailTaken(old(db.users), NormalizeEmail(reg.email)) ==>
            && r.Ok? && r.value.id !in old(db.users)
            && db.users == old(db.users)[r.value.id := NewUser(reg.email, Some(reg.password), RegistrationFields(reg))]
            && r.value == NewUserOut(r.value.id, reg.firstName.GetOr(""), reg.lastName.GetOr(""), NormalizeEmail(reg.email), true))
    ensures db.categories == old(db.categories) && db.notes == old(db.notes)
  {
    var validated := ValidateRegistration(db.users, p, isEmail);
    if validated.Err? {
      return Err(BadRequest(validated.error));
    }
    var reg := validated.value;
    RegistrationAccepted(db.users, p, isEmail);
    var created := db.CreateUser(reg.email, Some(reg.password), RegistrationFields(reg));
    match created
    case Err(e) =>
      r := Err(e);
    case Ok(id) =>
      var user := db.users[id];
      r := Ok(NewUserOut(id, user.firstName, user.lastName, user.email, id in db.tokens));
  }

  /** The registration endpoint's own response (views.py:57-74): the rendered user with a
      confirmation message, or the serializer's messages. */
  datatype Registered = Registered(user: NewUserOut, message: string)

  method Register(db: Database, p: RegistrationPayload, isEmail: string -> bool) returns (r: Result<Registered, ApiError>)
    requires db.Valid()
    modifies db
    ensures db.Valid()
    ensures ValidateRegistration(old(db.users), p, isEmail).Err? ==>
      r == Err(BadRequest(ValidateRegistration(old(db.users), p, isEmail).error)) && unchanged(db)
    ensures ValidateRegistration(old(db.users), p, isEmail).Ok? ==>
      var reg := ValidateRegistration(old(db.users), p, isEmail).value;
      && (EmailTaken(old(db.users), NormalizeEmail(reg.email)) ==> r == Err(IntegrityError) && db.users == old(db.users) && db.tokens == old(db.tokens) && db.profiles == old(db.profiles))
      && (!EmailTaken(old(db.users), NormalizeEmail(reg.email)) ==>
            && r.Ok? && r.value.message == RegisteredMessage && r.value.user.id !in old(db.users)
            && db.users == old(db.users)[r.value.user.id := NewUser(reg.email, Some(reg.password), RegistrationFields(reg))])
    ensures db.categories == old(db.categories) && db.notes == old(db.notes)
  {
    var created := CreateAccount(db, p, isEmail);
    match created
    case Err(e) =>
      r := Err(e);
    case Ok(u) =>
      r := Ok(Registered(u, RegisteredMessage));
  }

  /** The uniqueness check compares the submitted address as typed, but the stored one
      has its domain lower-cased: an address that differs from a stored one only in the
      case of its domain passes validation, and its normalised form is taken, so the
      insert in create_user fails (CreateAccount then answers IntegrityError). */
  lemma DomainCaseSlipsPastValidation(users: map<UserId, User>, p: RegistrationPayload, isEmail: string -> bool,
                                      local: string, domain: string, u: UserId)
    requires local != [] && !IsSpace(local[0]) && domain != [] && !IsSpace(domain[|domain| - 1])
    requires forall i | 0 <= i < |domain| :: domain[i] != '@'
    requires p.email == Some(local + "@" + domain) && '\0' !in local + "@" + domain
    requires isEmail(local + "@" + domain) && !EmailTaken(users, local + "@" + domain)
    requires PasswordInput(p).Value? && !PersonNameInput(p.firstName).Invalid? && !PersonNameInput(p.lastName).Invalid?
    requires u in users && users[u].email == local + "@" + AsciiLower(domain)
    ensures ValidateRegistration(users, p, isEmail).Ok?
    ensures EmailTaken(users, NormalizeEmail(ValidateRegistration(users, p, isEmail).value.email))
  {
    var typed := local + "@" + domain;
    assert typed[0] == local[0] && typed[|typed| - 1] == domain[|domain| - 1];
    StripOfTrimmed(typed);
    NormalizeSplitsAtLastAt(local, domain);
  }

  // ---------------------------------------------------------------------------
  // CategoryViewSet

  /** get_queryset (views.py:85-90): the caller's categories and the global ones. */
  function VisibleCategories(categories: map<CategoryId, Category>, u: UserId): (r: set<CategoryId>)
    ensures forall id :: id in r <==> id in categories && (categories[id].owner == Some(u) || categories[id].owner.None?)
  {
    set id | id in categories && (categories[id].owner == Some(u) || categories[id].owner.None?)
  }

  /** What CategorySerializer renders; note_count counts every owner's notes in the category. */
  datatype CategoryOut = CategoryOut(id: CategoryId, user: Option<UserId>, name: string, color: string, noteCount: nat)

  function CategoryRepresentation(categories: map<CategoryId, Category>, notes: NoteTable, id: CategoryId): (r: CategoryOut)
    requires id in categories
    ensures r.id == id && r.user == categories[id].owner && r.noteCount == NoteCount(notes, id)
    ensures r.name == categories[id].name && r.color == categories[id].color
  {
    var c := categories[id];
    CategoryOut(id, c.owner, c.name, c.color, NoteCount(notes, id))
  }

  /** Category.Meta.ordering = ['name']. */
  predicate ByName(a: CategoryOut, b: CategoryOut) {
    LexLe(a.name, b.name)
  }

  lemma ByNameIsPreorder()
    ensures TotalPreorder(ByName)
  {
    forall a: CategoryOut, b: CategoryOut
      ensures ByName(a, b) || ByName(b, a)
    {
      LexLeTotal(a.name, b.name);
    }
    forall a: CategoryOut, b: CategoryOut, c: CategoryOut | ByName(a, b) && ByName(b, c)
      ensures ByName(a, c)
    {
      LexLeTransitive(a.name, b.name, c.name);
    }
  }

  function Representations(categories: map<CategoryId, Category>, notes: NoteTable, ids: seq<CategoryId>): (r: seq<CategoryOut>)
    requires forall i | 0 <= i < |ids| :: ids[i] in categories
    ensures |r| == |ids|
    ensures forall i | 0 <= i < |ids| :: r[i] == CategoryRepresentation(categories, notes, ids[i])
  {
    if ids == [] then [] else [CategoryRepresentation(categories, notes, ids[0])] + Representations(categories, notes, ids[1..])
  }

  /** The list action: IsAuthenticated first (403), then every visible category, by name,
      unpaginated (pagination_class = None). */
  function ListCategories(categories: map<CategoryId, Category>, notes: NoteTable, caller: Option<UserId>): (r: Result<seq<CategoryOut>, ApiError>)
    ensures caller.None? <==> r == Err(Forbidden)
  {
    match caller
    case None => Err(Forbidden)
    case Some(u) => Ok(SortBy(Representations(categories, notes, SortedKeys(VisibleCategories(categories, u))), ByName))
  }

  /** The list holds exactly the visible categories, each as it is stored and with its
      note count, ordered by name. */
  lemma ListCategoriesContents(categories: map<CategoryId, Category>, notes: NoteTable, u: UserId)
    ensures ListCategories(categories, notes, Some(u)).Ok?
    ensures var rows := ListCategories(categories, notes, Some(u)).value;
      && SortedBy(rows, ByName) && Distinct(rows)
      && (forall row | row in rows :: row.id in VisibleCategories(categories, u)
                                    && row == CategoryRepresentation(categories, notes, row.id))
      && (forall id | id in VisibleCategories(categories, u) :: CategoryRepresentation(categories, notes, id) in rows)
  {
    var ids := SortedKeys(VisibleCategories(categories, u));
    var reps := Representations(categories, notes, ids);
    ByNameIsPreorder();
    SortBySorted(reps, ByName);
    assert Distinct(reps) by {
      forall i, j | 0 <= i < j < |reps| ensures reps[i] != reps[j] {
        assert reps[i].id == ids[i] && reps[j].id == ids[j];
      }
    }
    SortByDistinct(reps, ByName);
    RepresentationsExact(categories, notes, VisibleCategories(categories, u), ids);
    forall row ensures row in SortBy(reps, ByName) <==> row in reps {
      SortBySameElements(reps, ByName, row);
    }
  }

  /** Representing the ids of a set of categories yields exactly their representations. */
  lemma RepresentationsExact(categories: map<CategoryId, Category>, notes: NoteTable, s: set<CategoryId>, ids: seq<CategoryId>)
    requires forall id | id in s :: id in categories
    requires forall i | 0 <= i < |ids| :: ids[i] in s
    requires forall id | id in s :: id in ids
    ensures forall i | 0 <= i < |ids| :: ids[i] in categories
    ensures var reps := Representations(categories, notes, ids);
      && (forall row | row in reps :: row.id in s && row == CategoryRepresentation(categories, notes, row.id))
      && (forall id | id in s :: CategoryRepresentation(categories, notes, id) in reps)
  {
    var reps := Representations(categories, notes, ids);
    forall id | id in s
      ensures CategoryRepresentation(categories, notes, id) in reps
    {
      var i :| 0 <= i < |ids| && ids[i] == id;
      assert reps[i] == CategoryRepresentation(categories, notes, id);
    }
  }

  /** The retrieve action: 403 for an anonymous caller, 404 for a category outside the
      caller's visible set (another user's category included). */
  function RetrieveCategory(categories: map<CategoryId, Category>, notes: NoteTable,
                            caller: Option<UserId>, id: CategoryId): (r: Result<CategoryOut, ApiError>)
    ensures caller.None? <==> r == Err(Forbidden)
    ensures caller.Some? ==> (r == Err(NotFound) <==> id !in VisibleCategories(categories, caller.value))
    ensures r.Ok? ==> r == Ok(CategoryRepresentation(categories, notes, id))
  {
    match caller
    case None => Err(Forbidden)
    case Some(u) =>
      if id !in VisibleCategories(categories, u) then Err(NotFound)
      else Ok(CategoryRepresentation(categories, notes, id))
  }

  /** A category just created has no notes. */
  lemma NewCategoryHasNoNotes(notes: NoteTable, categories: set<CategoryId>, users: set<UserId>, id: CategoryId)
    requires NotesReferToExisting(notes, users, categories) && id !in categories
    ensures NoteCount(notes, id) == 0
  {
    forall n | n in notes
      ensures notes[n].category != Some(id)
    {
      assert notes[n].category.Some? ==> notes[n].category.value in categories;
    }
    assert NotesInCategory(notes, id) == {};
  }

  /** The create action: 403 for an anonymous caller, 400 for an invalid payload, else the
      trimmed name and colour stored under a fresh id with the caller as owner
      (perform_create, views.py:92-94); the model validation of Category.save cannot fail
      after the serializer accepted the payload. */
  method CreateCategory(db: Database, caller: Option<UserId>, p: CategoryPayload) returns (r: Result<CategoryOut, ApiError>)
    requires db.Valid()
    requires caller.Some? ==> caller.value in db.users
    modifies db
    ensures db.Valid()
    ensures caller.None? ==> r == Err(Forbidden) && unchanged(db)
    ensures caller.Some? && ValidateCategoryPayload(p, false).Err? ==>
      r == Err(BadRequest(ValidateCategoryPayload(p, false).error)) && unchanged(db)
    ensures caller.Some? && ValidateCategoryPayload(p, false).Ok? ==>
      && r.Ok? && r.value.id !in old(db.categories)
      && db.categories == old(db.categories)[r.value.id := Category(caller, Strip(p.name.value), Strip(p.color.value))]
      && r.value == CategoryOut(r.value.id, caller, Strip(p.name.value), Strip(p.color.value), 0)
    ensures db.users == old(db.users) && db.notes == old(db.notes)
  {
    if caller.None? {
      return Err(Forbidden);
    }
    var validated := ValidateCategoryPayload(p, false);
    if validated.Err? {
      return Err(BadRequest(validated.error));
    }
    CategoryNameAccepted(p.name, false);
    CategoryColorAccepted(p.color, false);
    var blank := Category(caller, "", "");
    ValidPayloadIsClean(blank, p, false);
    var c := Merge(blank, validated.value);
    ghost var keys := db.categories.Keys;
    assert NotesReferToExisting(db.notes, db.users.Keys, keys);
    var saved := db.InsertCategory(c);
    match saved
    case Err(_) =>
      assert false;
    case Ok(id) =>
      NewCategoryHasNoNotes(db.notes, keys, db.users.Keys, id);
      r := Ok(CategoryRepresentation(db.categories, db.notes, id));
  }

  /** The update and partial_update actions: 403, then 404 outside the visible set, then
      400; the submitted fields replace the stored ones, the owner stays, and a global
      category can be rewritten by any authenticated user. */
  method UpdateCategory(db: Database, caller: Option<UserId>, id: CategoryId, p: CategoryPayload, partial: bool)
    returns (r: Result<CategoryOut, ApiError>)
    requires db.Valid()
    modifies db
    ensures db.Valid()
    ensures caller.None? ==> r == Err(Forbidden) && unchanged(db)
    ensures caller.Some? && id !in VisibleCategories(old(db.categories), caller.value) ==> r == Err(NotFound) && unchanged(db)
    ensures caller.Some? && id in VisibleCategories(old(db.categories), caller.value) && ValidateCategoryPayload(p, partial).Err? ==>
      r == Err(BadRequest(ValidateCategoryPayload(p, partial).error)) && unchanged(db)
    ensures caller.Some? && id in VisibleCategories(old(db.categories), caller.value) && ValidateCategoryPayload(p, partial).Ok? ==>
      var c := Merge(old(db.categories)[id], ValidateCategoryPayload(p, partial).value);
      && db.categories == old(db.categories)[id := c]
      && c.owner == old(db.categories)[id].owner
      && r == Ok(CategoryRepresentation(db.categories, db.notes, id))
    ensures db.users == old(db.users) && db.notes == old(db.notes)
  {
    if caller.None? {
      return Err(Forbidden);
    }
    if id !in VisibleCategories(db.categories, caller.value) {
      return Err(NotFound);
    }
    var validated := ValidateCategoryPayload(p, partial);
    if validated.Err? {
      return Err(BadRequest(validated.error));
    }
    var existing := db.categories[id];
    assert IsCleanCategory(existing) && (existing.owner.Some? ==> existing.owner.value in db.users);
    ValidPayloadIsClean(existing, p, partial);
    var c := Merge(existing, validated.value);
    var saved := db.UpdateCategory(id, c);
    match saved
    case Err(_) =>
      assert false;
    case Ok(_) =>
      r := Ok(CategoryRepresentation(db.categories, db.notes, id));
  }

  /** The destroy action: 403, then 404 outside the visible set; otherwise the category
      goes and the notes filed under it, whoever owns them, lose their category. */
  method DestroyCategory(db: Database, caller: Option<UserId>, id: CategoryId) returns (r: Result<(), ApiError>)
    requires db.Valid()
    modifies db
    ensures db.Valid()
    ensures caller.None? ==> r == Err(Forbidden) && unchanged(db)
    ensures caller.Some? && id !in VisibleCategories(old(db.categories), caller.value) ==> r == Err(NotFound) && unchanged(db)
    ensures caller.Some? && id in VisibleCategories(old(db.categories), caller.value) ==>
      && r == Ok(())
      && db.categories == old(db.categories) - {id}
      && db.notes == SetNullCategories(old(db.notes), {id})
    ensures db.users == old(db.users)
  {
    if caller.None? {
      return Err(Forbidden);
    }
    if id !in VisibleCategories(db.categories, caller.value) {
      return Err(NotFound);
    }
    db.DeleteCategories({id});
    r := Ok(());
  }
}
