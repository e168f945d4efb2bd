/** The database the backend works on: the user, token, profile, category and
    note tables, and the model-level operations that write them (the user
    manager, the post_save signal, Category.save, the on_delete rules and the
    timestamps a note save refreshes). Primary keys come from counters and
    timestamps from a logical clock that ticks on every note save. */
module Store {
  import opened Common
  import opened UsersModels
  import opened NotesModels

  /** A user's profile row; the avatar image itself is not modelled. */
  datatype Profile = Profile(avatar: Option<string>)

  const EmailRequiredMessage := "The Email field must be set"

  /** Some user already holds this address. */
  predicate EmailTaken(users: map<UserId, User>, email: string) {
    exists u | u in users :: users[u].email == email
  }

  lemma EmailTakenBy(users: map<UserId, User>, u: UserId, email: string)
    requires u in users && users[u].email == email
    ensures EmailTaken(users, email)
  {
  }

  /** Unique addresses, and every user's username is their address, as create_user sets it. */
  predicate UsersConsistent(users: map<UserId, User>) {
    && (forall u | u in users :: users[u].username == users[u].email)
    && (forall a, b | a in users && b in users && users[a].email == users[b].email :: a == b)
  }

  /** Every stored category passed full_clean. */
  predicate CategoriesClean(categories: map<CategoryId, Category>) {
    forall c | c in categories :: IsCleanCategory(categories[c])
  }

  /** Every category's owner, if any, is a user. */
  predicate OwnersExist(categories: map<CategoryId, Category>, users: set<UserId>) {
    forall c | c in categories :: categories[c].owner.Some? ==> categories[c].owner.value in users
  }

  predicate KeysBelow(keys: set<int>, next: int) {
    forall k | k in keys :: k < next
  }

  /** The user table with its token and profile tables: unique addresses, usernames
      equal to addresses, exactly one token and one profile per user, keys below the counter. */
  predicate UserTablesOk(users: map<UserId, User>, tokens: set<UserId>, profiles: map<UserId, Profile>, nextUserId: int) {
    && UsersConsistent(users)
    && tokens == users.Keys
    && profiles.Keys == users.Keys
    && KeysBelow(users.Keys, nextUserId)
  }

  /** The category table: every row passed full_clean, owners exist, keys below the counter. */
  predicate CategoryTableOk(categories: map<CategoryId, Category>, userIds: set<UserId>, nextCategoryId: int) {
    && CategoriesClean(categories)
    && OwnersExist(categories, userIds)
    && KeysBelow(categories.Keys, nextCategoryId)
  }

  /** The note table: valid foreign keys, stamps behind the clock, keys below the counter. */
  predicate NoteTableOk(notes: NoteTable, userIds: set<UserId>, categoryIds: set<CategoryId>, clock: nat, nextNoteId: int) {
    && NotesReferToExisting(notes, userIds, categoryIds)
    && StampsConsistent(notes, clock)
    && KeysBelow(notes.Keys, nextNoteId)
  }

  // ---------------------------------------------------------------------------
  // Each write keeps the tables it touches consistent

  /** Inserting a user whose address is free, with its token and profile. */
  lemma UserInsertKeeps(users: map<UserId, User>, tokens: set<UserId>, profiles: map<UserId, Profile>, next: int, user: User)
    requires UserTablesOk(users, tokens, profiles, next)
    requires user.username == user.email && !EmailTaken(users, user.email)
    ensures UserTablesOk(users[next := user], tokens + {next}, profiles[next := Profile(None)], next + 1)
  {
    var r := users[next := user];
    assert next !in users;
    forall a, b | a in r && b in r && r[a].email == r[b].email
      ensures a == b
    {
      if a != next && b != next {
        assert r[a] == users[a] && r[b] == users[b];
      }
    }
  }

  /** Renaming a user touches no constraint. */
  lemma UserRenameKeeps(users: map<UserId, User>, tokens: set<UserId>, profiles: map<UserId, Profile>, next: int,
                        u: UserId, firstName: string, lastName: string)
    requires UserTablesOk(users, tokens, profiles, next) && u in users
    ensures UserTablesOk(users[u := users[u].(firstName := firstName, lastName := lastName)], tokens, profiles, next)
  {
    var r := users[u := users[u].(firstName := firstName, lastName := lastName)];
    assert r.Keys == users.Keys;
    forall a, b | a in r && b in r && r[a].email == r[b].email
      ensures a == b
    {
      assert users[a].email == r[a].email && users[b].email == r[b].email;
    }
  }

  /** Deleting a user row with its token and profile. */
  lemma UserDeleteKeeps(users: map<UserId, User>, tokens: set<UserId>, profiles: map<UserId, Profile>, next: int, u: UserId)
    requires UserTablesOk(users, tokens, profiles, next)
    ensures UserTablesOk(users - {u}, tokens - {u}, profiles - {u}, next)
  {
    var r := users - {u};
    forall a, b | a in r && b in r && r[a].email == r[b].email
      ensures a == b
    {
      assert r[a] == users[a] && r[b] == users[b];
    }
  }

  /** A new user invalidates no category owner. */
  lemma CategoriesGainUser(categories: map<CategoryId, Category>, userIds: set<UserId>, next: int, u: UserId)
    requires CategoryTableOk(categories, userIds, next)
    ensures CategoryTableOk(categories, userIds + {u}, next)
  {
  }

  /** Writing a clean category whose owner exists, under a key below the counter. */
  lemma CategoryWriteKeeps(categories: map<CategoryId, Category>, userIds: set<UserId>, next: int,
                           id: CategoryId, c: Category, next': int)
    requires CategoryTableOk(categories, userIds, next)
    requires IsCleanCategory(c) && (c.owner.Some? ==> c.owner.value in userIds)
    requires id < next' && next <= next'
    ensures CategoryTableOk(categories[id := c], userIds, next')
  {
  }

  /** Deleting categories. */
  lemma CategoriesDeleteKeeps(categories: map<CategoryId, Category>, userIds: set<UserId>, next: int, ids: set<CategoryId>)
    requires CategoryTableOk(categories, userIds, next)
    ensures CategoryTableOk(categories - ids, userIds, next)
  {
  }

  /** Deleting a user's categories leaves no category owned by the user. */
  lemma CategoriesLoseUser(categories: map<CategoryId, Category>, userIds: set<UserId>, next: int, u: UserId)
    requires CategoryTableOk(categories, userIds, next)
    requires forall c | c in categories :: categories[c].owner != Some(u)
    ensures CategoryTableOk(categories, userIds - {u}, next)
  {
  }

  /** A new user invalidates no note. */
  lemma NotesGainUser(notes: NoteTable, userIds: set<UserId>, categoryIds: set<CategoryId>, clock: nat, next: int, u: UserId)
    requires NoteTableOk(notes, userIds, categoryIds, clock, next)
    ensures NoteTableOk(notes, userIds + {u}, categoryIds, clock, next)
  {
  }

  /** A new category invalidates no note. */
  lemma NotesGainCategory(notes: NoteTable, userIds: set<UserId>, categoryIds: set<CategoryId>, clock: nat, next: int, c: CategoryId)
    requires NoteTableOk(notes, userIds, categoryIds, clock, next)
    ensures NoteTableOk(notes, userIds, categoryIds + {c}, clock, next)
  {
  }

  /** Writing a note stamped with the current tick, then ticking. */
  lemma NoteWriteKeeps(notes: NoteTable, userIds: set<UserId>, categoryIds: set<CategoryId>, clock: nat, next: int,
                       id: NoteId, note: Note, next': int)
    requires NoteTableOk(notes, userIds, categoryIds, clock, next)
    requires note.owner in userIds && (note.category.Some? ==> note.category.value in categoryIds)
    requires note.createdAt <= note.updatedAt == clock
    requires id < next' && next <= next'
    ensures NoteTableOk(notes[id := note], userIds, categoryIds, clock + 1, next')
  {
    StampsAfterWrite(notes, clock, id, note);
    ReferencesAfterWrite(notes, userIds, categoryIds, id, note);
  }

  lemma NoteDeleteKeeps(notes: NoteTable, userIds: set<UserId>, categoryIds: set<CategoryId>, clock: nat, next: int, id: NoteId)
    requires NoteTableOk(notes, userIds, categoryIds, clock, next)
    ensures NoteTableOk(notes - {id}, userIds, categoryIds, clock, next)
  {
    StampsKept(notes, notes - {id}, clock);
  }

  /** SET_NULL on deleted categories keeps the notes consistent with the remaining categories. */
  lemma NotesLoseCategories(notes: NoteTable, userIds: set<UserId>, categoryIds: set<CategoryId>, clock: nat, next: int,
                            ids: set<CategoryId>)
    requires NoteTableOk(notes, userIds, categoryIds, clock, next)
    ensures NoteTableOk(SetNullCategories(notes, ids), userIds, categoryIds - ids, clock, next)
  {
    var r := SetNullCategories(notes, ids);
    StampsKept(notes, r, clock);
    forall n | n in r
      ensures r[n].owner in userIds
      ensures r[n].category.Some? ==> r[n].category.value in categoryIds - ids
    {
    }
  }

  /** CASCADE of a user's notes leaves notes that refer to other users only. */
  lemma NotesLoseUser(notes: NoteTable, userIds: set<UserId>, categoryIds: set<CategoryId>, clock: nat, next: int, u: UserId)
    requires NoteTableOk(notes, userIds, categoryIds, clock, next)
    ensures NoteTableOk(DeleteOwnedBy(notes, u), userIds - {u}, categoryIds, clock, next)
  {
    StampsKept(notes, DeleteOwnedBy(notes, u), clock);
  }

  /** A user no note refers to can go. */
  lemma NotesDropUser(notes: NoteTable, userIds: set<UserId>, categoryIds: set<CategoryId>, clock: nat, next: int, u: UserId)
    requires NoteTableOk(notes, userIds, categoryIds, clock, next)
    requires forall n | n in notes :: notes[n].owner != u
    ensures NoteTableOk(notes, userIds - {u}, categoryIds, clock, next)
  {
  }

  /** The categories a user owns. */
  function OwnedCategories(categories: map<CategoryId, Category>, u: UserId): (r: set<CategoryId>)
    ensures forall c :: c in r <==> c in categories && categories[c].owner == Some(u)
  {
    set c | c in categories && categories[c].owner == Some(u)
  }

  // ---------------------------------------------------------------------------
  // The database object

  class Database {
    var users: map<UserId, User>
    var tokens: set<UserId>
    var profiles: map<UserId, Profile>
    var categories: map<CategoryId, Category>
    var notes: NoteTable
    var clock: nat
    var nextUserId: int
    var nextCategoryId: int
    var nextNoteId: int

    ghost predicate Valid()
      reads this
    {
      && UserTablesOk(users, tokens, profiles, nextUserId)
      && CategoryTableOk(categories, users.Keys, nextCategoryId)
      && NoteTableOk(notes, users.Keys, categories.Keys, clock, nextNoteId)
    }

    constructor ()
      ensures Valid()
      ensures users == map[] && tokens == {} && profiles == map[] && categories == map[] && notes == map[]
    {
      users, tokens, profiles := map[], {}, map[];
      categories, notes := map[], map[];
      clock, nextUserId, nextCategoryId, nextNoteId := 0, 0, 0, 0;
    }

    /** The post_save receiver for a user (users/models.py:114-123): on creation,
        get_or_create a token and a profile, so repeating it adds nothing; on a later
        save (created is false) it does nothing. */
    method UserSaved(u: UserId, created: bool)
      modifies this
      ensures created ==> tokens == old(tokens) + {u}
      ensures created ==> profiles == if u in old(profiles) then old(profiles) else old(profiles)[u := Profile(None)]
      ensures !created ==> tokens == old(tokens) && profiles == old(profiles)
      ensures users == old(users) && categories == old(categories) && notes == old(notes) && clock == old(clock)
      ensures nextUserId == old(nextUserId) && nextCategoryId == old(nextCategoryId) && nextNoteId == old(nextNoteId)
    {
      if created {
        tokens := tokens + {u};
        if u !in profiles {
          profiles := profiles[u := Profile(None)];
        }
      }
    }

    /** UserManager.create_user (users/models.py:21-32): an empty address raises
        ValueError; otherwise the user built by NewUser is inserted, which fails with an
        integrity error when its normalised address (and so its username) is taken;
        the signal then provisions exactly one token and one profile. */
    method CreateUser(email: string, password: Option<string>, extra: UserFields) returns (r: Result<UserId, ApiError>)
      requires Valid()
      modifies this
      ensures Valid()
      ensures email == [] ==> r == Err(ValueError(EmailRequiredMessage))
      ensures email != [] && EmailTaken(old(users), NormalizeEmail(email)) ==> r == Err(IntegrityError)
      ensures email != [] && !EmailTaken(old(users), NormalizeEmail(email)) ==>
        && r.Ok? && r.value !in old(users)
        && users == old(users)[r.value := NewUser(email, password, extra)]
        && tokens == old(tokens) + {r.value}
        && profiles == old(profiles)[r.value := Profile(None)]
      ensures r.Err? ==> users == old(users) && tokens == old(tokens) && profiles == old(profiles)
      ensures categories == old(categories) && notes == old(notes) && clock == old(clock)
    {
      if email == [] {
        return Err(ValueError(EmailRequiredMessage));
      }
      var user := NewUser(email, password, extra);
      if EmailTaken(users, user.email) {
        return Err(IntegrityError);
      }
      var id := nextUserId;
      UserInsertKeeps(users, tokens, profiles, id, user);
      CategoriesGainUser(categories, users.Keys, nextCategoryId, id);
      NotesGainUser(notes, users.Keys, categories.Keys, clock, nextNoteId, id);
      users, nextUserId := users[id := user], nextUserId + 1;
      UserSaved(id, true);
      r := Ok(id);
    }

    /** UserManager.create_superuser (users/models.py:34-41): create_user with staff
        and superuser flags defaulting to true. */
    method CreateSuperuser(email: string, password: Option<string>, extra: UserFields) returns (r: Result<UserId, ApiError>)
      requires Valid()
      modifies this
      ensures Valid()
      ensures email == [] ==> r == Err(ValueError(EmailRequiredMessage))
      ensures email != [] && EmailTaken(old(users), NormalizeEmail(email)) ==> r == Err(IntegrityError)
      ensures email != [] && !EmailTaken(old(users), NormalizeEmail(email)) ==>
        && r.Ok? && r.value !in old(users)
        && users == old(users)[r.value := NewUser(email, password, SuperuserFields(extra))]
        && tokens == old(tokens) + {r.value}
        && profiles == old(profiles)[r.value := Profile(None)]
      ensures r.Err? ==> users == old(users) && tokens == old(tokens) && profiles == old(profiles)
      ensures categories == old(categories) && notes == old(notes) && clock == old(clock)
    {
      r := CreateUser(email, password, SuperuserFields(extra));
    }

    /** Saving an existing user after an update of its names: the signal sees
        created = false and adds nothing. */
    method SaveUserNames(u: UserId, firstName: string, lastName: string)
      requires Valid() && u in users
      modifies this
      ensures Valid()
      ensures users == old(users)[u := old(users)[u].(firstName := firstName, lastName := lastName)]
      ensures tokens == old(tokens) && profiles == old(profiles)
      ensures categories == old(categories) && notes == old(notes) && clock == old(clock)
    {
      UserRenameKeeps(users, tokens, profiles, nextUserId, u, firstName, lastName);
      users := users[u := users[u].(firstName := firstName, lastName := lastName)];
      UserSaved(u, false);
    }

    /** Category.save for a new row (users/models.py:102-104): full_clean first; a
        failure raises and stores nothing, success inserts the cleaned category. */
    method InsertCategory(c: Category) returns (r: Result<CategoryId, ErrorDict>)
      requires Valid()
      requires c.owner.Some? ==> c.owner.value in users
      modifies this
      ensures Valid()
      ensures FullClean(c).Err? ==> r == Err(FullClean(c).error) && categories == old(categories)
      ensures FullClean(c).Ok? ==>
        && r.Ok? && r.value !in old(categories)
        && categories == old(categories)[r.value := FullClean(c).value]
      ensures users == old(users) && tokens == old(tokens) && profiles == old(profiles)
      ensures notes == old(notes) && clock == old(clock)
    {
      var cleaned := FullClean(c);
      if cleaned.Err? {
        r := Err(cleaned.error);
      } else {
        FullCleanIsClean(c);
        var id := nextCategoryId;
        WriteCategory(id, cleaned.value, id + 1);
        r := Ok(id);
      }
    }

    /** Category.save for an existing row: the same full_clean, then an update in place. */
    method UpdateCategory(id: CategoryId, c: Category) returns (r: Result<CategoryId, ErrorDict>)
      requires Valid() && id in categories
      requires c.owner.Some? ==> c.owner.value in users
      modifies this
      ensures Valid()
      ensures FullClean(c).Err? ==> r == Err(FullClean(c).error) && categories == old(categories)
      ensures FullClean(c).Ok? ==> r == Ok(id) && categories == old(categories)[id := FullClean(c).value]
      ensures users == old(users) && tokens == old(tokens) && profiles == old(profiles)
      ensures notes == old(notes) && clock == old(clock)
    {
      var cleaned := FullClean(c);
      if cleaned.Err? {
        r := Err(cleaned.error);
      } else {
        FullCleanIsClean(c);
        WriteCategory(id, cleaned.value, nextCategoryId);
        r := Ok(id);
      }
    }

    /** Stores a clean category under a key below the (possibly advanced) counter. */
    method WriteCategory(id: CategoryId, c: Category, next: int)
      requires Valid() && IsCleanCategory(c) && (c.owner.Some? ==> c.owner.value in users)
      requires id < next && nextCategoryId <= next
      modifies this
      ensures Valid()
      ensures categories == old(categories)[id := c] && nextCategoryId == next
      ensures users == old(users) && tokens == old(tokens) && profiles == old(profiles)
      ensures notes == old(notes) && clock == old(clock) && nextUserId == old(nextUserId) && nextNoteId == old(nextNoteId)
    {
      CategoryWriteKeeps(categories, users.Keys, nextCategoryId, id, c, next);
      NotesGainCategory(notes, users.Keys, categories.Keys, clock, nextNoteId, id);
      assert categories.Keys + {id} == categories[id := c].Keys;
      categories, nextCategoryId := categories[id := c], next;
    }

    /** Deleting categories: the notes that referenced them lose their category
        (SET_NULL) and survive. */
    method DeleteCategories(ids: set<CategoryId>)
      requires Valid() && ids <= categories.Keys
      modifies this
      ensures Valid()
      ensures categories == old(categories) - ids
      ensures notes == SetNullCategories(old(notes), ids)
      ensures users == old(users) && tokens == old(tokens) && profiles == old(profiles) && clock == old(clock)
    {
      CategoriesDeleteKeeps(categories, users.Keys, nextCategoryId, ids);
      NotesLoseCategories(notes, users.Keys, categories.Keys, clock, nextNoteId, ids);
      notes, categories := SetNullCategories(notes, ids), categories - ids;
    }

    /** Note.objects.create (notes/models.py:5-20): both timestamps take the current tick. */
    method InsertNote(owner: UserId, title: string, content: string, category: Option<CategoryId>) returns (id: NoteId)
      requires Valid() && owner in users
      requires category.Some? ==> category.value in categories
      modifies this
      ensures Valid()
      ensures id !in old(notes)
      ensures notes == old(notes)[id := Note(owner, title, content, category, old(clock), old(clock))]
      ensures clock == old(clock) + 1
      ensures users == old(users) && tokens == old(tokens) && profiles == old(profiles) && categories == old(categories)
    {
      id := nextNoteId;
      var note := Note(owner, title, content, category, clock, clock);
      NoteWriteKeeps(notes, users.Keys, categories.Keys, clock, id, id, note, id + 1);
      notes, nextNoteId, clock := notes[id := note], id + 1, clock + 1;
    }

    /** Note.save on an existing row: owner and created_at stay, updated_at takes the current tick. */
    method SaveNote(id: NoteId, title: string, content: string, category: Option<CategoryId>)
      requires Valid() && id in notes
      requires category.Some? ==> category.value in categories
      modifies this
      ensures Valid()
      ensures notes == old(notes)[id := old(notes)[id].(title := title, content := content, category := category, updatedAt := old(clock))]
      ensures clock == old(clock) + 1
      ensures users == old(users) && tokens == old(tokens) && profiles == old(profiles) && categories == old(categories)
    {
      var note := notes[id].(title := title, content := content, category := category, updatedAt := clock);
      NoteWriteKeeps(notes, users.Keys, categories.Keys, clock, nextNoteId, id, note, nextNoteId);
      notes, clock := notes[id := note], clock + 1;
    }

    method DeleteNote(id: NoteId)
      requires Valid() && id in notes
      modifies this
      ensures Valid()
      ensures notes == old(notes) - {id}
      ensures users == old(users) && tokens == old(tokens) && profiles == old(profiles)
      ensures categories == old(categories) && clock == old(clock)
    {
      NoteDeleteKeeps(notes, users.Keys, categories.Keys, clock, nextNoteId, id);
      notes := notes - {id};
    }

    /** Deleting a user, in the order the deletion collector runs: the user's notes
        (CASCADE), then the user's categories (CASCADE) with SET_NULL on the notes of
        other users filed under them, then the user row with its token and profile. */
    method DeleteUser(u: UserId)
      requires Valid() && u in users
      modifies this
      ensures Valid()
      ensures users == old(users) - {u} && tokens == old(tokens) - {u} && profiles == old(profiles) - {u}
      ensures categories == old(categories) - OwnedCategories(old(categories), u)
      ensures notes == SetNullCategories(DeleteOwnedBy(old(notes), u), OwnedCategories(old(categories), u))
      ensures clock == old(clock)
    {
      DeleteNotesOwnedBy(u);
      DeleteCategories(OwnedCategories(categories, u));
      DeleteUserRow(u);
    }

    /** The CASCADE of a user's notes. */
    method DeleteNotesOwnedBy(u: UserId)
      requires Valid()
      modifies this
      ensures Valid()
      ensures notes == DeleteOwnedBy(old(notes), u)
      ensures users == old(users) && tokens == old(tokens) && profiles == old(profiles)
      ensures categories == old(categories) && clock == old(clock)
    {
      NotesLoseUser(notes, users.Keys, categories.Keys, clock, nextNoteId, u);
      NotesGainUser(DeleteOwnedBy(notes, u), users.Keys - {u}, categories.Keys, clock, nextNoteId, u);
      assert users.Keys - {u} + {u} == users.Keys + {u};
      notes := DeleteOwnedBy(notes, u);
    }

    /** Deleting the user row with its token and profile, once no note and no category refers to it. */
    method DeleteUserRow(u: UserId)
      requires Valid()
      requires forall n | n in notes :: notes[n].owner != u
      requires forall c | c in categories :: categories[c].owner != Some(u)
      modifies this
      ensures Valid()
      ensures users == old(users) - {u} && tokens == old(tokens) - {u} && profiles == old(profiles) - {u}
      ensures categories == old(categories) && notes == old(notes) && clock == old(clock)
    {
      CategoriesLoseUser(categories, users.Keys, nextCategoryId, u);
      NotesDropUser(notes, users.Keys, categories.Keys, clock, nextNoteId, u);
      UserDeleteKeeps(users, tokens, profiles, nextUserId, u);
      users, tokens, profiles := users - {u}, tokens - {u}, profiles - {u};
    }
  }
}
