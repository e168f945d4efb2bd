# Notes backend: data and access-control model

This project models the data and access-control core of a multi-tenant notes backend. The backend is written with Django and the REST framework. The model covers:

- three tables and their satellites: users (with one auth token and one profile each), categories and notes;
- the model-level rules that guard them: the hex-colour validator, `Category.clean`/`save`, the user manager, the post-save signal, and the `CASCADE`/`SET_NULL` delete rules;
- the serializers that turn request payloads into validated data;
- the view sets that combine authentication, visibility and ownership;
- the `create_init_objects` management command.

Layout, one module per file:

| file | module | models |
|---|---|---|
| `common.dfy` | `Common` | `Option`, `Result`, API errors, Python's `str.strip`, ASCII lower-casing, `str()` of an id |
| `ordering.dfy` | `Ordering` | the sort standing for `ordering`/`order_by` (ties in ascending id order), code-point string order, ascending keys |
| `validators.dfy` | `Validators` | `validate_hex_color`, including Python's `$` before a final newline |
| `permissions.dfy` | `Permissions` | `IsUserOrReadOnly`, `IsOwnerOrReadOnly`, safe methods |
| `fields.dfy` | `SerializerFields` | how a REST-framework `CharField` trims, refuses blanks and runs validators |
| `users_models.dfy` | `UsersModels` | `normalize_email`, what `create_user`/`create_superuser` build, `Category.clean` and `full_clean` |
| `notes_models.dfy` | `NotesModels` | notes, their defaults, `SET_NULL`/`CASCADE`, `note_count`, `-updated_at` ordering |
| `store.dfy` | `Store` | class `Database`, the tables as fields, with the model-level writes as methods keeping one invariant `Valid()` |
| `users_serializers.dfy` | `UsersSerializers` | registration, user-update and category payload validation |
| `users_views.dfy` | `UsersViews` | user view set, `me`, registration, category view set |
| `notes_serializers.dfy` | `NotesSerializers` | `NoteSerializer` validation, `create` and `update` |
| `notes_views.dfy` | `NotesViews` | `NoteViewSet`: filtered and ordered list, page-number pagination, detail actions |
| `init_objects.dfy` | `InitObjects` | the provisioning command, as written and as intended |

Read-only actions are functions of the tables. Writes are methods on the `Database` object that state the whole new state of every table they touch.

A caller is `None` for an anonymous request, otherwise `Some(id)` of an existing user. Errors are values:

- `Forbidden` stands for the 403 the REST framework returns when an unauthenticated request fails `IsAuthenticated` under token authentication;
- `NotFound` is 404;
- `BadRequest` carries the field-keyed messages of a 400;
- `IntegrityError`, `ValueError` and `ModelValidation` are the uncaught exceptions (500).

Behaviour of the code that the model keeps, although a reader might expect otherwise:

- **Category owner.** The shown `Category` model declares no owner field. The views, serializers and tests use one, so categories carry a nullable owner.
- **Category updates and deletes.** Another user's category gives NotFound, not Forbidden, because lookup goes through the visible set. Any authenticated user may update or delete a global category, because only `IsAuthenticated` applies.
- **Deleting users.** No endpoint deletes a user. The model still has `Database.DeleteUser`, to state the `CASCADE` and `SET_NULL` rules.
- **Note category checks.** These look only at existence (`notes/serializers.py:20`, `notes/views.py:31`), whatever the comment at `notes/views.py:30` says: a note may be filed under, or filtered by, another user's category.
- **`me` without a token.** An anonymous caller gets 200 with `{"id": null}`: the serializer skips the non-required fields the anonymous user lacks.

## Model

| member | source | states |
|---|---|---|
| Validators.ValidateHexColor | backend/api/users/validators.py:10-14 | passes exactly `#` plus 3 or 6 hex digits, optionally followed by one final newline; a failure carries "<value> is not a valid HEX color code" |
| Validators.PatternMatchesExactly | backend/api/users/validators.py:10 | the anchored pattern, with its six-digit branch tried before the three-digit one, accepts exactly that language |
| Validators.SixHexDigitsPass | backend/api/users/validators.py:10 | every `#` plus six hex digits passes, with or without one trailing newline |
| Validators.ThreeHexDigitsPass | backend/api/users/validators.py:10 | every `#` plus three hex digits passes, with or without one trailing newline |
| Validators.OtherDigitCountsFail | backend/api/users/validators.py:10 | any other number of hex digits fails |
| Validators.MissingHashFails | backend/api/users/validators.py:10-14 | a value not starting with `#` fails |
| Validators.NonHexCharacterFails | backend/api/users/validators.py:10-14 | a non-hex character after `#` fails the value, unless it is the single final newline |
| Validators.AcceptedLengths | backend/api/users/validators.py:10 | an accepted value without trailing newline has length 4 or 7, so it fits `Category.color`'s max_length 7 |
| Validators.CaseInsensitive | backend/api/users/validators.py:10 | lower-casing a value never changes the verdict |
| Validators.AcceptedExamples | backend/api/users/validators.py:10 | `#abc`, `#ABC`, `#aabbcc`, `#FF5733` and `#abc\n` pass |
| Validators.RejectedWithoutHash | backend/api/users/validators.py:10-14 | `invalid` raises the validation error |
| Validators.RejectedLetters | backend/api/users/validators.py:10-14 | `zzz` fails |
| Validators.RejectedDigitRuns | backend/api/users/validators.py:10 | `#abcd` and `#aabbcc` with two trailing newlines fail |
| Permissions.IdTextInjective | backend/api/users/permissions.py:14 | `str()` of two ids (an anonymous user's `None` included) are equal iff the ids are |
| Permissions.IsUserOrReadOnly | backend/api/users/permissions.py:9-14 | every safe method is allowed; an unsafe one iff the caller is the object itself |
| Permissions.IsOwnerOrReadOnly | backend/api/users/permissions.py:21-24 | every safe method is allowed; an unsafe one iff the caller is the object's owner |
| Common.Strip | backend/api/users/models.py:98-100 | `str.strip`: drops surrounding whitespace; empty iff the input is all whitespace |
| Common.StripIdempotent | backend/api/users/models.py:100 | stripping a stripped name changes nothing |
| Common.DecimalStringInjective | backend/api/users/permissions.py:14 | distinct ids render to distinct decimal strings |
| SerializerFields.CharInput | backend/api/users/serializers.py:40 | a missing field is required-or-skipped; a blank one is refused unless blanks are allowed; otherwise the trimmed value passes iff all validators pass, and every failing message is reported |
| UsersModels.NormalizeEmail | backend/api/users/models.py:27 | an address without `@` is kept; otherwise the stripped address keeps an `@` and, with ASCII lower-casing, its length |
| UsersModels.NormalizeSplitsAtLastAt | backend/api/users/models.py:27 | a trimmed `local@domain` keeps its local part and lower-cases the ASCII letters of the part after the last `@` |
| UsersModels.NormalizeEmailIdempotent | backend/api/users/models.py:27 | normalising twice is normalising once |
| UsersModels.NormalizeEmailLowersDomain | backend/api/users/models.py:27 | `a@EXAMPLE.com` is stored as `a@example.com` |
| UsersModels.SuperuserFields | backend/api/users/models.py:38-39 | staff and superuser flags default to true; given flags and names are kept |
| UsersModels.CleanName | backend/api/users/models.py:94-100 | an empty or whitespace-only name is refused with "Name cannot be empty or whitespace"; otherwise the result is the trimmed, non-empty name |
| UsersModels.NameStrippedExample | backend/api/users/models.py:100 | `'  Test Category  '` is stored as `'Test Category'` |
| UsersModels.FullClean | backend/api/users/models.py:102-104 | passes iff the name is not blank and has at most 100 characters, and the colour passes the validator and has at most 7; success stores the stripped name; failure keys messages by `name`/`color` |
| UsersModels.FullCleanIsClean | backend/api/users/models.py:102-104 | what full_clean accepts is clean, and a clean category passes unchanged |
| NotesModels.SetNullCategories | backend/api/notes/models.py:13-18 | notes that referenced a deleted category lose it, all notes survive, and nothing else about any note changes |
| NotesModels.DeleteOwnedBy | backend/api/notes/models.py:6-10 | exactly the user's notes are removed; the others are kept as they were |
| NotesModels.ReferencesAfterUserDelete | backend/api/notes/models.py:6-18 | after the user's notes cascade and their categories are nulled, every remaining reference is valid |
| NotesModels.StampsAfterWrite | backend/api/notes/models.py:19-20 | a save stamped with the current tick keeps update stamps distinct and behind the clock |
| NotesModels.ReferencesAfterWrite | backend/api/notes/models.py:6-18 | saving a note whose owner and category exist keeps every note reference valid |
| NotesModels.NotesInCategory | backend/api/users/models.py:106-111 | the notes counted are exactly those filed under the category, whatever their owner |
| NotesModels.NoteCountAcrossOwners | backend/api/users/models.py:106-111 | note_count is the caller's own notes in the category plus other users' notes |
| NotesModels.NoteCountAfterSetNull | backend/api/notes/models.py:13-18 | after SET_NULL a deleted category counts no note and every other category keeps its count |
| NotesModels.NewerFirstIsPreorder | backend/api/notes/models.py:22-23 | `-updated_at` is a total preorder |
| Ordering.SortBySorted | backend/api/users/models.py:89 | the sort used for every `ordering` yields an ordered sequence (and, by its own contract, a permutation) |
| Ordering.SortBy | backend/api/users/models.py:89 | the database ordering returns a permutation of the rows: same multiset, same length |
| Ordering.SortBySameElements | backend/api/users/models.py:89 | a row is in the ordered result iff it is in the input |
| Ordering.SortByDistinct | backend/api/notes/views.py:34 | ordering introduces no duplicate rows |
| Ordering.LexLeTotal | backend/api/users/models.py:89 | code-point string order is total |
| Ordering.LexLeTransitive | backend/api/users/models.py:89 | code-point string order is transitive |
| Ordering.LexLeAntisymmetric | backend/api/users/models.py:89 | code-point string order is antisymmetric |
| Store.UserInsertKeeps | backend/api/users/models.py:21-32 | inserting a user with a free address, plus its token and profile, keeps addresses unique, usernames equal to addresses, and one token and one profile per user |
| Store.Database.UserSaved | backend/api/users/models.py:114-123 | on creation, exactly one token and one profile (get_or_create: repeats add nothing); on later saves nothing |
| Store.Database.CreateUser | backend/api/users/models.py:21-32 | an empty address raises ValueError; a taken normalised address is an integrity error; otherwise a fresh row with the normalised address as username, one token and one profile |
| Store.Database.CreateSuperuser | backend/api/users/models.py:34-41 | create_user with staff and superuser flags defaulting to true |
| Store.Database.SaveUserNames | backend/api/users/models.py:121-123 | a re-save changes the names only and adds no token or profile |
| Store.Database.InsertCategory | backend/api/users/models.py:102-104 | full_clean runs before the insert; failure stores nothing; success stores the cleaned category under a fresh id |
| Store.Database.UpdateCategory | backend/api/users/models.py:102-104 | the same full_clean before an in-place update |
| Store.Database.WriteCategory | backend/api/users/models.py:102-104 | a clean category with an existing owner is stored under its id; no other table changes and every table invariant holds |
| Store.Database.DeleteCategories | backend/api/notes/models.py:13-18 | categories go; notes referencing them lose their category; users untouched |
| Store.Database.InsertNote | backend/api/notes/models.py:19-20 | a fresh note with both stamps at the current tick; the clock ticks |
| Store.Database.SaveNote | backend/api/notes/models.py:19-20 | owner and created_at stay, updated_at takes the current tick |
| Store.Database.DeleteNote | backend/api/notes/models.py:5-20 | only that note is removed |
| Store.OwnedCategories | backend/api/users/views.py:85-88 | exactly the categories whose owner is the user |
| Store.Database.DeleteUser | backend/api/notes/models.py:6-10 | the user's notes cascade, the user's categories go with SET_NULL on other notes, then the user row, token and profile go |
| Store.Database.DeleteNotesOwnedBy | backend/api/notes/models.py:6-10 | exactly the user's notes are removed |
| Store.Database.DeleteUserRow | backend/api/users/models.py:64-68 | the user row goes with its profile and token |
| UsersSerializers.ValidateEmail | backend/api/users/serializers.py:55-67 | format first ("Invalid email format"), then uniqueness of the value as submitted ("Email already exists"); passes iff both hold |
| UsersSerializers.EmailInput | backend/api/users/serializers.py:41 | the email field is never skipped; it accepts iff present, non-blank, well formed, without a null character and not held by any user, and yields the trimmed address |
| UsersSerializers.FormatMessageNeverReported | backend/api/users/serializers.py:59-62 | "Invalid email format" is unreachable: EmailField's own validator runs first |
| UsersSerializers.PasswordInput | backend/api/users/serializers.py:40 | the password is required: it is never skipped |
| UsersSerializers.ValidateRegistration | backend/api/users/serializers.py:36-53 | valid iff password, names and email are; every failing field, and only those, appears in the error map |
| UsersSerializers.RegistrationAccepted | backend/api/users/serializers.py:40-41 | a valid registration carries a trimmed, non-empty, well-formed, unheld address and a trimmed, non-empty password |
| UsersSerializers.EmptyRegistrationErrors | backend/api/users/serializers.py:40-41 | an empty payload yields exactly "required" errors for `password` and `email` |
| UsersSerializers.ExistingEmailRejected | backend/api/users/serializers.py:64-65 | a held address is refused under `email` with "Email already exists" |
| UsersSerializers.MalformedEmailRejected | backend/api/users/serializers.py:41 | a malformed address is refused under `email` |
| UsersSerializers.RegistrationFields | backend/api/users/serializers.py:73 | create passes username equal to the submitted email; omitted names become "" |
| UsersSerializers.ValidateUserUpdate | backend/api/users/serializers.py:26-33 | valid iff both names are; a failing name is keyed by its field |
| UsersSerializers.PersonNameAccepted | backend/api/users/serializers.py:26-33 | an accepted name is the trimmed submitted one, at most 150 characters; an omitted one stays omitted |
| UsersSerializers.ReadOnlyUserFieldsIgnored | backend/api/users/serializers.py:33 | submitting `id` or `email` changes nothing |
| UsersSerializers.ValidateCategoryPayload | backend/api/users/serializers.py:86-89 | valid iff name and colour are; failures keyed `name`/`color` |
| UsersSerializers.CategoryNameAccepted | backend/api/users/models.py:81 | an accepted name is trimmed and already acceptable to full_clean; required on a full write |
| UsersSerializers.CategoryColorAccepted | backend/api/users/models.py:82-85 | an accepted colour passes the validator and the max_length; required on a full write |
| UsersSerializers.ReadOnlyCategoryFieldsIgnored | backend/api/users/serializers.py:83-89 | submitting `id`, `user` or `note_count` changes nothing |
| UsersSerializers.Merge | backend/api/users/serializers.py:89 | a write keeps the owner and replaces only the submitted fields |
| UsersSerializers.ValidPayloadIsClean | backend/api/users/models.py:102-104 | after the serializer accepts, the model validation in save cannot fail |
| UsersViews.UserViewAdmitsEveryone | backend/api/users/views.py:32-40 | AllowAny exactly for create, IsUserOrReadOnly otherwise; neither refuses at view level |
| UsersViews.UserRepresentation | backend/api/users/serializers.py:26-32 | id, names, email and profile as stored |
| UsersViews.RetrieveUserOutcome | backend/api/users/views.py:20-22 | a missing user is a 404; otherwise any caller, anonymous included, reads the record |
| UsersViews.Me | backend/api/users/views.py:42-47 | always 200: the caller's own record, or, for an anonymous caller, only a null id |
| UsersViews.MeIsOwnRecord | backend/api/users/views.py:42-47 | for an authenticated caller, `me` renders exactly what retrieving one's own id does |
| UsersViews.UpdateUser | backend/api/users/views.py:13-22 | 404, then 403 unless the caller is the user, then 400; success replaces the submitted names only, and email and id never change |
| UsersViews.CreateAccount | backend/api/users/serializers.py:69-75 | invalid data is a 400 and writes nothing; a valid one creates the user with username = normalised email and a token, or fails on the unique address leaving users, tokens and profiles as they were |
| UsersViews.Register | backend/api/users/views.py:57-74 | 201 with the user and "User registered successfully"; 400 with the field errors and no user created; an integrity error leaves users, tokens and profiles as they were |
| UsersViews.DomainCaseSlipsPastValidation | backend/api/users/serializers.py:64 | an address differing from a held one only in its domain's case passes validation, yet its normalised form is held, so create_user's insert fails |
| UsersViews.VisibleCategories | backend/api/users/views.py:85-90 | exactly the caller's categories and the global ones |
| UsersViews.CategoryRepresentation | backend/api/users/serializers.py:83-88 | id, owner, name, colour as stored, and note_count |
| UsersViews.ByNameIsPreorder | backend/api/users/models.py:89 | ordering by name is a total preorder |
| UsersViews.ListCategories | backend/api/users/views.py:82-83 | 403 exactly for an anonymous caller; otherwise one unpaginated list |
| UsersViews.ListCategoriesContents | backend/api/users/views.py:85-90 | the list is ordered by name and holds each visible category exactly once, as stored with its note count, and nothing else |
| UsersViews.RetrieveCategory | backend/api/users/views.py:85-90 | 403 for an anonymous caller; 404 iff the category is not visible (another user's included) |
| UsersViews.NewCategoryHasNoNotes | backend/api/users/models.py:106-111 | a freshly created category has note_count 0 |
| UsersViews.CreateCategory | backend/api/users/views.py:92-94 | 403, 400, else the trimmed name and colour stored under a fresh id, owned by the caller, returned with note_count 0 |
| UsersViews.UpdateCategory | backend/api/users/views.py:82 | 403, 404 outside the visible set, 400; else the submitted fields replace the stored ones and the owner stays, global categories included |
| UsersViews.DestroyCategory | backend/api/users/views.py:82-90 | 403, 404 outside the visible set; else the category goes and every note filed under it loses its category |
| NotesSerializers.CategoryIdInput | backend/api/notes/serializers.py:18-23 | accepts iff an integer naming an existing category, any owner; an unknown id gives "Invalid category ID"; skipped only when omitted from a partial update |
| NotesSerializers.ValidateNote | backend/api/notes/serializers.py:6-16 | valid iff title, content and category_id are; failures keyed by field |
| NotesSerializers.FullPayloadHasCategory | backend/api/notes/serializers.py:8 | a valid create payload names an existing category |
| NotesSerializers.UnknownCategoryRejected | backend/api/notes/serializers.py:22-23 | an unknown id is refused under `category_id` with "Invalid category ID" |
| NotesSerializers.CategoryOnlyPayloadAccepted | backend/api/notes/models.py:11-12 | a payload with only a category id is accepted with title and content omitted, so the model defaults apply |
| NotesSerializers.ReadOnlyNoteFieldsIgnored | backend/api/notes/serializers.py:16 | submitting `id`, `category`, stamps or `user_id` changes nothing |
| NotesSerializers.Create | backend/api/notes/serializers.py:25-31 | the note attaches the requested category; an omitted title is "Untitled Note" and an omitted content "" |
| NotesSerializers.Update | backend/api/notes/serializers.py:33-49 | a missing category gives an error keyed `category_id` and writes nothing; else the submitted fields replace the stored ones, absent ones stay, and updated_at ticks |
| NotesViews.NoteRepresentation | backend/api/notes/serializers.py:6-16 | the note as stored with its category nested, or null |
| NotesViews.Selected | backend/api/notes/views.py:26-32 | exactly the caller's notes, under the filter's category when given |
| NotesViews.NoteQueryset | backend/api/notes/views.py:21-34 | 404 iff a filter names a category that does not exist anywhere |
| NotesViews.NoteQuerysetContents | backend/api/notes/views.py:26-34 | exactly the caller's matching notes, each once and as stored, ordered by updated_at descending |
| NotesViews.NoteQueryStrictlyNewerFirst | backend/api/notes/views.py:34 | with distinct update stamps no two listed notes tie |
| NotesViews.PageCount | backend/api/notes/tests.py:142-161 | the fewest pages of 20 that hold the list, at least one |
| NotesViews.Paginate | backend/api/notes/tests.py:142-161 | 404 iff the page is below 1 or past the last |
| NotesViews.PageSizes | backend/api/notes/tests.py:142-161 | at most 20 per page, full when a next page exists, non-empty unless the list is |
| NotesViews.PagesConcatenate | backend/api/notes/tests.py:142-161 | the first k pages together are the first 20k items |
| NotesViews.ItemOnItsPage | backend/api/notes/tests.py:142-161 | item i is at position i mod 20 of page i div 20 + 1 |
| NotesViews.TwentyEightItems | backend/api/notes/tests.py:142-161 | 28 notes: page 1 has 20 with next and no previous, page 2 has 8 with previous and no next, page 3 is a 404 |
| NotesViews.ListNotes | backend/api/notes/views.py:18-19 | 403 for an anonymous caller; 404 for an unknown filter |
| NotesViews.ListedNotesAreOwn | backend/api/notes/views.py:26-32 | every listed note is the caller's, rendered as stored, under the filter's category when given |
| NotesViews.OwnNotePassesObjectPermission | backend/api/notes/views.py:36-39 | after the owner-scoped lookup, IsAuthenticated and IsOwnerOrReadOnly always hold |
| NotesViews.RetrieveNote | backend/api/notes/views.py:36-39 | 403 for an anonymous caller; 404 iff the note is not the caller's |
| NotesViews.CreateNote | backend/api/notes/views.py:41-42 | 403, 400; else a fresh note owned by the caller under the requested category, with defaults and the current tick, rendered as stored |
| NotesViews.UpdateNote | backend/api/notes/views.py:36-39 | 403, 404 unless owned, 400; else a partial-update write that keeps absent fields and refreshes updated_at, rendered as stored |
| NotesViews.DestroyNote | backend/api/notes/views.py:36-39 | 403, 404 unless owned; else only that note goes |
| InitObjects.RandomThoughtsClean | backend/api/users/management/commands/create_init_objects.py:22 | "Random Thoughts", "#EF9C66" passes full_clean unchanged |
| InitObjects.SchoolClean | backend/api/users/management/commands/create_init_objects.py:23 | "School", "#FCDC94" passes full_clean unchanged |
| InitObjects.PersonalClean | backend/api/users/management/commands/create_init_objects.py:24 | "Personal", "#78ABA8" passes full_clean unchanged |
| InitObjects.DefaultCategoriesClean | backend/api/users/management/commands/create_init_objects.py:21-25 | three seeds, all global, all passing the hex validator and full_clean |
| InitObjects.SeededValues | backend/api/users/management/commands/create_init_objects.py:27-32 | each seed sits under its id and old rows keep their values |
| InitObjects.SeededSize | backend/api/users/management/commands/create_init_objects.py:27-32 | seeding adds exactly as many rows as seeds: reruns duplicate |
| InitObjects.SeedOne | backend/api/users/management/commands/create_init_objects.py:29-32 | one `Category.objects.create` of a clean global seed inserts it under a fresh id |
| InitObjects.SeedCategories | backend/api/users/management/commands/create_init_objects.py:27-33 | the loop inserts every seed, in order, under fresh distinct ids; nothing else changes |
| InitObjects.AdminUserShape | backend/api/users/management/commands/create_init_objects.py:15 | the created superuser has staff and superuser flags and username = its email, not "admin" |
| InitObjects.GuardMissesCreatedAdmin | backend/api/users/management/commands/create_init_objects.py:14 | the admin the command creates never makes its own guard true |
| InitObjects.EnsureNamedSuperuser | backend/api/users/management/commands/create_init_objects.py:14-18 | skipped when the username is taken; else an integrity error when the address is, or the superuser row is added |
| InitObjects.EnsureSuperuser | backend/api/users/management/commands/create_init_objects.py:14-18 | guarded by the address: the row is added exactly when missing, and afterwards the address is held |
| InitObjects.HandleAsWritten | backend/api/users/management/commands/create_init_objects.py:8-36 | an integrity error from the superuser step ends the command before seeding; otherwise it seeds the three categories and returns true |
| InitObjects.HandleCorrected | backend/api/users/management/commands/create_init_objects.py:8-36 | always returns true, holds the admin afterwards, and seeds three fresh global categories |
| InitObjects.RerunAsWritten | backend/api/users/management/commands/create_init_objects.py:14-15 | on an empty database the first run succeeds and the second fails with an integrity error |
| InitObjects.RerunCorrected | backend/api/users/management/commands/create_init_objects.py:27-33 | two runs of the corrected command: one admin, six categories (duplicates allowed) |

## Left out

- Output to stdout and the success and warning messages of the command are not modelled.
- HandleAsWritten: the command's `except` branch (`create_init_objects.py:34-36`, return False) is not modelled. The three seeds are proved clean and database failures are outside the model, so no insert can raise there.
- The nested `profile` write of `UserSerializer` is not modelled; the update payload holds only the id, email and names. Avatar storage is left out too.
- Token keys are random, so a token is modelled as the fact that it exists for a user.
- Password hashing is left out: a stored password stands for its raw value.
- Django's `EmailValidator` syntax check is a parameter `isEmail`, because its regular expressions are library code.
- JSON `null` for string fields is not modelled. String payload fields are present or absent; only `category_id` distinguishes an integer, a non-integer and null.
- Query-string parsing is not modelled. The category filter and the page number arrive as integers, so a non-numeric filter (a `ValueError` in the lookup) and the `page=last` keyword are not covered.
- Pagination links are left out: a page says only whether a next and a previous page exist. Total counts are left out too.
- The page size 20 comes from settings, which are not part of this model. It is the constant `PageSize`.
- Store.Database.DeleteUser: the category owner's `on_delete` rule is not in the shown model, so deleting a user is assumed to cascade to the user's categories.
- User ids are UUIDs in the database. Here they are distinct integers from a counter, and `str()` of an id is its decimal rendering; only distinctness matters.
- UsersModels.NormalizeEmail: only ASCII letters of the domain are lower-cased, where Python's `str.lower()` maps all of Unicode. For a non-ASCII domain (`a@É.com` becomes `a@é.com` in the source) the model keeps the address as typed, so address clashes there, and the integrity error they cause in `CreateUser` and `CreateAccount`, are not captured. Python's lower-casing can also change the length (`İ`), which the model's cannot.
- NormalizeSplitsAtLastAt: states ASCII lower-casing of the domain, for the same reason as NormalizeEmail.
- Ordering.SortBy: `ordering = ['name']` and `order_by('-updated_at')` are an SQL ORDER BY. The model assumes code-point collation for names, which depends on the database. It also breaks ties in ascending id order, which the source does not promise.
- Timestamps are ticks of a logical clock rather than wall-clock time.
- Concurrency, transactions and routing are not modelled, nor the admin site or the frontend.

## Findings

| source | as written | input that shows it | evidently intended | confidence | as-written member | corrected member |
|---|---|---|---|---|---|---|
| backend/api/users/management/commands/create_init_objects.py:14 | the guard looks for a user with username "admin", but `create_user` overwrites the username with the address `admin@example.com`, so the guard never sees the admin it created; the second run calls `create_superuser` again, outside the `try`, and the unique address raises before any seeding | running the command twice on an empty database | a rerun skips the existing superuser (the "already exists" branch) and still seeds and returns true | not executed | InitObjects.RerunAsWritten | InitObjects.RerunCorrected |
