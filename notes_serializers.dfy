/** NoteSerializer (notes/serializers.py): what a note payload must hold, and how a
    validated payload creates a note or rewrites one. The category is checked only
    for existence, whoever owns it. */
module NotesSerializers {
  import opened Common
  import opened SerializerFields
  import opened UsersModels
  import opened NotesModels
  import opened Store
  import opened UsersSerializers

  const InvalidCategoryMessage := "Invalid category ID"
  const NotIntegerMessage := "A valid integer is required."
  const NullMessage := "This field may not be null."

  /** A submitted category_id as IntegerField parses it: an integer, something that is
      not one, or JSON null. */
  datatype RawInteger = Integer(n: int) | NotAnInteger | Null

  /** A note payload; `id`, `category`, `created_at`, `updated_at` and `user_id` are
      read-only (serializers.py:7,16) and never read. */
  datatype NotePayload = NotePayload(
    id: Option<string>,
    title: Option<string>,
    content: Option<string>,
    category: Option<string>,
    categoryId: Option<RawInteger>,
    createdAt: Option<string>,
    updatedAt: Option<string>,
    userId: Option<string>)

  /** The validated data: a None field was not submitted. */
  datatype NoteData = NoteData(title: Option<string>, content: Option<string>, categoryId: Option<CategoryId>)

  /** The title field derived from Note.title: optional (the model has a default), not
      blank, at most 200 characters. */
  function TitleInput(raw: Option<string>): FieldResult<string> {
    CharInput(raw, false, false, Some(TitleMaxLength), NoValidators, NoValidators)
  }

  /** The content field derived from Note.content: optional, blank allowed, unbounded. */
  function ContentInput(raw: Option<string>): FieldResult<string> {
    CharInput(raw, false, true, None, NoValidators, NoValidators)
  }

  /** category_id (serializers.py:8,18-23): an integer, required except in a partial
      update, then validate_category_id, which only asks whether a category with that
      id exists. */
  function CategoryIdInput(raw: Option<RawInteger>, categories: set<CategoryId>, partial: bool): (r: FieldResult<CategoryId>)
    ensures r.Value? <==> raw.Some? && raw.value.Integer? && raw.value.n in categories
    ensures r.Value? ==> r.value == raw.value.n
    ensures r.Skipped? <==> raw.None? && partial
    ensures raw.Some? && raw.value.Integer? && raw.value.n !in categories ==> r == Invalid([InvalidCategoryMessage])
  {
    match raw
    case None => if partial then Skipped else Invalid([RequiredMessage])
    case Some(Null) => Invalid([NullMessage])
    case Some(NotAnInteger) => Invalid([NotIntegerMessage])
    case Some(Integer(n)) => if n in categories then Value(n) else Invalid([InvalidCategoryMessage])
  }

  function OptionalCategory(r: FieldResult<CategoryId>): Option<CategoryId> {
    if r.Value? then Some(r.value) else None
  }

  /** NoteSerializer.is_valid against the ids of the category table. */
  function ValidateNote(categories: set<CategoryId>, p: NotePayload, partial: bool): (r: Result<NoteData, ErrorDict>)
    ensures r.Ok? <==>
      && !TitleInput(p.title).Invalid? && !ContentInput(p.content).Invalid?
      && !CategoryIdInput(p.categoryId, categories, partial).Invalid?
    ensures r.Ok? ==>
      && r.value.title == OptionalValue(TitleInput(p.title))
      && r.value.content == OptionalValue(ContentInput(p.content))
      && r.value.categoryId == OptionalCategory(CategoryIdInput(p.categoryId, categories, partial))
    ensures r.Err? ==>
      && ("title" in r.error <==> TitleInput(p.title).Invalid?)
      && ("content" in r.error <==> ContentInput(p.content).Invalid?)
      && ("category_id" in r.error <==> CategoryIdInput(p.categoryId, categories, partial).Invalid?)
      && r.error.Keys <= {"title", "content", "category_id"}
  {
    var title := TitleInput(p.title);
    var content := ContentInput(p.content);
    var category := CategoryIdInput(p.categoryId, categories, partial);
    var errors := Report(Report(Report(map[], "title", title), "content", content), "category_id", category);
    assert title.Invalid? ==> "title" in errors;
    assert content.Invalid? ==> "content" in errors;
    assert category.Invalid? ==> "category_id" in errors;
    if errors != map[] then Err(errors)
    else Ok(NoteData(OptionalValue(title), OptionalValue(content), OptionalCategory(category)))
  }

  /** A full (non-partial) payload that validates names an existing category. */
  lemma FullPayloadHasCategory(categories: set<CategoryId>, p: NotePayload)
    requires ValidateNote(categories, p, false).Ok?
    ensures p.categoryId.Some? && p.categoryId.value.Integer?
    ensures ValidateNote(categories, p, false).value.categoryId == Some(p.categoryId.value.n)
    ensures p.categoryId.value.n in categories
  {
  }

  /** A payload naming a category id no category has is refused under `category_id`
      with "Invalid category ID", partial or not. */
  lemma UnknownCategoryRejected(categories: set<CategoryId>, p: NotePayload, partial: bool, c: CategoryId)
    requires p.categoryId == Some(Integer(c)) && c !in categories
    ensures ValidateNote(categories, p, partial).Err?
    ensures ValidateNote(categories, p, partial).error["category_id"] == [InvalidCategoryMessage]
  {
  }

  /** A payload holding only an existing category id is accepted; title and content stay
      unsubmitted, so a create takes the model defaults. */
  lemma CategoryOnlyPayloadAccepted(categories: set<CategoryId>, c: CategoryId, partial: bool)
    requires c in categories
    ensures ValidateNote(categories, NotePayload(None, None, None, None, Some(Integer(c)), None, None, None), partial)
              == Ok(NoteData(None, None, Some(c)))
  {
  }

  /** Submitting the read-only fields changes nothing about the outcome. */
  lemma ReadOnlyNoteFieldsIgnored(categories: set<CategoryId>, p: NotePayload, partial: bool,
                                  id: Option<string>, category: Option<string>, createdAt: Option<string>,
                                  updatedAt: Option<string>, userId: Option<string>)
    ensures ValidateNote(categories, p.(id := id, category := category, createdAt := createdAt,
                                        updatedAt := updatedAt, userId := userId), partial)
              == ValidateNote(categories, p, partial)
  {
  }

  /** NoteSerializer.create (serializers.py:25-31) with the owner perform_create adds:
      the named category is attached, an omitted title or content takes the model
      default, and both stamps take the current tick. */
  method Create(db: Database, owner: UserId, data: NoteData) returns (id: NoteId)
    requires db.Valid() && owner in db.users
    requires data.categoryId.Some? && data.categoryId.value in db.categories
    modifies db
    ensures db.Valid()
    ensures id !in old(db.notes)
    ensures db.notes == old(db.notes)[id := Note(owner, data.title.GetOr(DefaultTitle), data.content.GetOr(DefaultContent),
                                                 data.categoryId, old(db.clock), old(db.clock))]
    ensures db.users == old(db.users) && db.categories == old(db.categories)
  {
    id := db.InsertNote(owner, data.title.GetOr(DefaultTitle), data.content.GetOr(DefaultContent), data.categoryId);
  }

  /** NoteSerializer.update (serializers.py:33-49): a submitted category id is looked up
      again and a missing category raises an error keyed `category_id` before anything is
      written; otherwise the submitted fields replace the stored ones, the omitted ones
      stay, and the save refreshes updated_at. */
  method Update(db: Database, id: NoteId, data: NoteData) returns (r: Result<(), ErrorDict>)
    requires db.Valid() && id in db.notes
    modifies db
    ensures db.Valid()
    ensures data.categoryId.Some? && data.categoryId.value !in old(db.categories) ==>
      r == Err(map["category_id" := [InvalidCategoryMessage]]) && unchanged(db)
    ensures data.categoryId.None? || data.categoryId.value in old(db.categories) ==>
      var before := old(db.notes)[id];
      && r == Ok(())
      && db.notes == old(db.notes)[id := before.(title := data.title.GetOr(before.title),
                                                 content := data.content.GetOr(before.content),
                                                 category := if data.categoryId.Some? then data.categoryId else before.category,
                                                 updatedAt := old(db.clock))]
    ensures db.users == old(db.users) && db.categories == old(db.categories)
  {
    var before := db.notes[id];
    var category := before.category;
    if data.categoryId.Some? {
      if data.categoryId.value !in db.categories {
        return Err(map["category_id" := [InvalidCategoryMessage]]);
      }
      category := data.categoryId;
    }
    assert category.Some? ==> category.value in db.categories;
    db.SaveNote(id, data.title.GetOr(before.title), data.content.GetOr(before.content), category);
    r := Ok(());
  }
}
