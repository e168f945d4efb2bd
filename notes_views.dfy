/** NoteViewSet (notes/views.py): every action first requires an authenticated
    caller; the list shows the caller's notes, optionally those filed under one
    category, newest first and twenty to a page; the detail actions find a note only
    among the caller's own. */
module NotesViews {
  import opened Common
  import opened Ordering
  import opened Permissions
  import opened UsersModels
  import opened NotesModels
  import opened Store
  import opened UsersViews
  import opened NotesSerializers

  /** PAGE_SIZE of the page-number pagination the list uses. */
  const PageSize: nat := 20

  // ---------------------------------------------------------------------------
  // Representation

  /** Every category a note is filed under exists. */
  predicate FiledUnderExisting(notes: NoteTable, categories: map<CategoryId, Category>) {
    forall n | n in notes :: notes[n].category.Some? ==> notes[n].category.value in categories
  }

  /** What NoteSerializer renders: the nested category with its note count, or null. */
  datatype NoteOut = NoteOut(
    id: NoteId,
    title: string,
    content: string,
    category: Option<CategoryOut>,
    createdAt: nat,
    updatedAt: nat,
    userId: UserId)

  function NoteRepresentation(notes: NoteTable, categories: map<CategoryId, Category>, id: NoteId): (r: NoteOut)
    requires id in notes && FiledUnderExisting(notes, categories)
    ensures r.id == id && r.userId == notes[id].owner && r.title == notes[id].title && r.content == notes[id].content
    ensures r.createdAt == notes[id].createdAt && r.updatedAt == notes[id].updatedAt
    ensures r.category.None? <==> notes[id].category.None?
    ensures r.category.Some? ==> r.category.value == CategoryRepresentation(categories, notes, notes[id].category.value)
  {
    var n := notes[id];
    var category := match n.category
      case None => None
      case Some(c) => Some(CategoryRepresentation(categories, notes, c));
    NoteOut(id, n.title, n.content, category, n.createdAt, n.updatedAt, n.owner)
  }

  // ---------------------------------------------------------------------------
  // The list

  /** The caller's notes, restricted to one category when a filter is given. */
  function Selected(notes: NoteTable, u: UserId, filter: Option<CategoryId>): (r: set<NoteId>)
    ensures forall n :: n in r <==> n in notes && notes[n].owner == u && (filter.None? || notes[n].category == filter)
  {
    set n | n in notes && notes[n].owner == u && (filter.None? || notes[n].category == filter)
  }

  function Rows(notes: NoteTable, ids: seq<NoteId>): (r: seq<(NoteId, Note)>)
    requires forall i | 0 <= i < |ids| :: ids[i] in notes
    ensures |r| == |ids|
    ensures forall i | 0 <= i < |ids| :: r[i] == (ids[i], notes[ids[i]])
  {
    if ids == [] then [] else [(ids[0], notes[ids[0]])] + Rows(notes, ids[1..])
  }

  /** NoteViewSet.get_queryset (views.py:21-34) for an authenticated caller: a category
      filter naming no category at all is a 404 (get_object_or_404 looks the id up among
      all categories, whoever owns them); otherwise the caller's notes, filtered, ordered
      by updated_at descending. */
  function NoteQueryset(notes: NoteTable, categories: map<CategoryId, Category>, u: UserId, filter: Option<CategoryId>)
    : (r: Result<seq<(NoteId, Note)>, ApiError>)
    ensures r.Err? <==> filter.Some? && filter.value !in categories
    ensures r.Err? ==> r.error == NotFound
  {
    if filter.Some? && filter.value !in categories then Err(NotFound)
    else Ok(SortBy(Rows(notes, SortedKeys(Selected(notes, u, filter))), NewerFirst))
  }

  /** The queryset holds exactly the caller's notes that match the filter, each once,
      each as stored, most recently updated first. */
  lemma NoteQuerysetContents(notes: NoteTable, categories: map<CategoryId, Category>, u: UserId, filter: Option<CategoryId>)
    requires filter.None? || filter.value in categories
    ensures var rows := NoteQueryset(notes, categories, u, filter).value;
      && SortedBy(rows, NewerFirst) && Distinct(rows)
      && (forall row | row in rows :: row.0 in notes && row.1 == notes[row.0] && row.1.owner == u
                                     && (filter.None? || row.1.category == filter))
      && (forall n | n in Selected(notes, u, filter) :: (n, notes[n]) in rows)
  {
    var ids := SortedKeys(Selected(notes, u, filter));
    var pairs := Rows(notes, ids);
    var rows := SortBy(pairs, NewerFirst);
    NewerFirstIsPreorder();
    SortBySorted(pairs, NewerFirst);
    SortByDistinct(pairs, NewerFirst);
    forall row | row in rows
      ensures row.0 in notes && row.1 == notes[row.0] && row.1.owner == u && (filter.None? || row.1.category == filter)
    {
      SortBySameElements(pairs, NewerFirst, row);
    }
    forall n | n in Selected(notes, u, filter)
      ensures (n, notes[n]) in rows
    {
      var i :| 0 <= i < |ids| && ids[i] == n;
      assert pairs[i] == (n, notes[n]);
      SortBySameElements(pairs, NewerFirst, pairs[i]);
    }
  }

  /** With update stamps distinct, the order is strict: no two rows of the list tie. */
  lemma NoteQueryStrictlyNewerFirst(notes: NoteTable, categories: map<CategoryId, Category>, clock: nat,
                                    u: UserId, filter: Option<CategoryId>)
    requires StampsConsistent(notes, clock)
    requires filter.None? || filter.value in categories
    ensures var rows := NoteQueryset(notes, categories, u, filter).value;
      forall i, j | 0 <= i < j < |rows| :: rows[i].1.updatedAt > rows[j].1.updatedAt
  {
    var rows := NoteQueryset(notes, categories, u, filter).value;
    NoteQuerysetContents(notes, categories, u, filter);
    forall i, j | 0 <= i < j < |rows|
      ensures rows[i].1.updatedAt > rows[j].1.updatedAt
    {
      assert rows[i] in rows && rows[j] in rows;
      assert NewerFirst(rows[i], rows[j]);
    }
  }

  // ---------------------------------------------------------------------------
  // Page-number pagination

  /** One page: its items and whether a next and a previous page exist (the links
      themselves are URLs and are not modelled). */
  datatype Page<T> = Page(results: seq<T>, hasNext: bool, hasPrevious: bool)

  /** Django's Paginator.num_pages with allow_empty_first_page: an empty list has one page. */
  function PageCount(n: nat): (r: nat)
    ensures r >= 1
    ensures (r - 1) * PageSize < n || n == 0
    ensures n <= r * PageSize
  {
    if n == 0 then 1 else (n + PageSize - 1) / PageSize
  }

  function Min(a: int, b: int): int { if a <= b then a else b }

  /** Paginator.page through DRF's page-number pagination: a page number below 1 or past
      the last page is a 404; page k holds items 20(k-1) up to 20k. */
  function Paginate<T>(items: seq<T>, page: int): (r: Result<Page<T>, ApiError>)
    ensures r.Err? <==> page < 1 || page > PageCount(|items|)
    ensures r.Err? ==> r.error == NotFound
  {
    if page < 1 || page > PageCount(|items|) then Err(NotFound)
    else
      var lo := (page - 1) * PageSize;
      var hi := Min(page * PageSize, |items|);
      Ok(Page(items[lo..hi], page < PageCount(|items|), page > 1))
  }

  /** A page holds at most 20 items, every page but the last is full, and the last
      one is never empty unless the whole list is. */
  lemma PageSizes<T>(items: seq<T>, page: int)
    requires Paginate(items, page).Ok?
    ensures |Paginate(items, page).value.results| <= PageSize
    ensures Paginate(items, page).value.hasNext ==> |Paginate(items, page).value.results| == PageSize
    ensures items != [] ==> |Paginate(items, page).value.results| >= 1
  {
  }

  /** The first k pages, put together, are the first 20k items: paging loses and
      repeats nothing. */
  lemma {:induction false} PagesConcatenate<T>(items: seq<T>, k: nat)
    requires k <= PageCount(|items|)
    ensures Pages(items, k) == items[..Min(k * PageSize, |items|)]
  {
    if k > 0 {
      PagesConcatenate(items, k - 1);
      var lo := (k - 1) * PageSize;
      assert Min((k - 1) * PageSize, |items|) == lo;
      assert items[..Min(k * PageSize, |items|)] == items[..lo] + items[lo..Min(k * PageSize, |items|)];
    }
  }

  /** The results of pages 1 to k, in order. */
  function Pages<T>(items: seq<T>, k: nat): seq<T>
    requires k <= PageCount(|items|)
  {
    if k == 0 then [] else Pages(items, k - 1) + Paginate(items, k).value.results
  }

  /** Every item sits on exactly the page its position says. */
  lemma ItemOnItsPage<T>(items: seq<T>, i: nat)
    requires i < |items|
    ensures Paginate(items, i / PageSize + 1).Ok?
    ensures Paginate(items, i / PageSize + 1).value.results[i % PageSize] == items[i]
  {
    var page := i / PageSize + 1;
    assert page <= PageCount(|items|);
  }

  /** Twenty-eight notes make two pages: twenty with a next link and no previous one,
      then eight with a previous link and no next one. */
  lemma TwentyEightItems<T>(items: seq<T>)
    requires |items| == 28
    ensures PageCount(|items|) == 2
    ensures Paginate(items, 1).Ok? && |Paginate(items, 1).value.results| == 20
    ensures Paginate(items, 1).value.hasNext && !Paginate(items, 1).value.hasPrevious
    ensures Paginate(items, 2).Ok? && |Paginate(items, 2).value.results| == 8
    ensures !Paginate(items, 2).value.hasNext && Paginate(items, 2).value.hasPrevious
    ensures Paginate(items, 3) == Err(NotFound)
  {
  }

  function Representations(notes: NoteTable, categories: map<CategoryId, Category>, rows: seq<(NoteId, Note)>)
    : (r: seq<NoteOut>)
    requires FiledUnderExisting(notes, categories)
    requires forall i | 0 <= i < |rows| :: rows[i].0 in notes
    ensures |r| == |rows|
    ensures forall i | 0 <= i < |rows| :: r[i] == NoteRepresentation(notes, categories, rows[i].0)
  {
    if rows == [] then []
    else [NoteRepresentation(notes, categories, rows[0].0)] + Representations(notes, categories, rows[1..])
  }

  /** The list action: 403 for an anonymous caller (IsAuthenticated, views.py:19), then the
      queryset, then the requested page (the first when none is given). */
  function ListNotes(notes: NoteTable, categories: map<CategoryId, Category>, caller: Option<UserId>,
                     filter: Option<CategoryId>, page: Option<int>): (r: Result<Page<NoteOut>, ApiError>)
    requires FiledUnderExisting(notes, categories)
    ensures caller.None? ==> r == Err(Forbidden)
    ensures caller.Some? && filter.Some? && filter.value !in categories ==> r == Err(NotFound)
  {
    match caller
    case None => Err(Forbidden)
    case Some(u) =>
      match NoteQueryset(notes, categories, u, filter)
      case Err(e) => Err(e)
      case Ok(rows) =>
        QuerysetRowsExist(notes, categories, u, filter);
        Paginate(Representations(notes, categories, rows), page.GetOr(1))
  }

  /** Every row of the queryset is a stored note. */
  lemma QuerysetRowsExist(notes: NoteTable, categories: map<CategoryId, Category>, u: UserId, filter: Option<CategoryId>)
    requires NoteQueryset(notes, categories, u, filter).Ok?
    ensures var rows := NoteQueryset(notes, categories, u, filter).value;
      forall i | 0 <= i < |rows| :: rows[i].0 in notes && rows[i].1 == notes[rows[i].0] && rows[i].1.owner == u
                                 && (filter.None? || rows[i].1.category == filter)
  {
    var rows := NoteQueryset(notes, categories, u, filter).value;
    NoteQuerysetContents(notes, categories, u, filter);
    forall i | 0 <= i < |rows|
      ensures rows[i].0 in notes && rows[i].1 == notes[rows[i].0] && rows[i].1.owner == u
              && (filter.None? || rows[i].1.category == filter)
    {
      assert rows[i] in rows;
    }
  }

  /** The i-th result of a page is the item at the page's offset plus i. */
  lemma PageItem<T>(items: seq<T>, page: int, i: nat)
    requires Paginate(items, page).Ok? && i < |Paginate(items, page).value.results|
    ensures (page - 1) * PageSize + i < |items|
    ensures Paginate(items, page).value.results[i] == items[(page - 1) * PageSize + i]
  {
  }

  /** Every note on any page of the list is the caller's, and under the filter's
      category when there is one. */
  lemma ListedNotesAreOwn(notes: NoteTable, categories: map<CategoryId, Category>, u: UserId,
                          filter: Option<CategoryId>, page: Option<int>, i: nat)
    requires FiledUnderExisting(notes, categories)
    requires ListNotes(notes, categories, Some(u), filter, page).Ok?
    requires i < |ListNotes(notes, categories, Some(u), filter, page).value.results|
    ensures var out := ListNotes(notes, categories, Some(u), filter, page).value.results[i];
      && out.id in notes && out.userId == u && out == NoteRepresentation(notes, categories, out.id)
      && (filter.Some? ==> out.category.Some? && out.category.value.id == filter.value)
  {
    var rows := NoteQueryset(notes, categories, u, filter).value;
    QuerysetRowsExist(notes, categories, u, filter);
    var reps := Representations(notes, categories, rows);
    var p := page.GetOr(1);
    assert ListNotes(notes, categories, Some(u), filter, page) == Paginate(reps, p);
    PageItem(reps, p, i);
  }

  // ---------------------------------------------------------------------------
  // Detail actions

  /** get_object (views.py:36-39): the note is looked up among the caller's own, so
      another user's note is a 404 just like a missing one. */
  predicate OwnNote(notes: NoteTable, u: UserId, id: NoteId) {
    id in notes && notes[id].owner == u
  }

  /** The object permission that follows the lookup always holds: the caller owns the note. */
  lemma OwnNotePassesObjectPermission(notes: NoteTable, u: UserId, id: NoteId, m: HttpMethod)
    requires OwnNote(notes, u, id)
    ensures IsAuthenticated(Some(u)) && IsOwnerOrReadOnly(m, notes[id].owner, Some(u))
  {
  }

  /** The retrieve action. */
  function RetrieveNote(notes: NoteTable, categories: map<CategoryId, Category>, caller: Option<UserId>, id: NoteId)
    : (r: Result<NoteOut, ApiError>)
    requires FiledUnderExisting(notes, categories)
    ensures caller.None? <==> r == Err(Forbidden)
    ensures caller.Some? ==> (r == Err(NotFound) <==> !OwnNote(notes, caller.value, id))
    ensures r.Ok? ==> r.value == NoteRepresentation(notes, categories, id) && r.value.userId == caller.value
  {
    match caller
    case None => Err(Forbidden)
    case Some(u) => if !OwnNote(notes, u, id) then Err(NotFound) else Ok(NoteRepresentation(notes, categories, id))
  }

  /** The create action: 403, then 400 for an invalid payload (category_id required and
      naming an existing category, whoever owns it), else a new note owned by the
      caller (perform_create, views.py:41-42) under the requested category. */
  method CreateNote(db: Database, caller: Option<UserId>, p: NotePayload) returns (r: Result<NoteOut, ApiError>)
    requires db.Valid()
    requires caller.Some? ==> caller.value in db.users
    modifies db
    ensures db.Valid()
    ensures caller.None? ==> r == Err(Forbidden) && unchanged(db)
    ensures caller.Some? && ValidateNote(old(db.categories).Keys, p, false).Err? ==>
      r == Err(BadRequest(ValidateNote(old(db.categories).Keys, p, false).error)) && unchanged(db)
    ensures caller.Some? && ValidateNote(old(db.categories).Keys, p, false).Ok? ==>
      var data := ValidateNote(old(db.categories).Keys, p, false).value;
      && r.Ok? && r.value.id !in old(db.notes)
      && db.notes == old(db.notes)[r.value.id := Note(caller.value, data.title.GetOr(DefaultTitle),
                                                      data.content.GetOr(DefaultContent), data.categoryId,
                                                      old(db.clock), old(db.clock))]
      && r.value.userId == caller.value
      && r.value.category.Some? && p.categoryId == Some(Integer(r.value.category.value.id))
      && FiledUnderExisting(db.notes, db.categories) && r.value == NoteRepresentation(db.notes, db.categories, r.value.id)
    ensures db.users == old(db.users) && db.categories == old(db.categories)
  {
    if caller.None? {
      return Err(Forbidden);
    }
    var validated := ValidateNote(db.categories.Keys, p, false);
    if validated.Err? {
      return Err(BadRequest(validated.error));
    }
    FullPayloadHasCategory(db.categories.Keys, p);
    var id := Create(db, caller.value, validated.value);
    assert FiledUnderExisting(db.notes, db.categories);
    r := Ok(NoteRepresentation(db.notes, db.categories, id));
  }

  /** The update and partial_update actions: 403, then 404 unless the caller owns the
      note, then 400 for an invalid payload; the submitted fields replace the stored ones,
      the rest stay, and updated_at takes the current tick. */
  method UpdateNote(db: Database, caller: Option<UserId>, id: NoteId, p: NotePayload, partial: bool)
    returns (r: Result<NoteOut, ApiError>)
    requires db.Valid()
    modifies db
    ensures db.Valid()
    ensures caller.None? ==> r == Err(Forbidden) && unchanged(db)
    ensures caller.Some? && !OwnNote(old(db.notes), caller.value, id) ==> r == Err(NotFound) && unchanged(db)
    ensures caller.Some? && OwnNote(old(db.notes), caller.value, id) && ValidateNote(old(db.categories).Keys, p, partial).Err? ==>
      r == Err(BadRequest(ValidateNote(old(db.categories).Keys, p, partial).error)) && unchanged(db)
    ensures caller.Some? && OwnNote(old(db.notes), caller.value, id) && ValidateNote(old(db.categories).Keys, p, partial).Ok? ==>
      var data := ValidateNote(old(db.categories).Keys, p, partial).value;
      var before := old(db.notes)[id];
      && db.notes == old(db.notes)[id := before.(title := data.title.GetOr(before.title),
                                                 content := data.content.GetOr(before.content),
                                                 category := if data.categoryId.Some? then data.categoryId else before.category,
                                                 updatedAt := old(db.clock))]
      && r.Ok? && r.value.id == id
      && FiledUnderExisting(db.notes, db.categories) && r.value == NoteRepresentation(db.notes, db.categories, id)
    ensures db.users == old(db.users) && db.categories == old(db.categories)
  {
    if caller.None? {
      return Err(Forbidden);
    }
    if !OwnNote(db.notes, caller.value, id) {
      return Err(NotFound);
    }
    var validated := ValidateNote(db.categories.Keys, p, partial);
    if validated.Err? {
      return Err(BadRequest(validated.error));
    }
    var saved := Update(db, id, validated.value);
    match saved
    case Err(_) =>
      assert false;
    case Ok(_) =>
      assert FiledUnderExisting(db.notes, db.categories);
      r := Ok(NoteRepresentation(db.notes, db.categories, id));
  }

  /** The destroy action: 403, then 404 unless the caller owns the note, else the note goes. */
  method DestroyNote(db: Database, caller: Option<UserId>, id: NoteId) returns (r: Result<(), ApiError>)
    requires db.Valid()
    modifies db
    ensures db.Valid()
    ensures caller.None? ==> r == Err(Forbidden) && unchanged(db)
    ensures caller.Some? && !OwnNote(old(db.notes), caller.value, id) ==> r == Err(NotFound) && unchanged(db)
    ensures caller.Some? && OwnNote(old(db.notes), caller.value, id) ==> r == Ok(()) && db.notes == old(db.notes) - {id}
    ensures db.users == old(db.users) && db.categories == old(db.categories)
  {
    if caller.None? {
      return Err(Forbidden);
    }
    if !OwnNote(db.notes, caller.value, id) {
      return Err(NotFound);
    }
    db.DeleteNote(id);
    r := Ok(());
  }
}
