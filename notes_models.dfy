/** The notes app's model (notes/models.py): a note, its field defaults, the
    order notes are listed in, and what deleting a referenced row does to the
    notes table. Timestamps are ticks of a logical clock. */
module NotesModels {
  import opened Common
  import opened Ordering

  datatype Note = Note(
    owner: UserId,
    title: string,
    content: string,
    category: Option<CategoryId>,
    createdAt: nat,
    updatedAt: nat)

  type NoteTable = map<NoteId, Note>

  const DefaultTitle := "Untitled Note"
  const DefaultContent := ""
  const TitleMaxLength: nat := 200

  // ---------------------------------------------------------------------------
  // Referential rules

  /** Every note's owner is a user and its category, if any, a category. */
  predicate NotesReferToExisting(notes: NoteTable, users: set<UserId>, categories: set<CategoryId>) {
    forall n | n in notes ::
      && notes[n].owner in users
      && (notes[n].category.Some? ==> notes[n].category.value in categories)
  }

  /** Timestamps are past ticks, a note is never updated before it is created,
      and no two notes carry the same update stamp. */
  predicate StampsConsistent(notes: NoteTable, clock: nat) {
    && (forall n | n in notes :: notes[n].createdAt <= notes[n].updatedAt < clock)
    && (forall a, b | a in notes && b in notes && notes[a].updatedAt == notes[b].updatedAt :: a == b)
  }

  /** on_delete=SET_NULL for the category key (models.py:13-18): every note that
      referenced a deleted category loses its category; nothing else about any note changes. */
  function SetNullCategories(notes: NoteTable, deleted: set<CategoryId>): (r: NoteTable)
    ensures r.Keys == notes.Keys
    ensures forall n | n in r :: r[n].category.Some? ==> r[n].category.value !in deleted
    ensures forall n | n in r :: notes[n].category.Some? && notes[n].category.value in deleted ==> r[n].category.None?
    ensures forall n | n in r :: (notes[n].category.None? || notes[n].category.value !in deleted) ==> r[n] == notes[n]
    ensures forall n | n in r ::
      && r[n].owner == notes[n].owner && r[n].title == notes[n].title && r[n].content == notes[n].content
      && r[n].createdAt == notes[n].createdAt && r[n].updatedAt == notes[n].updatedAt
  {
    map n | n in notes ::
      if notes[n].category.Some? && notes[n].category.value in deleted then notes[n].(category := None) else notes[n]
  }

  /** on_delete=CASCADE for the user key (models.py:6-10): a user's notes go with the user. */
  function DeleteOwnedBy(notes: NoteTable, u: UserId): (r: NoteTable)
    ensures forall n :: n in r <==> n in notes && notes[n].owner != u
    ensures forall n | n in r :: r[n] == notes[n]
  {
    map n | n in notes && notes[n].owner != u :: notes[n]
  }

  /** A table whose rows are some of another's, each with the same stamps, keeps its stamps consistent. */
  lemma StampsKept(notes: NoteTable, r: NoteTable, clock: nat)
    requires StampsConsistent(notes, clock)
    requires r.Keys <= notes.Keys
    requires forall n | n in r :: r[n].createdAt == notes[n].createdAt && r[n].updatedAt == notes[n].updatedAt
    ensures StampsConsistent(r, clock)
  {
  }

  /** Writing a row stamped with the current tick, then ticking, keeps the stamps
      consistent: the new stamp is later than every other. */
  lemma StampsAfterWrite(notes: NoteTable, clock: nat, id: NoteId, note: Note)
    requires StampsConsistent(notes, clock)
    requires note.createdAt <= note.updatedAt == clock
    ensures StampsConsistent(notes[id := note], clock + 1)
  {
    var r := notes[id := note];
    forall a, b | a in r && b in r && r[a].updatedAt == r[b].updatedAt
      ensures a == b
    {
      if a != id && b != id {
        assert r[a] == notes[a] && r[b] == notes[b];
      }
    }
  }

  /** Writing a row whose owner and category exist keeps every reference valid. */
  lemma ReferencesAfterWrite(notes: NoteTable, users: set<UserId>, categories: set<CategoryId>, id: NoteId, note: Note)
    requires NotesReferToExisting(notes, users, categories)
    requires note.owner in users && (note.category.Some? ==> note.category.value in categories)
    ensures NotesReferToExisting(notes[id := note], users, categories)
  {
  }

  /** Deleting a user with their notes, and nulling the references to the categories
      deleted with them, keeps every reference valid. */
  lemma ReferencesAfterUserDelete(notes: NoteTable, users: set<UserId>, categories: set<CategoryId>,
                                  u: UserId, deleted: set<CategoryId>)
    requires NotesReferToExisting(notes, users, categories)
    ensures NotesReferToExisting(SetNullCategories(DeleteOwnedBy(notes, u), deleted), users - {u}, categories - deleted)
  {
    var kept := DeleteOwnedBy(notes, u);
    var r := SetNullCategories(kept, deleted);
    forall n | n in r
      ensures r[n].owner in users - {u}
      ensures r[n].category.Some? ==> r[n].category.value in categories - deleted
    {
      assert kept[n] == notes[n];
    }
  }

  // ---------------------------------------------------------------------------
  // note_count

  /** The notes filed under category c, whoever owns them. */
  function NotesInCategory(notes: NoteTable, c: CategoryId): (r: set<NoteId>)
    ensures forall n :: n in r <==> n in notes && notes[n].category == Some(c)
  {
    set n | n in notes && notes[n].category == Some(c)
  }

  /** Category.note_count (users/models.py:106-111). */
  function NoteCount(notes: NoteTable, c: CategoryId): nat {
    |NotesInCategory(notes, c)|
  }

  /** The notes of one owner filed under category c. */
  function OwnedNotesInCategory(notes: NoteTable, c: CategoryId, u: UserId): set<NoteId> {
    set n | n in notes && notes[n].category == Some(c) && notes[n].owner == u
  }

  /** note_count counts every owner's notes: the caller's own notes in the category
      are only part of it, and the rest belong to other users. */
  lemma NoteCountAcrossOwners(notes: NoteTable, c: CategoryId, u: UserId)
    ensures NoteCount(notes, c) ==
      |OwnedNotesInCategory(notes, c, u)| + |NotesInCategory(notes, c) - OwnedNotesInCategory(notes, c, u)|
    ensures |OwnedNotesInCategory(notes, c, u)| <= NoteCount(notes, c)
  {
    var all, mine := NotesInCategory(notes, c), OwnedNotesInCategory(notes, c, u);
    assert all == mine + (all - mine);
  }

  /** After SET_NULL no note counts towards a deleted category, and every other
      category keeps its count. */
  lemma NoteCountAfterSetNull(notes: NoteTable, deleted: set<CategoryId>, c: CategoryId)
    ensures c in deleted ==> NoteCount(SetNullCategories(notes, deleted), c) == 0
    ensures c !in deleted ==> NoteCount(SetNullCategories(notes, deleted), c) == NoteCount(notes, c)
  {
    var r := SetNullCategories(notes, deleted);
    if c in deleted {
      assert NotesInCategory(r, c) == {};
    } else {
      assert NotesInCategory(r, c) == NotesInCategory(notes, c);
    }
  }

  // ---------------------------------------------------------------------------
  // Meta.ordering = ['-updated_at']

  /** Most recently updated first. */
  predicate NewerFirst(a: (NoteId, Note), b: (NoteId, Note)) {
    a.1.updatedAt >= b.1.updatedAt
  }

  lemma NewerFirstIsPreorder()
    ensures TotalPreorder(NewerFirst)
  {
  }
}
