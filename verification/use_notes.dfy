/** The note store of src/hooks/useNotes.tsx: the active and archived note
    lists, the selection, the creation form, the single todo-item edit cursor,
    the edit dialog and the two drag flags. Each handler of the hook is a
    method; the list transformations they apply are functions beside the
    class, with their properties as lemmas. */
module UseNotes {
  import opened Wrappers
  import opened Types
  import opened JsStrings
  import Seqs
  import TodoItems
  import NoteService

  /** The todo-item edit cursor: which item of which note, and the edit buffer. */
  datatype TodoEdit = TodoEdit(noteId: string, itemId: string, text: string)

  /** The creation form. `image` is the uploaded data URL, if any. */
  datatype Draft = Draft(
    noteType: NoteType,
    title: string,
    content: string,
    todoItems: seq<TodoItem>,
    image: Option<string>,
    caption: string,
    category: string)

  /** The form after a reset: every field cleared except the chosen kind, with
      one empty checklist row whose id is `itemId`. */
  function ResetDraft(d: Draft, itemId: string): (r: Draft)
    ensures r.noteType == d.noteType
    ensures r.title == "" && r.content == "" && r.caption == "" && r.category == "" && r.image.None?
    ensures r.todoItems == [TodoItem(itemId, "", false)]
  {
    Draft(d.noteType, "", "", [TodoItem(itemId, "", false)], None, "", "")
  }

  /** Checklist rows whose text is not blank (`i => i.text.trim()`). */
  function HasText(item: TodoItem): bool {
    Trim(item.text) != ""
  }

  /** The note `handleCreateNote` appends: a fresh note of the form's kind,
      carrying the form's title, payload and category. */
  function DraftNote(d: Draft, userId: string, id: string, now: Time): (n: Note)
    ensures n.Type() == d.noteType && n.id == id && n.userId == userId && n.title == d.title
    ensures n.createdAt == now && n.updatedAt == now && n.tags == Some([]) && n.completed.None?
    ensures n.color == if d.category == "" then None else Some(d.category)
    ensures d.noteType == Text ==> n.payload == TextPayload(d.content)
    ensures d.noteType == Todo ==>
              && n.payload.assignedUsers == Some([])
              && n.payload.items == Seqs.Filter(d.todoItems, HasText)
              && (forall i :: 0 <= i < |n.payload.items| ==> n.payload.items[i] in d.todoItems && Trim(n.payload.items[i].text) != "")
              && (forall i :: 0 <= i < |d.todoItems| && Trim(d.todoItems[i].text) != "" ==> d.todoItems[i] in n.payload.items)
    ensures d.noteType == Image ==>
              n.payload == ImagePayload(if d.image.Some? && d.image.value != "" then d.image.value else "", Some(d.caption))
  {
    var base := NoteService.NewNote(d.noteType, userId, id, now).(title := d.title);
    var filled :=
      match d.noteType
      case Text => base.(payload := TextPayload(d.content))
      case Todo => base.(payload := TodoPayload(Seqs.Filter(d.todoItems, HasText), Some([])))
      case Image => base.(payload := ImagePayload(if d.image.Some? && d.image.value != "" then d.image.value else "", Some(d.caption)));
    if d.category != "" then filled.(color := Some(d.category)) else filled
  }

  /** One edit of a checklist. */
  datatype ItemEdit =
    | Toggle(itemId: string)
    | Retext(itemId: string, text: string)
    | Append(itemId: string)
    | Delete(itemId: string)

  function ApplyItemEdit(items: seq<TodoItem>, e: ItemEdit): seq<TodoItem> {
    match e
    case Toggle(id) => TodoItems.ToggleAll(items, id)
    case Retext(id, text) => TodoItems.SetTextAll(items, id, text)
    case Append(id) => TodoItems.AppendItem(items, id, "")
    case Delete(id) => TodoItems.RemoveAll(items, id)
  }

  /** A note the checklist handlers touch: the id matches and it is a todo note. */
  predicate IsTarget(n: Note, noteId: string) {
    n.id == noteId && n.payload.TodoPayload?
  }

  function EditOne(n: Note, noteId: string, e: ItemEdit): Note {
    if IsTarget(n, noteId) then n.(payload := n.payload.(items := ApplyItemEdit(n.payload.items, e))) else n
  }

  /** Applies the edit to the checklist of every todo note with the id: every
      other note, and every other field of a target, stays as it was. */
  function EditTodoNotes(notes: seq<Note>, noteId: string, e: ItemEdit): (r: seq<Note>)
    ensures |r| == |notes|
    ensures forall i :: 0 <= i < |notes| && !IsTarget(notes[i], noteId) ==> r[i] == notes[i]
    ensures forall i :: 0 <= i < |notes| && IsTarget(notes[i], noteId) ==>
              && r[i].payload.TodoPayload?
              && r[i].(payload := notes[i].payload) == notes[i]
              && r[i].payload.assignedUsers == notes[i].payload.assignedUsers
              && r[i].payload.items == ApplyItemEdit(notes[i].payload.items, e)
  {
    seq(|notes|, i requires 0 <= i < |notes| => EditOne(notes[i], noteId, e))
  }

  /** Toggling the same item twice restores the list. */
  lemma ToggleTwice(notes: seq<Note>, noteId: string, itemId: string)
    ensures EditTodoNotes(EditTodoNotes(notes, noteId, Toggle(itemId)), noteId, Toggle(itemId)) == notes
  {
    var once := EditTodoNotes(notes, noteId, Toggle(itemId));
    var twice := EditTodoNotes(once, noteId, Toggle(itemId));
    forall i | 0 <= i < |notes| ensures twice[i] == notes[i] {
      if IsTarget(notes[i], noteId) {
        TodoItems.ToggleAllInvolution(notes[i].payload.items, itemId);
        assert IsTarget(once[i], noteId);
      }
    }
  }

  /** After deleting an item from a note, no item of that note has the id. */
  lemma DeleteItemRemovesIt(notes: seq<Note>, noteId: string, itemId: string, k: nat)
    requires k < |notes| && IsTarget(notes[k], noteId)
    ensures forall j :: 0 <= j < |EditTodoNotes(notes, noteId, Delete(itemId))[k].payload.items| ==>
              EditTodoNotes(notes, noteId, Delete(itemId))[k].payload.items[j].id != itemId
  {
    var items := EditTodoNotes(notes, noteId, Delete(itemId))[k].payload.items;
    TodoItems.RemoveAllSpec(notes[k].payload.items, itemId);
    forall j | 0 <= j < |items| ensures items[j].id != itemId {
      assert items[j] in items;
    }
  }

  /** `prev.filter(note => note.id !== noteId)` */
  function WithoutNote(notes: seq<Note>, noteId: string): seq<Note> {
    Seqs.Filter(notes, LacksId(noteId))
  }

  /** Deleting removes every note with the id and keeps every other one; an
      absent id changes nothing; the order of what is kept is the original
      order (deletion distributes over concatenation). */
  lemma WithoutNoteSpec(notes: seq<Note>, noteId: string, more: seq<Note>)
    ensures forall i :: 0 <= i < |WithoutNote(notes, noteId)| ==> WithoutNote(notes, noteId)[i].id != noteId
    ensures forall i :: 0 <= i < |notes| && notes[i].id != noteId ==> notes[i] in WithoutNote(notes, noteId)
    ensures (forall i :: 0 <= i < |notes| ==> notes[i].id != noteId) ==> WithoutNote(notes, noteId) == notes
    ensures WithoutNote(notes + more, noteId) == WithoutNote(notes, noteId) + WithoutNote(more, noteId)
  {
    var r := WithoutNote(notes, noteId);
    forall i | 0 <= i < |r| ensures r[i].id != noteId {
      assert LacksId(noteId)(r[i]);
    }
    forall i | 0 <= i < |notes| && notes[i].id != noteId ensures notes[i] in r {
      assert LacksId(noteId)(notes[i]);
    }
    if forall i :: 0 <= i < |notes| ==> notes[i].id != noteId {
      assert forall i :: 0 <= i < |notes| ==> LacksId(noteId)(notes[i]);
      Seqs.FilterKeepsAll(notes, LacksId(noteId));
    }
    Seqs.FilterConcat(notes, more, LacksId(noteId));
  }

  /** `prev.map(note => note.id === updated.id ? updated : note)` */
  function ReplaceNote(notes: seq<Note>, updated: Note): (r: seq<Note>)
    ensures |r| == |notes|
    ensures forall i :: 0 <= i < |notes| ==> r[i] == if notes[i].id == updated.id then updated else notes[i]
  {
    seq(|notes|, i requires 0 <= i < |notes| => if notes[i].id == updated.id then updated else notes[i])
  }

  /** Saving the same edited note twice is saving it once. */
  lemma ReplaceNoteIdempotent(notes: seq<Note>, updated: Note)
    ensures ReplaceNote(ReplaceNote(notes, updated), updated) == ReplaceNote(notes, updated)
  {
  }

  /** The truthiness of an optional flag (`!undefined` is `true`). */
  function Truthy(b: Option<bool>): bool {
    b == Some(true)
  }

  /** `{ ...note, completed: !note.completed, updatedAt: now }` on every note with the id. */
  function FlipCompleted(notes: seq<Note>, noteId: string, now: Time): (r: seq<Note>)
    ensures |r| == |notes|
    ensures forall i :: 0 <= i < |notes| && notes[i].id != noteId ==> r[i] == notes[i]
    ensures forall i :: 0 <= i < |notes| && notes[i].id == noteId ==>
              && r[i].completed.Some? && Truthy(r[i].completed) == !Truthy(notes[i].completed)
              && r[i] == notes[i].(completed := r[i].completed, updatedAt := now)
  {
    seq(|notes|, i requires 0 <= i < |notes| =>
      if notes[i].id == noteId then notes[i].(completed := Some(!Truthy(notes[i].completed)), updatedAt := now)
      else notes[i])
  }

  /** Flipping twice restores the flag of a note whose flag was already set. */
  lemma FlipCompletedTwice(notes: seq<Note>, noteId: string, now: Time)
    requires forall i :: 0 <= i < |notes| && notes[i].id == noteId ==> notes[i].completed.Some? && notes[i].updatedAt == now
    ensures FlipCompleted(FlipCompleted(notes, noteId, now), noteId, now) == notes
  {
    var twice := FlipCompleted(FlipCompleted(notes, noteId, now), noteId, now);
    var once := FlipCompleted(notes, noteId, now);
    forall i | 0 <= i < |notes| ensures twice[i] == notes[i] {
      if notes[i].id == noteId {
        var b := notes[i].completed.value;
        assert once[i].completed == Some(!b);
        assert twice[i].completed == Some(b);
      }
    }
  }

  /** Both lists of the store. */
  datatype Lists = Lists(active: seq<Note>, archived: seq<ArchivedNote>)

  function ArchivedHasId(id: string): ArchivedNote -> bool {
    (a: ArchivedNote) => a.note.id == id
  }

  function ArchivedLacksId(id: string): ArchivedNote -> bool {
    (a: ArchivedNote) => a.note.id != id
  }

  /** `handleArchiveNote` on both lists: the first active note with the id
      moves, stamped, to the end of the archive, and every active note with
      the id leaves the active list; an absent id changes nothing. */
  function Archived(c: Lists, noteId: string, now: Time): (r: Lists)
    ensures (forall i :: 0 <= i < |c.active| ==> c.active[i].id != noteId) ==> r == c
    ensures var k := Seqs.FirstIndex(c.active, HasId(noteId));
            k >= 0 ==> r == Lists(WithoutNote(c.active, noteId), c.archived + [ArchivedNote(c.active[k], now)])
  {
    match Seqs.FindFirst(c.active, HasId(noteId))
    case None => c
    case Some(n) => Lists(WithoutNote(c.active, noteId), c.archived + [ArchivedNote(n, now)])
  }

  /** `handleRestoreNote` on both lists: the first archived note with the id
      goes back, without its archive stamp, to the end of the active list, and
      every archived note with the id leaves the archive. */
  function Restored(c: Lists, noteId: string): (r: Lists)
    ensures (forall i :: 0 <= i < |c.archived| ==> c.archived[i].note.id != noteId) ==> r == c
    ensures var k := Seqs.FirstIndex(c.archived, ArchivedHasId(noteId));
            k >= 0 ==> r == Lists(c.active + [c.archived[k].note], Seqs.Filter(c.archived, ArchivedLacksId(noteId)))
  {
    match Seqs.FindFirst(c.archived, ArchivedHasId(noteId))
    case None => c
    case Some(a) => Lists(c.active + [a.note], Seqs.Filter(c.archived, ArchivedLacksId(noteId)))
  }

  /** Archiving the only note with an id that is not in the archive, then
      restoring it, leaves the archive as it was and the note at the end of
      the active list, after the others in their order. */
  lemma ArchiveThenRestore(c: Lists, noteId: string, now: Time, k: nat)
    requires k < |c.active| && c.active[k].id == noteId
    requires forall i :: 0 <= i < |c.active| && i != k ==> c.active[i].id != noteId
    requires forall i :: 0 <= i < |c.archived| ==> c.archived[i].note.id != noteId
    ensures Restored(Archived(c, noteId, now), noteId) == Lists(WithoutNote(c.active, noteId) + [c.active[k]], c.archived)
  {
    assert HasId(noteId)(c.active[k]);
    assert forall i :: 0 <= i < |c.active| && i != k ==> !HasId(noteId)(c.active[i]);
    var mid := Archived(c, noteId, now);
    assert mid == Lists(WithoutNote(c.active, noteId), c.archived + [ArchivedNote(c.active[k], now)]);
    var stamped := ArchivedNote(c.active[k], now);
    assert ArchivedHasId(noteId)(mid.archived[|c.archived|]);
    assert forall i :: 0 <= i < |c.archived| ==> !ArchivedHasId(noteId)(mid.archived[i]);
    assert Seqs.FindFirst(mid.archived, ArchivedHasId(noteId)) == Some(stamped);
    Seqs.FilterSnoc(c.archived, stamped, ArchivedLacksId(noteId));
    assert forall i :: 0 <= i < |c.archived| ==> ArchivedLacksId(noteId)(c.archived[i]);
    Seqs.FilterKeepsAll(c.archived, ArchivedLacksId(noteId));
  }

  /** Archiving moves a note without losing or duplicating it: when exactly
      one active note has the id, the two lists together still hold as many
      notes. */
  lemma ArchiveKeepsCount(c: Lists, noteId: string, now: Time, k: nat)
    requires k < |c.active| && c.active[k].id == noteId
    requires forall i :: 0 <= i < |c.active| && i != k ==> c.active[i].id != noteId
    ensures |Archived(c, noteId, now).active| + |Archived(c, noteId, now).archived| == |c.active| + |c.archived|
  {
    assert HasId(noteId)(c.active[k]);
    assert forall i :: 0 <= i < |c.active| && i != k ==> LacksId(noteId)(c.active[i]);
    Seqs.FilterDropsOne(c.active, k, LacksId(noteId));
  }

  /** The reordering of `handleDrop`: the dragged note (first with its id) is
      spliced out and reinserted at the target's index as it was before the
      removal. The list is unchanged when the transferred id is empty, equals
      the target, or either note is missing. */
  function Reorder(notes: seq<Note>, draggedId: string, targetId: string): (r: seq<Note>)
    ensures |r| == |notes| && multiset(r) == multiset(notes)
    ensures draggedId == "" || draggedId == targetId ==> r == notes
    ensures (forall i :: 0 <= i < |notes| ==> notes[i].id != draggedId) ==> r == notes
    ensures (forall i :: 0 <= i < |notes| ==> notes[i].id != targetId) ==> r == notes
  {
    if draggedId == "" || draggedId == targetId then notes
    else
      var d := Seqs.FirstIndex(notes, HasId(draggedId));
      var t := Seqs.FirstIndex(notes, HasId(targetId));
      if d == -1 || t == -1 then notes
      else
        Seqs.MoveAt(notes, d, t, 0);
        Seqs.MovePermutes(notes, d, t);
        Seqs.Move(notes, d, t)
  }

  /** With both notes present, the reordering is the move from the dragged
      note's first index to the target's first index. */
  lemma ReorderIsMove(notes: seq<Note>, draggedId: string, targetId: string, d: nat, t: nat)
    requires draggedId != "" && draggedId != targetId
    requires d < |notes| && notes[d].id == draggedId && forall i :: 0 <= i < d ==> notes[i].id != draggedId
    requires t < |notes| && notes[t].id == targetId && forall i :: 0 <= i < t ==> notes[i].id != targetId
    ensures Reorder(notes, draggedId, targetId) == Seqs.Move(notes, d, t)
  {
    assert HasId(draggedId)(notes[d]) && forall i :: 0 <= i < d ==> !HasId(draggedId)(notes[i]);
    assert HasId(targetId)(notes[t]) && forall i :: 0 <= i < t ==> !HasId(targetId)(notes[i]);
  }

  /** Where the dragged note lands: at the target's original index t, so
      before the target when it came from a later index and after it when it
      came from an earlier one; every other note shifts by at most one. */
  lemma ReorderLanding(notes: seq<Note>, draggedId: string, targetId: string, d: nat, t: nat)
    requires draggedId != "" && draggedId != targetId
    requires d < |notes| && notes[d].id == draggedId && forall i :: 0 <= i < d ==> notes[i].id != draggedId
    requires t < |notes| && notes[t].id == targetId && forall i :: 0 <= i < t ==> notes[i].id != targetId
    ensures Reorder(notes, draggedId, targetId)[t] == notes[d]
    ensures t < d ==> Reorder(notes, draggedId, targetId)[t + 1] == notes[t]
    ensures d < t ==> Reorder(notes, draggedId, targetId)[t - 1] == notes[t]
    ensures forall k :: 0 <= k < |notes| ==> Reorder(notes, draggedId, targetId)[k] == notes[Seqs.MovedFrom(d, t, k)]
  {
    ReorderIsMove(notes, draggedId, targetId, d, t);
    forall k | 0 <= k < |notes| ensures Seqs.Move(notes, d, t)[k] == notes[Seqs.MovedFrom(d, t, k)] {
      Seqs.MoveAt(notes, d, t, k);
    }
    if t < d {
      Seqs.MoveBackwardLandsBefore(notes, d, t);
    } else {
      Seqs.MoveForwardLandsAfter(notes, d, t);
    }
  }

  /** The notes the load effect shows for a session. */
  function LoadedNotes(session: Option<Session>, storage: NoteService.Storage, codec: NoteService.Codec): seq<Note> {
    if session.Some? then NoteService.GetNotes(storage, codec, session.value.user.id) else []
  }

  /** The storage after the save effect: written only while a session exists
      and the list is not empty. */
  function Persisted(session: Option<Session>, notes: seq<Note>, storage: NoteService.Storage, codec: NoteService.Codec): (r: NoteService.Storage)
    ensures session.None? || notes == [] ==> r == storage
    ensures session.Some? && notes != [] ==> r == NoteService.SaveNotes(storage, codec, session.value.user.id, notes)
  {
    if session.Some? && |notes| > 0 then NoteService.SaveNotes(storage, codec, session.value.user.id, notes) else storage
  }

  /** A non-empty list survives a save and a reload. */
  lemma PersistThenLoad(session: Session, notes: seq<Note>, storage: NoteService.Storage, codec: NoteService.Codec)
    requires notes != [] && NoteService.RoundTrips(codec, notes)
    ensures LoadedNotes(Some(session), Persisted(Some(session), notes, storage, codec), codec) == notes
  {
    NoteService.SaveThenGet(storage, codec, session.user.id, notes);
  }

  /** Emptying the list is never written: after a save of `saved` and the
      deletion of every note, a reload shows `saved` again. */
  lemma EmptiedListReappears(session: Session, saved: seq<Note>, storage: NoteService.Storage, codec: NoteService.Codec)
    requires saved != [] && NoteService.RoundTrips(codec, saved)
    ensures LoadedNotes(Some(session), Persisted(Some(session), [], Persisted(Some(session), saved, storage, codec), codec), codec) == saved
  {
    PersistThenLoad(session, saved, storage, codec);
  }

  class NoteStore {
    const session: Option<Session>
    var notes: seq<Note>
    var selectedNote: Option<Note>
    var archivedNotes: seq<ArchivedNote>
    var isCreating: bool
    var draft: Draft
    var editingTodoItem: Option<TodoEdit>
    var editingNote: Option<Note>
    var isEditModalOpen: bool
    var draggedNote: Option<string>
    var dragOverNote: Option<string>

    /** The initial state of the hook; `itemId` is the id of the form's first
        empty checklist row. */
    constructor (session: Option<Session>, itemId: string)
      ensures this.session == session
      ensures notes == [] && selectedNote.None? && archivedNotes == [] && !isCreating
      ensures draft == Draft(Text, "", "", [TodoItem(itemId, "", false)], None, "", "")
      ensures editingTodoItem.None? && editingNote.None? && !isEditModalOpen
      ensures draggedNote.None? && dragOverNote.None?
    {
      this.session := session;
      notes, selectedNote, archivedNotes, isCreating := [], None, [], false;
      draft := Draft(Text, "", "", [TodoItem(itemId, "", false)], None, "", "");
      editingTodoItem, editingNote, isEditModalOpen := None, None, false;
      draggedNote, dragOverNote := None, None;
    }

    /** The load effect, run when the session changes. */
    method Load(storage: NoteService.Storage, codec: NoteService.Codec)
      modifies this`notes
      ensures notes == LoadedNotes(session, storage, codec)
      ensures session.None? ==> notes == []
    {
      if session.Some? {
        notes := NoteService.GetNotes(storage, codec, session.value.user.id);
      } else {
        notes := [];
      }
    }

    /** The save effect, run after the notes change. */
    function Save(storage: NoteService.Storage, codec: NoteService.Codec): (r: NoteService.Storage)
      reads this
      ensures r == Persisted(session, notes, storage, codec)
      ensures session.None? || notes == [] ==> r == storage
      ensures session.Some? && notes != [] && NoteService.RoundTrips(codec, notes) ==> LoadedNotes(session, r, codec) == notes
    {
      if session.Some? && notes != [] && NoteService.RoundTrips(codec, notes) then
        PersistThenLoad(session.value, notes, storage, codec);
        Persisted(session, notes, storage, codec)
      else
        Persisted(session, notes, storage, codec)
    }

    method SelectNote(note: Option<Note>)
      modifies this`selectedNote
      ensures selectedNote == note
    {
      selectedNote := note;
    }

    method SetCreating(creating: bool)
      modifies this`isCreating
      ensures isCreating == creating
    {
      isCreating := creating;
    }

    /** The form's field setters, all at once. */
    method SetDraft(d: Draft)
      modifies this`draft
      ensures draft == d
    {
      draft := d;
    }

    /** `handleDeleteNote`: the selection is cleared only when it is the deleted note. */
    method DeleteNote(noteId: string)
      modifies this`notes, this`selectedNote
      ensures notes == WithoutNote(old(notes), noteId)
      ensures selectedNote == if old(selectedNote).Some? && old(selectedNote).value.id == noteId then None else old(selectedNote)
    {
      notes := WithoutNote(notes, noteId);
      if selectedNote.Some? && selectedNote.value.id == noteId {
        selectedNote := None;
      }
    }

    method ToggleTodoItem(noteId: string, itemId: string)
      modifies this`notes
      ensures notes == EditTodoNotes(old(notes), noteId, Toggle(itemId))
    {
      notes := EditTodoNotes(notes, noteId, Toggle(itemId));
    }

    /** Starting an edit replaces any cursor there was. */
    method StartEditTodoItem(noteId: string, itemId: string, currentText: string)
      modifies this`editingTodoItem
      ensures editingTodoItem == Some(TodoEdit(noteId, itemId, currentText))
    {
      editingTodoItem := Some(TodoEdit(noteId, itemId, currentText));
    }

    /** Without a cursor, or with text that trims to nothing, nothing changes
        (the cursor stays set); otherwise the item gets the trimmed text and
        the cursor is cleared. */
    method SaveTodoItemEdit(newText: string)
      modifies this`notes, this`editingTodoItem
      ensures old(editingTodoItem).None? || IsBlank(newText) ==>
                notes == old(notes) && editingTodoItem == old(editingTodoItem)
      ensures old(editingTodoItem).Some? && !IsBlank(newText) ==>
                && notes == EditTodoNotes(old(notes), old(editingTodoItem).value.noteId, Retext(old(editingTodoItem).value.itemId, Trim(newText)))
                && editingTodoItem.None?
    {
      if editingTodoItem.None? || Trim(newText) == "" {
        return;
      }
      var cursor := editingTodoItem.value;
      notes := EditTodoNotes(notes, cursor.noteId, Retext(cursor.itemId, Trim(newText)));
      editingTodoItem := None;
    }

    method CancelTodoItemEdit()
      modifies this`editingTodoItem
      ensures editingTodoItem.None?
    {
      editingTodoItem := None;
    }

    /** Appends an empty item with the fresh id to the note and points the
        cursor at it with an empty buffer. The cursor is set even when no todo
        note has the id. */
    method AddTodoItem(noteId: string, newItemId: string)
      modifies this`notes, this`editingTodoItem
      ensures notes == EditTodoNotes(old(notes), noteId, Append(newItemId))
      ensures forall i :: 0 <= i < |notes| && IsTarget(old(notes)[i], noteId) ==>
                notes[i].payload.items == old(notes)[i].payload.items + [TodoItem(newItemId, "", false)]
      ensures editingTodoItem == Some(TodoEdit(noteId, newItemId, ""))
    {
      notes := EditTodoNotes(notes, noteId, Append(newItemId));
      editingTodoItem := Some(TodoEdit(noteId, newItemId, ""));
    }

    method DeleteTodoItem(noteId: string, itemId: string)
      modifies this`notes
      ensures notes == EditTodoNotes(old(notes), noteId, Delete(itemId))
    {
      notes := EditTodoNotes(notes, noteId, Delete(itemId));
    }

    method EditNote(note: Note)
      modifies this`editingNote, this`isEditModalOpen
      ensures editingNote == Some(note) && isEditModalOpen
    {
      editingNote := Some(note);
      isEditModalOpen := true;
    }

    method SaveNoteEdit(updated: Note)
      modifies this`notes, this`editingNote, this`isEditModalOpen
      ensures notes == ReplaceNote(old(notes), updated)
      ensures editingNote.None? && !isEditModalOpen
    {
      notes := ReplaceNote(notes, updated);
      editingNote := None;
      isEditModalOpen := false;
    }

    method CloseEditModal()
      modifies this`editingNote, this`isEditModalOpen
      ensures editingNote.None? && !isEditModalOpen
    {
      editingNote := None;
      isEditModalOpen := false;
    }

    method ToggleNoteCompleted(noteId: string, now: Time)
      modifies this`notes
      ensures notes == FlipCompleted(old(notes), noteId, now)
    {
      notes := FlipCompleted(notes, noteId, now);
    }

    /** `handleCreateNote`: without a session nothing happens; otherwise the
        note built from the form goes to the end of the list and the form is
        reset. `noteId` and `now` stand for the generated id and the clock,
        `itemId` for the id of the reset form's first row. */
    method CreateNote(noteId: string, now: Time, itemId: string)
      modifies this`notes, this`draft, this`isCreating
      ensures session.None? ==> notes == old(notes) && draft == old(draft) && isCreating == old(isCreating)
      ensures session.Some? ==>
                && notes == old(notes) + [DraftNote(old(draft), session.value.user.id, noteId, now)]
                && draft == ResetDraft(old(draft), itemId)
                && !isCreating
    {
      if session.None? {
        return;
      }
      var note := DraftNote(draft, session.value.user.id, noteId, now);
      notes := notes + [note];
      draft := ResetDraft(draft, itemId);
      isCreating := false;
    }

    /** `handleArchiveNote`; the selection is cleared when it is the archived note. */
    method ArchiveNote(noteId: string, now: Time)
      modifies this`notes, this`archivedNotes, this`selectedNote
      ensures Lists(notes, archivedNotes) == Archived(Lists(old(notes), old(archivedNotes)), noteId, now)
      ensures selectedNote ==
                if old(selectedNote).Some? && old(selectedNote).value.id == noteId
                   && exists i :: 0 <= i < |old(notes)| && old(notes)[i].id == noteId
                then None else old(selectedNote)
    {
      var found := Seqs.FindFirst(notes, HasId(noteId));
      if found.Some? {
        archivedNotes := archivedNotes + [ArchivedNote(found.value, now)];
        notes := WithoutNote(notes, noteId);
        if selectedNote.Some? && selectedNote.value.id == noteId {
          selectedNote := None;
        }
      }
    }

    method RestoreNote(noteId: string)
      modifies this`notes, this`archivedNotes
      ensures Lists(notes, archivedNotes) == Restored(Lists(old(notes), old(archivedNotes)), noteId)
    {
      var found := Seqs.FindFirst(archivedNotes, ArchivedHasId(noteId));
      if found.Some? {
        notes := notes + [found.value.note];
        archivedNotes := Seqs.Filter(archivedNotes, ArchivedLacksId(noteId));
      }
    }

    method DeleteFromArchive(noteId: string)
      modifies this`archivedNotes
      ensures archivedNotes == Seqs.Filter(old(archivedNotes), ArchivedLacksId(noteId))
    {
      archivedNotes := Seqs.Filter(archivedNotes, ArchivedLacksId(noteId));
    }

    method DragStart(noteId: string)
      modifies this`draggedNote
      ensures draggedNote == Some(noteId)
    {
      draggedNote := Some(noteId);
    }

    method DragOver(noteId: string)
      modifies this`dragOverNote
      ensures dragOverNote == Some(noteId)
    {
      dragOverNote := Some(noteId);
    }

    method DragLeave()
      modifies this`dragOverNote
      ensures dragOverNote.None?
    {
      dragOverNote := None;
    }

    /** `handleDrop`: `transferredId` is the id the drag carried. Both drag
        flags are cleared in every case. */
    method Drop(transferredId: string, targetId: string)
      modifies this`notes, this`draggedNote, this`dragOverNote
      ensures notes == Reorder(old(notes), transferredId, targetId)
      ensures draggedNote.None? && dragOverNote.None?
    {
      if transferredId != "" && transferredId != targetId {
        var d := Seqs.FindIndex(notes, HasId(transferredId));
        var t := Seqs.FindIndex(notes, HasId(targetId));
        if d != -1 && t != -1 {
          notes := Seqs.Move(notes, d, t);
        }
      }
      draggedNote := None;
      dragOverNote := None;
    }

    method DragEnd()
      modifies this`draggedNote, this`dragOverNote
      ensures draggedNote.None? && dragOverNote.None?
    {
      draggedNote := None;
      dragOverNote := None;
    }

    /** `resetCreateForm`; the chosen kind is kept. */
    method ResetCreateForm(itemId: string)
      modifies this`isCreating, this`draft
      ensures !isCreating && draft == ResetDraft(old(draft), itemId)
    {
      isCreating := false;
      draft := ResetDraft(draft, itemId);
    }
  }
}
