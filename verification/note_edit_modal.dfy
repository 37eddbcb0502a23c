/** The state and handlers of the note edit dialog
    (src/components/NoteEditModal.tsx): the fields the dialog edits, the
    checklist helpers, the effect that loads a note into the fields, and the
    save that builds the updated note. */
module NoteEditModal {
  import opened Wrappers
  import opened Types
  import opened JsStrings
  import TodoItems

  /** The dialog's fields. `note` is the note it was opened on; `completed`
      is undefined when that note's flag was. */
  datatype ModalState = ModalState(
    note: Option<Note>,
    title: string,
    content: string,
    todoItems: seq<TodoItem>,
    imageUrl: string,
    imageCaption: string,
    category: string,
    completed: Option<bool>,
    newTodoText: string)

  /** `value || ''` */
  function OrEmpty(value: Option<string>): string {
    if value.Some? then value.value else ""
  }

  /** `value || undefined` */
  function EmptyToNone(value: string): (r: Option<string>)
    ensures r.None? <==> value == ""
    ensures r.Some? ==> r.value == value
  {
    if value == "" then None else Some(value)
  }

  /** The load effect: a note fills the title, category and flag, and the
      fields of its own kind; the fields of the other kinds keep what they
      held. No note leaves every field as it was. */
  function Loaded(st: ModalState, note: Option<Note>): (r: ModalState)
    ensures r.note == note && r.newTodoText == st.newTodoText
    ensures note.None? ==> r == st.(note := None)
    ensures note.Some? ==> r.title == note.value.title && r.completed == note.value.completed
    ensures note.Some? ==> r.category == OrEmpty(note.value.color)
    ensures note.Some? && note.value.payload.TextPayload? ==> r.content == note.value.payload.content
    ensures note.Some? && note.value.payload.TodoPayload? ==> r.todoItems == note.value.payload.items
    ensures note.Some? && note.value.payload.ImagePayload? ==>
              r.imageUrl == note.value.payload.imageUrl && r.imageCaption == OrEmpty(note.value.payload.caption)
    ensures note.Some? && !note.value.payload.TextPayload? ==> r.content == st.content
    ensures note.Some? && !note.value.payload.TodoPayload? ==> r.todoItems == st.todoItems
    ensures note.Some? && !note.value.payload.ImagePayload? ==> r.imageUrl == st.imageUrl && r.imageCaption == st.imageCaption
  {
    match note
    case None => st.(note := None)
    case Some(n) =>
      var common := st.(note := note, title := n.title, category := OrEmpty(n.color), completed := n.completed);
      match n.payload
      case TextPayload(content) => common.(content := content)
      case TodoPayload(items, _) => common.(todoItems := items)
      case ImagePayload(url, caption) => common.(imageUrl := url, imageCaption := OrEmpty(caption))
  }

  /** What `handleSave` hands to its caller: nothing without a note or with a
      blank title; otherwise the original note with the trimmed title, the
      category (empty meaning none), the flag, the clock value as
      `updatedAt`, and the fields of the note's own kind. */
  function SaveResult(st: ModalState, now: Time): (r: Option<Note>)
    ensures r.None? <==> st.note.None? || IsBlank(st.title)
    ensures r.Some? ==>
              var n := st.note.value;
              && r.value.id == n.id && r.value.Type() == n.Type() && r.value.createdAt == n.createdAt
              && r.value.userId == n.userId && r.value.tags == n.tags
              && r.value.title == Trim(st.title) && r.value.color == EmptyToNone(st.category)
              && r.value.completed == st.completed && r.value.updatedAt == now
    ensures r.Some? && st.note.value.payload.TextPayload? ==> r.value.payload.content == st.content
    ensures r.Some? && st.note.value.payload.TodoPayload? ==>
              r.value.payload == st.note.value.payload.(items := st.todoItems)
    ensures r.Some? && st.note.value.payload.ImagePayload? ==>
              r.value.payload == ImagePayload(st.imageUrl, EmptyToNone(st.imageCaption))
  {
    if st.note.None? || Trim(st.title) == "" then None
    else
      var n := st.note.value;
      var updated := n.(title := Trim(st.title), color := EmptyToNone(st.category), completed := st.completed, updatedAt := now);
      Some(match n.payload
        case TextPayload(_) => updated.(payload := TextPayload(st.content))
        case TodoPayload(_, users) => updated.(payload := TodoPayload(st.todoItems, users))
        case ImagePayload(_, _) => updated.(payload := ImagePayload(st.imageUrl, EmptyToNone(st.imageCaption))))
  }

  /** Opening a note and saving it untouched gives back the same note, with
      only `updatedAt` restamped, provided its title is already trimmed and
      neither its category nor its caption is the empty string (those two come
      back undefined). */
  lemma OpenThenSave(st: ModalState, n: Note, now: Time)
    requires n.title != "" && Trim(n.title) == n.title
    requires n.color != Some("")
    requires n.payload.ImagePayload? ==> n.payload.caption != Some("")
    ensures SaveResult(Loaded(st, Some(n)), now) == Some(n.(updatedAt := now))
  {
    var loaded := Loaded(st, Some(n));
    assert loaded.title == n.title;
  }

  class NoteEditModal {
    var note: Option<Note>
    var title: string
    var content: string
    var todoItems: seq<TodoItem>
    var imageUrl: string
    var imageCaption: string
    var category: string
    var completed: Option<bool>
    var newTodoText: string

    function State(): ModalState
      reads this
    {
      ModalState(note, title, content, todoItems, imageUrl, imageCaption, category, completed, newTodoText)
    }

    /** The dialog's initial state, before any note is loaded. */
    constructor ()
      ensures State() == ModalState(None, "", "", [], "", "", "", Some(false), "")
    {
      note := None;
      title, content, todoItems, imageUrl, imageCaption := "", "", [], "", "";
      category, completed, newTodoText := "", Some(false), "";
    }

    /** The load effect, run when the `note` property changes. */
    method Load(n: Option<Note>)
      modifies this
      ensures State() == Loaded(old(State()), n)
    {
      note := n;
      if n.Some? {
        var v := n.value;
        title := v.title;
        category := OrEmpty(v.color);
        completed := v.completed;
        match v.payload {
          case TextPayload(c) =>
            content := c;
          case TodoPayload(items, _) =>
            todoItems := items;
          case ImagePayload(url, caption) =>
            imageUrl := url;
            imageCaption := OrEmpty(caption);
        }
      }
    }

    /** `addTodoItem`: a blank input does nothing; otherwise the trimmed text
        becomes a new open item and the input is cleared. `itemId` stands for
        the generated id. */
    method AddTodoItem(itemId: string)
      modifies this`todoItems, this`newTodoText
      ensures IsBlank(old(newTodoText)) ==> todoItems == old(todoItems) && newTodoText == old(newTodoText)
      ensures !IsBlank(old(newTodoText)) ==>
                todoItems == TodoItems.AppendItem(old(todoItems), itemId, Trim(old(newTodoText))) && newTodoText == ""
      ensures !IsBlank(old(newTodoText)) ==> todoItems[|todoItems| - 1].text != ""
    {
      var text := Trim(newTodoText);
      if text != "" {
        todoItems := todoItems + [TodoItem(itemId, text, false)];
        newTodoText := "";
      }
    }

    /** `updateTodoItem`: the text is set as typed, untrimmed. */
    method UpdateTodoItem(id: string, text: string)
      modifies this`todoItems
      ensures todoItems == TodoItems.SetTextAll(old(todoItems), id, text)
    {
      todoItems := TodoItems.SetTextAll(todoItems, id, text);
    }

    method ToggleTodoItem(id: string)
      modifies this`todoItems
      ensures todoItems == TodoItems.ToggleAll(old(todoItems), id)
    {
      todoItems := TodoItems.ToggleAll(todoItems, id);
    }

    method DeleteTodoItem(id: string)
      modifies this`todoItems
      ensures todoItems == TodoItems.RemoveAll(old(todoItems), id)
    {
      todoItems := TodoItems.RemoveAll(todoItems, id);
    }

    /** `handleSave`: builds the updated note from the original and then
        writes the fields of its kind; the dialog's own state is untouched.
        `now` is the clock value. */
    method HandleSave(now: Time) returns (saved: Option<Note>)
      ensures saved == SaveResult(State(), now)
    {
      if note.None? || Trim(title) == "" {
        return None;
      }
      var updated := note.value.(title := Trim(title), color := EmptyToNone(category), completed := completed, updatedAt := now);
      if updated.payload.TextPayload? {
        updated := updated.(payload := TextPayload(content));
      } else if updated.payload.TodoPayload? {
        updated := updated.(payload := updated.payload.(items := todoItems));
      } else {
        updated := updated.(payload := ImagePayload(imageUrl, EmptyToNone(imageCaption)));
      }
      saved := Some(updated);
    }
  }
}
