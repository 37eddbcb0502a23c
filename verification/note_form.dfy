/** The checklist rows of the note creation form (src/components/NoteForm.tsx):
    rows are edited by position, and every change is a new list handed back
    to the owner of the form state. */
module NoteForm {
  import opened Types

  /** A row field and its new value (`field: 'text' | 'completed'`). */
  datatype FieldChange = TextField(text: string) | CompletedField(completed: bool)

  function ApplyField(item: TodoItem, change: FieldChange): TodoItem {
    match change
    case TextField(text) => item.(text := text)
    case CompletedField(done) => item.(completed := done)
  }

  /** `handleTodoItemChange`: a copy with one field of the row at `index`
      replaced. The index is that of a rendered row. */
  function ChangeRow(items: seq<TodoItem>, index: nat, change: FieldChange): (r: seq<TodoItem>)
    requires index < |items|
    ensures |r| == |items|
    ensures forall k :: 0 <= k < |items| && k != index ==> r[k] == items[k]
    ensures r[index].id == items[index].id
    ensures change.TextField? ==> r[index].text == change.text && r[index].completed == items[index].completed
    ensures change.CompletedField? ==> r[index].completed == change.completed && r[index].text == items[index].text
  {
    items[index := ApplyField(items[index], change)]
  }

  /** `addTodoItem`: one empty open row appended; `id` stands for the clock-based id. */
  function AddRow(items: seq<TodoItem>, id: string): (r: seq<TodoItem>)
    ensures |r| == |items| + 1 && r[..|items|] == items
    ensures r[|items|] == TodoItem(id, "", false)
  {
    items + [TodoItem(id, "", false)]
  }

  /** `items.filter((_, i) => i !== index)`: every row but the one at `index`;
      an index past the end removes nothing. */
  function RemoveRow(items: seq<TodoItem>, index: nat): (r: seq<TodoItem>)
    ensures index < |items| ==> |r| == |items| - 1
    ensures index >= |items| ==> r == items
    ensures forall k :: 0 <= k < |r| ==> r[k] == if k < index then items[k] else items[k + 1]
  {
    if index < |items| then items[..index] + items[index + 1..] else items
  }

  /** The remove control is rendered only while more than one row exists. */
  predicate CanRemove(items: seq<TodoItem>) {
    |items| > 1
  }

  /** A user action on the rows; removal happens only through the control. */
  datatype RowAction = Change(index: nat, change: FieldChange) | Add(id: string) | Remove(index: nat)

  /** The rows after an action; an action on a row that is not rendered, or a
      removal while the control is hidden, changes nothing. */
  function Perform(items: seq<TodoItem>, a: RowAction): seq<TodoItem> {
    match a
    case Change(i, c) => if i < |items| then ChangeRow(items, i, c) else items
    case Add(id) => AddRow(items, id)
    case Remove(i) => if CanRemove(items) && i < |items| then RemoveRow(items, i) else items
  }

  function PerformAll(items: seq<TodoItem>, actions: seq<RowAction>): seq<TodoItem>
    decreases |actions|
  {
    if actions == [] then items else PerformAll(Perform(items, actions[0]), actions[1..])
  }

  /** The form always keeps at least one row: starting from a non-empty list,
      no sequence of actions empties it. */
  lemma {:induction false} AlwaysOneRow(items: seq<TodoItem>, actions: seq<RowAction>)
    requires |items| >= 1
    ensures |PerformAll(items, actions)| >= 1
    decreases |actions|
  {
    if actions != [] {
      AlwaysOneRow(Perform(items, actions[0]), actions[1..]);
    }
  }
}
