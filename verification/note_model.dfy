/** The note classes of src/models/Note.ts: the abstract NoteModel and its
    three subclasses, as one class whose variant part is a tagged union. Every
    mutator stamps `updatedAt` with the clock value it is given. */
module NoteModels {
  import opened Wrappers
  import opened Types
  import Seqs
  import TodoItems

  /** The variant fields the classes keep. Unlike the record types,
      `assignedUsers` and `caption` are always present on the classes. */
  datatype Body =
    | TextBody(content: string)
    | TodoBody(items: seq<TodoItem>, assignedUsers: seq<string>)
    | ImageBody(imageUrl: string, caption: string)
  {
    function Kind(): NoteType {
      match this
      case TextBody(_) => Text
      case TodoBody(_, _) => Todo
      case ImageBody(_, _) => Image
    }
  }

  /** The constructor argument, `Partial<TextNote | TodoNote | ImageNote>`. */
  datatype NoteData = NoteData(
    id: Option<string>,
    title: Option<string>,
    createdAt: Option<Time>,
    updatedAt: Option<Time>,
    color: Option<string>,
    tags: Option<seq<string>>,
    userId: Option<string>,
    content: Option<string>,
    items: Option<seq<TodoItem>>,
    assignedUsers: Option<seq<string>>,
    imageUrl: Option<string>,
    caption: Option<string>)

  /** The fields of a note object, as a value. */
  datatype ModelState = ModelState(
    id: string,
    title: string,
    createdAt: Time,
    updatedAt: Time,
    color: Option<string>,
    tags: Option<seq<string>>,
    userId: string,
    body: Body)

  /** `value || fallback` on a string: undefined and the empty string are falsy. */
  function OrString(value: Option<string>, fallback: string): string {
    if value.Some? && value.value != "" then value.value else fallback
  }

  /** What the constructors build: the field defaults of NoteModel and of the
      subclass chosen by `kind`. Arrays and dates are never falsy. */
  function Construct(kind: NoteType, data: NoteData, freshId: string, now: Time): (st: ModelState)
    ensures st.body.Kind() == kind
    ensures data.title.None? || data.title == Some("") ==> st.title == "Untitled Note"
    ensures data.tags.None? ==> st.tags == Some([])
    ensures data.userId.None? ==> st.userId == ""
    ensures st.body == TextBody("") <== kind == Text && data.content.None?
    ensures st.body == TodoBody([], []) <== kind == Todo && data.items.None? && data.assignedUsers.None?
    ensures st.body == ImageBody("", "") <== kind == Image && data.imageUrl.None? && data.caption.None?
    ensures st.id == OrString(data.id, freshId) && st.title == OrString(data.title, "Untitled Note")
    ensures st.createdAt == data.createdAt.GetOr(now) && st.updatedAt == data.updatedAt.GetOr(now)
    ensures st.color == data.color && st.tags == Some(data.tags.GetOr([])) && st.userId == OrString(data.userId, "")
    ensures kind == Text ==> st.body.content == OrString(data.content, "")
    ensures kind == Todo ==> st.body.items == data.items.GetOr([]) && st.body.assignedUsers == data.assignedUsers.GetOr([])
    ensures kind == Image ==> st.body.imageUrl == OrString(data.imageUrl, "") && st.body.caption == OrString(data.caption, "")
  {
    ModelState(
      OrString(data.id, freshId),
      OrString(data.title, "Untitled Note"),
      data.createdAt.GetOr(now),
      data.updatedAt.GetOr(now),
      data.color,
      Some(data.tags.GetOr([])),
      OrString(data.userId, ""),
      match kind
      case Text => TextBody(OrString(data.content, ""))
      case Todo => TodoBody(data.items.GetOr([]), data.assignedUsers.GetOr([]))
      case Image => ImageBody(OrString(data.imageUrl, ""), OrString(data.caption, "")))
  }

  /** What `toJSON` emits: the base fields, the type tag, and exactly the
      payload of the variant. */
  function Serialize(st: ModelState): (n: Note)
    ensures n.Type() == st.body.Kind()
    ensures n.id == st.id && n.title == st.title && n.userId == st.userId
    ensures n.createdAt == st.createdAt && n.updatedAt == st.updatedAt
    ensures n.color == st.color && n.tags == st.tags && n.completed.None?
    ensures st.body.TextBody? ==> n.payload == TextPayload(st.body.content)
    ensures st.body.TodoBody? ==> n.payload == TodoPayload(st.body.items, Some(st.body.assignedUsers))
    ensures st.body.ImageBody? ==> n.payload == ImagePayload(st.body.imageUrl, Some(st.body.caption))
  {
    NoteRecord(st.id, st.title, st.createdAt, st.updatedAt, st.userId, st.color, st.tags, None,
      match st.body
      case TextBody(content) => TextPayload(content)
      case TodoBody(items, users) => TodoPayload(items, Some(users))
      case ImageBody(url, caption) => ImagePayload(url, Some(caption)))
  }

  /** A plain note record read back as constructor data. */
  function DataOf(n: Note): NoteData {
    NoteData(Some(n.id), Some(n.title), Some(n.createdAt), Some(n.updatedAt), n.color, n.tags, Some(n.userId),
      if n.payload.TextPayload? then Some(n.payload.content) else None,
      if n.payload.TodoPayload? then Some(n.payload.items) else None,
      if n.payload.TodoPayload? then n.payload.assignedUsers else None,
      if n.payload.ImagePayload? then Some(n.payload.imageUrl) else None,
      if n.payload.ImagePayload? then n.payload.caption else None)
  }

  /** Rebuilding an object from its own `toJSON` gives the same fields, as long
      as no field relies on a falsy value: an empty id or title would be
      replaced by a fresh id or 'Untitled Note', and undefined tags by []. */
  lemma ConstructSerializeRoundTrip(st: ModelState, freshId: string, now: Time)
    requires st.id != "" && st.title != "" && st.tags.Some?
    ensures Construct(st.body.Kind(), DataOf(Serialize(st)), freshId, now) == st
  {
  }

  /** An empty title does not survive the round trip. */
  lemma EmptyTitleIsReplaced(st: ModelState, freshId: string, now: Time)
    requires st.title == ""
    ensures Construct(st.body.Kind(), DataOf(Serialize(st)), freshId, now).title == "Untitled Note"
  {
  }

  /** The tag list after `addTag`. */
  function WithTag(tags: seq<string>, tag: string): (r: seq<string>)
    ensures tag in r
    ensures forall t :: t in tags ==> t in r
    ensures tag in tags ==> r == tags
    ensures tag !in tags ==> r == tags + [tag]
  {
    if tag in tags then tags else tags + [tag]
  }

  function IsNotTag(tag: string): string -> bool {
    t => t != tag
  }

  /** The tag list after `removeTag`: `tags.filter(t => t !== tag)`. */
  function WithoutTag(tags: seq<string>, tag: string): seq<string> {
    Seqs.Filter(tags, IsNotTag(tag))
  }

  predicate NoDuplicates(tags: seq<string>) {
    forall i, j :: 0 <= i < j < |tags| ==> tags[i] != tags[j]
  }

  /** Adding a tag twice is adding it once. */
  lemma WithTagIdempotent(tags: seq<string>, tag: string)
    ensures WithTag(WithTag(tags, tag), tag) == WithTag(tags, tag)
  {
  }

  /** Adding tags never introduces a duplicate. */
  lemma WithTagKeepsDistinct(tags: seq<string>, tag: string)
    requires NoDuplicates(tags)
    ensures NoDuplicates(WithTag(tags, tag))
  {
  }

  /** After removing a tag no occurrence is left and every other tag remains;
      removing an absent tag leaves the list as it was. */
  lemma WithoutTagSpec(tags: seq<string>, tag: string)
    ensures tag !in WithoutTag(tags, tag)
    ensures forall t :: t in tags && t != tag ==> t in WithoutTag(tags, tag)
    ensures tag !in tags ==> WithoutTag(tags, tag) == tags
  {
    var r := WithoutTag(tags, tag);
    forall i | 0 <= i < |r| ensures r[i] != tag {
      assert IsNotTag(tag)(r[i]);
    }
    forall t | t in tags && t != tag ensures t in r {
      var i :| 0 <= i < |tags| && tags[i] == t;
      assert IsNotTag(tag)(tags[i]);
    }
    if tag !in tags {
      Seqs.FilterKeepsAll(tags, IsNotTag(tag));
    }
  }

  /** Removing a tag that was just added to a list without it restores the list. */
  lemma RemoveUndoesAdd(tags: seq<string>, tag: string)
    requires tag !in tags
    ensures WithoutTag(WithTag(tags, tag), tag) == tags
  {
    Seqs.FilterSnoc(tags, tag, IsNotTag(tag));
    WithoutTagSpec(tags, tag);
  }

  class NoteModel {
    var id: string
    var title: string
    var createdAt: Time
    var updatedAt: Time
    var color: Option<string>
    var tags: Option<seq<string>>
    var userId: string
    var body: Body

    /** All fields as a value. */
    function State(): ModelState
      reads this
    {
      ModelState(id, title, createdAt, updatedAt, color, tags, userId, body)
    }

    /** `new TextNoteModel(data)`, `new TodoNoteModel(data)` or
        `new ImageNoteModel(data)`, chosen by `kind`. */
    constructor (kind: NoteType, data: NoteData, freshId: string, now: Time)
      ensures State() == Construct(kind, data, freshId, now)
    {
      var st := Construct(kind, data, freshId, now);
      id, title, createdAt, updatedAt := st.id, st.title, st.createdAt, st.updatedAt;
      color, tags, userId, body := st.color, st.tags, st.userId, st.body;
    }

    /** `getType()` */
    function GetType(): (t: NoteType)
      reads this
      ensures t == Serialize(State()).Type()
    {
      body.Kind()
    }

    method UpdateTitle(newTitle: string, now: Time)
      modifies this`title, this`updatedAt
      ensures State() == old(State()).(title := newTitle, updatedAt := now)
    {
      title := newTitle;
      updatedAt := now;
    }

    /** Appends the tag only when absent; only then is `updatedAt` bumped. */
    method AddTag(tag: string, now: Time)
      modifies this`tags, this`updatedAt
      ensures tags == Some(WithTag(old(tags).GetOr([]), tag))
      ensures updatedAt == if old(tags).Some? && tag in old(tags).value then old(updatedAt) else now
      ensures State() == old(State()).(tags := tags, updatedAt := updatedAt)
    {
      if tags.None? {
        tags := Some([]);
      }
      if tag !in tags.value {
        tags := Some(tags.value + [tag]);
        updatedAt := now;
      }
    }

    /** Removes every occurrence; bumps `updatedAt` whenever the list exists,
        whether or not the tag was in it. */
    method RemoveTag(tag: string, now: Time)
      modifies this`tags, this`updatedAt
      ensures old(tags).None? ==> State() == old(State())
      ensures old(tags).Some? ==> State() == old(State()).(tags := Some(WithoutTag(old(tags).value, tag)), updatedAt := now)
    {
      if tags.Some? {
        tags := Some(WithoutTag(tags.value, tag));
        updatedAt := now;
      }
    }

    method SetColor(newColor: string, now: Time)
      modifies this`color, this`updatedAt
      ensures State() == old(State()).(color := Some(newColor), updatedAt := now)
    {
      color := Some(newColor);
      updatedAt := now;
    }

    /** TextNoteModel.updateContent */
    method UpdateContent(content: string, now: Time)
      requires body.TextBody?
      modifies this`body, this`updatedAt
      ensures State() == old(State()).(body := TextBody(content), updatedAt := now)
    {
      body := TextBody(content);
      updatedAt := now;
    }

    /** TodoNoteModel.addItem: `itemId` stands for the fresh UUID. */
    method AddItem(text: string, itemId: string, now: Time)
      requires body.TodoBody?
      modifies this`body, this`updatedAt
      ensures State() == old(State()).(body := old(body).(items := TodoItems.AppendItem(old(body).items, itemId, text)), updatedAt := now)
    {
      body := body.(items := body.items + [TodoItem(itemId, text, false)]);
      updatedAt := now;
    }

    /** TodoNoteModel.toggleItem: flips the first item with the id; nothing
        changes, `updatedAt` included, when no item has it. */
    method ToggleItem(itemId: string, now: Time)
      requires body.TodoBody?
      modifies this`body, this`updatedAt
      ensures body == old(body).(items := TodoItems.ToggleFirst(old(body).items, itemId))
      ensures updatedAt == if exists i :: 0 <= i < |old(body).items| && old(body).items[i].id == itemId then now else old(updatedAt)
      ensures State() == old(State()).(body := body, updatedAt := updatedAt)
    {
      var k := Seqs.FindIndex(body.items, ItemHasId(itemId));
      if k != -1 {
        var item := body.items[k];
        body := body.(items := body.items[k := item.(completed := !item.completed)]);
        updatedAt := now;
      } else {
        assert forall i :: 0 <= i < |body.items| ==> !ItemHasId(itemId)(body.items[i]);
      }
    }

    /** TodoNoteModel.removeItem: always bumps `updatedAt`. */
    method RemoveItem(itemId: string, now: Time)
      requires body.TodoBody?
      modifies this`body, this`updatedAt
      ensures State() == old(State()).(body := old(body).(items := TodoItems.RemoveAll(old(body).items, itemId)), updatedAt := now)
    {
      body := body.(items := TodoItems.RemoveAll(body.items, itemId));
      updatedAt := now;
    }

    /** ImageNoteModel.updateCaption */
    method UpdateCaption(caption: string, now: Time)
      requires body.ImageBody?
      modifies this`body, this`updatedAt
      ensures State() == old(State()).(body := old(body).(caption := caption), updatedAt := now)
    {
      body := body.(caption := caption);
      updatedAt := now;
    }

    /** `toJSON()` of the subclass matching the body. */
    function ToJSON(): (n: Note)
      reads this
      ensures n.id == id && n.title == title && n.userId == userId && n.createdAt == createdAt && n.updatedAt == updatedAt
      ensures n.color == color && n.tags == tags && n.completed.None? && n.Type() == body.Kind()
      ensures body.TextBody? ==> n.payload == TextPayload(body.content)
      ensures body.TodoBody? ==> n.payload == TodoPayload(body.items, Some(body.assignedUsers))
      ensures body.ImageBody? ==> n.payload == ImagePayload(body.imageUrl, Some(body.caption))
      ensures Construct(n.Type(), DataOf(n), id, updatedAt) == State() <== id != "" && title != "" && tags.Some?
    {
      var st := State();
      if id != "" && title != "" && tags.Some? then
        ConstructSerializeRoundTrip(st, id, updatedAt);
        Serialize(st)
      else
        Serialize(st)
    }
  }
}
