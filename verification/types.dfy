/** The records of the application: notes in three variants, their checklist
    items, users and sessions (src/types/Note.ts and src/types/User.ts). */
module Types {
  import opened Wrappers

  /** Milliseconds since the epoch: every `Date` of the application. */
  type Time = int

  /** The three note kinds. */
  datatype NoteType = Text | Todo | Image

  /** The string tag a NoteType is written as (`'text' | 'todo' | 'image'`). */
  function TypeName(t: NoteType): string {
    match t
    case Text => "text"
    case Todo => "todo"
    case Image => "image"
  }

  /** Reads a type tag; None for any string that is not one of the three tags. */
  function ParseNoteType(s: string): (r: Option<NoteType>)
    ensures r.Some? <==> s in {"text", "todo", "image"}
  {
    if s == "text" then Some(Text)
    else if s == "todo" then Some(Todo)
    else if s == "image" then Some(Image)
    else None
  }

  /** The tags name exactly the three kinds, one tag per kind. */
  lemma TypeNameRoundTrip(t: NoteType, s: string)
    ensures ParseNoteType(TypeName(t)) == Some(t)
    ensures ParseNoteType(s) == Some(t) ==> TypeName(t) == s
  {
  }

  /** One checklist entry. */
  datatype TodoItem = TodoItem(id: string, text: string, completed: bool)

  /** The variant-specific fields of a note. */
  datatype Payload =
    | TextPayload(content: string)
    | TodoPayload(items: seq<TodoItem>, assignedUsers: Option<seq<string>>)
    | ImagePayload(imageUrl: string, caption: Option<string>)

  /** A note whose dates have type D: `Time` for live notes, `string` for notes
      as they are stored as text. `completed` is set only by the note list's
      completion toggle and the edit dialog, so it may be undefined. */
  datatype NoteRecord<D> = NoteRecord(
    id: string,
    title: string,
    createdAt: D,
    updatedAt: D,
    userId: string,
    color: Option<string>,
    tags: Option<seq<string>>,
    completed: Option<bool>,
    payload: Payload)
  {
    /** The `type` discriminant, determined by the payload. */
    function Type(): NoteType {
      match payload
      case TextPayload(_) => Text
      case TodoPayload(_, _) => Todo
      case ImagePayload(_, _) => Image
    }
  }

  type Note = NoteRecord<Time>

  /** A note in the archive list: the note plus `archivedAt`. */
  datatype ArchivedNote = ArchivedNote(note: Note, archivedAt: Time)

  /** An account; `password` holds the digest, never the password. */
  datatype User = User(id: string, username: string, email: string, password: string)

  /** A login session with the user it was issued to embedded. The two times
      stand for the ISO strings of the source. */
  datatype Session = Session(id: string, userId: string, user: User, createdAt: Time, expiresAt: Time)

  /** A user without the password field. */
  datatype UserPublic = UserPublic(id: string, username: string, email: string)

  function ToPublic(u: User): (p: UserPublic)
    ensures p.id == u.id && p.username == u.username && p.email == u.email
  {
    UserPublic(u.id, u.username, u.email)
  }

  /** Two users that differ only in the password have the same public view. */
  lemma PublicIgnoresPassword(u: User, password: string)
    ensures ToPublic(u.(password := password)) == ToPublic(u)
  {
  }

  /** A session whose embedded user is the one its `userId` names. */
  predicate Coherent(s: Session) {
    s.user.id == s.userId
  }

  /** Notes with the given id (`note => note.id === id`). */
  function HasId(id: string): Note -> bool {
    (n: Note) => n.id == id
  }

  /** Notes with another id (`note => note.id !== id`). */
  function LacksId(id: string): Note -> bool {
    (n: Note) => n.id != id
  }

  /** Checklist items with the given id. */
  function ItemHasId(id: string): TodoItem -> bool {
    (item: TodoItem) => item.id == id
  }

  /** Checklist items with another id. */
  function ItemLacksId(id: string): TodoItem -> bool {
    (item: TodoItem) => item.id != id
  }
}
