/** The note factory and the per-user note storage of
    src/services/NoteService.ts. Browser storage is a map from keys to
    strings; JSON text and ISO dates are a codec passed in. */
module NoteService {
  import opened Wrappers
  import opened Types
  import Seqs

  const NotesKeyPrefix := "noteflow-notes-"

  /** The storage key of a user's notes. */
  function NotesKey(userId: string): (k: string)
    ensures |k| == |NotesKeyPrefix| + |userId|
    ensures k[..|NotesKeyPrefix|] == NotesKeyPrefix && k[|NotesKeyPrefix|..] == userId
  {
    NotesKeyPrefix + userId
  }

  /** Each user has a key of their own. */
  lemma NotesKeyInjective(a: string, b: string)
    ensures NotesKey(a) == NotesKey(b) <==> a == b
  {
    if NotesKey(a) == NotesKey(b) {
      assert a == NotesKey(a)[|NotesKeyPrefix|..];
    }
  }

  /** The empty payload of each kind. */
  function EmptyPayload(t: NoteType): (p: Payload)
    ensures t == Text ==> p == TextPayload("")
    ensures t == Todo ==> p == TodoPayload([], Some([]))
    ensures t == Image ==> p == ImagePayload("", Some(""))
  {
    match t
    case Text => TextPayload("")
    case Todo => TodoPayload([], Some([]))
    case Image => ImagePayload("", Some(""))
  }

  /** A fresh note of the given kind: `id` is the generated id and `now` the
      clock value stamped on both dates. */
  function NewNote(t: NoteType, userId: string, id: string, now: Time): (n: Note)
    ensures n.Type() == t && n.id == id && n.userId == userId
    ensures n.title == "" && n.tags == Some([]) && n.color.None? && n.completed.None?
    ensures n.createdAt == now && n.updatedAt == now
    ensures n.payload == EmptyPayload(t)
  {
    NoteRecord(id, "", now, now, userId, None, Some([]), None, EmptyPayload(t))
  }

  const UnknownTypeMessage := "Neznámý typ poznámky: "

  /** `createNote`: the type arrives as a string at run time; anything other
      than the three tags reaches the default branch and raises. */
  function CreateNote(typeName: string, userId: string, id: string, now: Time): (r: Result<Note, string>)
    ensures r.Ok? <==> typeName in {"text", "todo", "image"}
    ensures r.Ok? ==> TypeName(r.value.Type()) == typeName && r.value == NewNote(r.value.Type(), userId, id, now)
    ensures r.Err? ==> r.error == UnknownTypeMessage + typeName
  {
    match ParseNoteType(typeName)
    case Some(t) =>
      TypeNameRoundTrip(t, typeName);
      Ok(NewNote(t, userId, id, now))
    case None => Err(UnknownTypeMessage + typeName)
  }

  /** Every kind can be created, and the created note carries that kind. */
  lemma CreateEveryKind(t: NoteType, userId: string, id: string, now: Time)
    ensures CreateNote(TypeName(t), userId, id, now) == Ok(NewNote(t, userId, id, now))
  {
    TypeNameRoundTrip(t, TypeName(t));
  }

  /** The same note with its two dates converted by f. */
  function ChangeDates<D, E>(n: NoteRecord<D>, f: D -> E): NoteRecord<E> {
    NoteRecord(n.id, n.title, f(n.createdAt), f(n.updatedAt), n.userId, n.color, n.tags, n.completed, n.payload)
  }

  /** Two notes that agree on everything except, possibly, the dates. */
  predicate SameExceptDates<D, E>(a: NoteRecord<D>, b: NoteRecord<E>) {
    && a.id == b.id && a.title == b.title && a.userId == b.userId && a.color == b.color
    && a.tags == b.tags && a.completed == b.completed && a.payload == b.payload
  }

  /** Browser storage: keys to strings. */
  type Storage = map<string, string>

  /** JSON text of note lists and the ISO text of dates. `parse` yields None
      where `JSON.parse` throws or its result is not a list of notes. */
  datatype Codec = Codec(
    stringify: seq<NoteRecord<string>> -> string,
    parse: string -> Option<seq<NoteRecord<string>>>,
    toIso: Time -> string,
    fromIso: string -> Time)

  /** `getNotes`: an absent or empty entry and unreadable text all give the
      empty list; otherwise every stored note comes back in order with its
      two dates read back. */
  function GetNotes(storage: Storage, codec: Codec, userId: string): (r: seq<Note>)
    ensures NotesKey(userId) !in storage || storage[NotesKey(userId)] == "" ==> r == []
    ensures NotesKey(userId) in storage && codec.parse(storage[NotesKey(userId)]).None? ==> r == []
    ensures NotesKey(userId) in storage && storage[NotesKey(userId)] != "" ==>
              match codec.parse(storage[NotesKey(userId)])
              case Some(stored) => |r| == |stored| && forall i :: 0 <= i < |r| ==>
                                     SameExceptDates(r[i], stored[i])
                                     && r[i].createdAt == codec.fromIso(stored[i].createdAt)
                                     && r[i].updatedAt == codec.fromIso(stored[i].updatedAt)
              case None => r == []
  {
    var key := NotesKey(userId);
    if key !in storage || storage[key] == "" then []
    else match codec.parse(storage[key])
      case None => []
      case Some(stored) => Seqs.Map(stored, (n: NoteRecord<string>) => ChangeDates(n, codec.fromIso))
  }

  /** `saveNotes`: writes the JSON text of the list under the user's key. */
  function SaveNotes(storage: Storage, codec: Codec, userId: string, notes: seq<Note>): (r: Storage)
    ensures r.Keys == storage.Keys + {NotesKey(userId)}
    ensures forall k :: k in storage && k != NotesKey(userId) ==> r[k] == storage[k]
  {
    storage[NotesKey(userId) := codec.stringify(Seqs.Map(notes, (n: Note) => ChangeDates(n, codec.toIso)))]
  }

  /** A codec that reads back what it writes, for this note list. */
  predicate RoundTrips(codec: Codec, notes: seq<Note>) {
    var text := Seqs.Map(notes, (n: Note) => ChangeDates(n, codec.toIso));
    && codec.stringify(text) != ""
    && codec.parse(codec.stringify(text)) == Some(text)
    && forall i :: 0 <= i < |notes| ==>
         codec.fromIso(codec.toIso(notes[i].createdAt)) == notes[i].createdAt
         && codec.fromIso(codec.toIso(notes[i].updatedAt)) == notes[i].updatedAt
  }

  /** Reading a user's notes after saving them gives the saved list. */
  lemma SaveThenGet(storage: Storage, codec: Codec, userId: string, notes: seq<Note>)
    requires RoundTrips(codec, notes)
    ensures GetNotes(SaveNotes(storage, codec, userId, notes), codec, userId) == notes
  {
    var r := GetNotes(SaveNotes(storage, codec, userId, notes), codec, userId);
    assert |r| == |notes|;
    forall i | 0 <= i < |notes| ensures r[i] == notes[i] {
    }
  }

  /** Saving one user's notes leaves every other user's notes as they were. */
  lemma SaveIsolated(storage: Storage, codec: Codec, userId: string, other: string, notes: seq<Note>)
    requires userId != other
    ensures GetNotes(SaveNotes(storage, codec, userId, notes), codec, other) == GetNotes(storage, codec, other)
  {
    NotesKeyInjective(userId, other);
  }
}
