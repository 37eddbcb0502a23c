# NoteFlow core, modelled in Dafny

This project models the core logic of NoteFlow, a browser note-taking app.
Its notes come in three kinds: text, todo (a checklist) and image.

What is modelled:

- **Note store** (`UseNotes.NoteStore`). This is the `useNotes` hook. It holds:
  - the active and archived note lists;
  - the selected note and the creation form;
  - a single todo-item edit cursor;
  - the edit-dialog state and the two drag flags.

  Every handler is a method that states the store's new state. The list
  transformations the handlers apply are functions beside the class, and
  their properties are lemmas.
- **Note classes** (`NoteModels.NoteModel`). The three subclasses of
  `NoteModel` become one class whose variant part is a tagged union. Every
  mutator stamps `updatedAt` with a clock value passed in.
- **Note factory and per-user storage** (`NoteService`). Browser storage is a
  map from keys to strings. JSON text and ISO dates are a codec parameter.
- **Account and session tables** (`Auth.AuthService`): register, login,
  logout, session lookup and user lookup.
- **Security helpers** (`Security`): the HTML-entity sanitiser, the three
  regular-expression validators, and password hashing over an uninterpreted
  SHA-256.
- **Component logic**:
  - the edit dialog (`NoteEditModal`);
  - the creation form's checklist rows (`NoteForm`);
  - the categories page (`Categories`);
  - the statistics page (`Stats`).
- **Records** (`Types`): notes, checklist items, users and sessions.

Shared helper modules:

- `Wrappers`: Option and Result.
- `Seqs`: filter, first match, and the splice-based move.
- `JsStrings`: JavaScript's `trim`, whitespace set and `toLowerCase`.

Ids, clock values and the digest function are parameters of the operations
that need them.

Behaviours of the code worth noting, each captured by the model:

- **Dropping a note** splices the dragged note out and reinserts it at the
  target's original index. So a note dragged from an earlier position lands
  *after* the target, not before it (`UseNotes.ReorderLanding`).
- **Saving a todo-item edit** with blank text returns early. The edit cursor
  stays set rather than being cleared (`UseNotes.NoteStore.SaveTodoItemEdit`).
- **`removeTag`** bumps `updatedAt` whenever the tag list exists, even when the
  tag was not in it (`NoteModels.NoteModel.RemoveTag`).
- **The save effect** does not write an empty note list. After every note is
  deleted, a reload shows the last non-empty list again
  (`UseNotes.EmptiedListReappears`).
- **The category duplicate check** compares the untrimmed input, but the
  category is created with the trimmed name. So `"Práce "` passes the check and
  creates a second `Práce` (`Categories.TrailingSpaceNotTaken`).

## Model

| member | source | states |
|---|---|---|
| `Types.ParseNoteType` | src/types/Note.ts:13 | A type tag is accepted exactly when it is one of `text`, `todo`, `image` |
| `Types.TypeNameRoundTrip` | src/types/Note.ts:13 | Each kind has one tag and each tag names one kind: parsing a kind's tag gives the kind back, and a tag that parses to a kind is that kind's tag |
| `Types.ToPublic` | src/types/User.ts:29 | The public view keeps id, username and email |
| `Types.PublicIgnoresPassword` | src/types/User.ts:29 | The public view does not depend on the password |
| `TodoItems.ToggleAll` | src/components/NoteEditModal.tsx:81-85 | Only items with the id have `completed` flipped, keeping their id and text; the length and all other items are unchanged |
| `TodoItems.SetTextAll` | src/components/NoteEditModal.tsx:75-79 | Only items with the id get the new text, as given; their id and flag are kept, the length and all other items are unchanged |
| `TodoItems.AppendItem` | src/models/Note.ts:107-114 | Exactly one not-completed item with the given id and text is appended after the unchanged list |
| `TodoItems.ToggleAllInvolution` | src/components/NoteEditModal.tsx:81-85 | Toggling the same id twice restores the list |
| `TodoItems.RemoveAllSpec` | src/components/NoteEditModal.tsx:87-89 | After deletion, no item with the id remains and every other item is kept; an absent id changes nothing |
| `TodoItems.ToggleFirst` | src/models/Note.ts:116-122 | Flipping the first match keeps the list's length |
| `TodoItems.ToggleFirstIsToggleAll` | src/models/Note.ts:116-122 | With unique ids, flipping the first match (the class) and flipping every match (the hook and the dialog) agree |
| `TodoItems.ToggleFirstAbsent` | src/models/Note.ts:116-122 | Flipping the first match of an absent id changes nothing |
| `TodoItems.ToggleFirstPresent` | src/models/Note.ts:116-122 | Flipping the first match flips exactly the item at the first index with the id |
| `Security.VerifyOwnHash` | src/utils/security.ts:11-24 | A password verifies against its own salted hash |
| `Security.VerifyOnlyOwnHash` | src/utils/security.ts:11-24 | With a collision-free digest, a password verifies against a hash exactly when it is the hashed password |
| `Security.SanitizeIsEscapeEach` | src/utils/security.ts:36-44 | Because `&` is replaced first, the six chained replaces escape each input character on its own into exactly one entity |
| `Security.EscapeEachIsSafe` | src/utils/security.ts:38-43 | Per-character escaping produces none of `< > " ' /` |
| `Security.EscapeEachLength` | src/utils/security.ts:38-43 | Escaping never shortens a string, and lengthens it exactly when a special character occurs |
| `Security.SanitizedIsSafe` | src/utils/security.ts:36-44 | The sanitiser's output contains none of `< > " ' /` |
| `Security.SanitizeFixedPoints` | src/utils/security.ts:36-44 | The sanitiser leaves a string unchanged exactly when it contains none of `& < > " ' /` |
| `Security.EscapeEachIdentity` | src/utils/security.ts:38-43 | A string without special characters escapes to itself |
| `Security.EscapeEachKeepsAmp` | src/utils/security.ts:38-43 | Every special character in the input leaves an `&` in the output |
| `Security.SanitizedWithoutAmp` | src/utils/security.ts:36-44 | Output without an `&` means the input was returned unchanged |
| `Security.SanitizeNotIdempotent` | src/utils/security.ts:38-43 | On any input with a special character, sanitising twice differs from sanitising once (the produced `&` is escaped again) |
| `Security.ValidateUsername` | src/utils/security.ts:67-70 | Holds exactly when the length is 3 to 20 and every character is an ASCII letter, digit or `_` |
| `Security.ValidatePassword` | src/utils/security.ts:57-62 | Holds exactly when the length is at least 8, every character is an ASCII letter or digit, and there is a lowercase letter, an uppercase letter and a digit |
| `Security.DomainMatches` | src/utils/security.ts:49-52 | The part after the `@` holds no whitespace or `@`, and has a `.` that is neither its first nor its last character |
| `Security.EmailCharacterisation` | src/utils/security.ts:49-52 | The email check holds exactly when the string has no whitespace, exactly one `@`, a non-empty part before it, and after it a `.` that is neither first nor last |
| `NoteModels.Construct` | src/models/Note.ts:14-147 | Every field is the data's value unless that value is falsy: an absent id becomes the fresh id, an absent or empty title `Untitled Note`, absent dates the clock value, absent tags `[]`, absent userId `''`; the colour is kept. Each kind's own fields default field by field: content `''`, items and assigned users `[]`, image URL and caption `''` |
| `NoteModels.Serialize` | src/models/Note.ts:51-62 | `toJSON` emits the variant's type tag, the base fields unchanged, no completion flag, and exactly the variant's payload: the text content, the items with the assigned users, or the image URL with its caption |
| `NoteModels.ConstructSerializeRoundTrip` | src/models/Note.ts:83-89 | Rebuilding an object from its own `toJSON` gives the same fields, when the id and title are non-empty and tags exist |
| `NoteModels.EmptyTitleIsReplaced` | src/models/Note.ts:16 | An empty title does not survive that round trip: it comes back as `Untitled Note` |
| `NoteModels.WithTag` | src/models/Note.ts:31-37 | The tag is present afterwards and every old tag is kept; a present tag leaves the list as it was, an absent one is appended once |
| `NoteModels.WithTagIdempotent` | src/models/Note.ts:31-37 | Adding a tag twice is adding it once |
| `NoteModels.WithTagKeepsDistinct` | src/models/Note.ts:31-37 | Adding a tag never introduces a duplicate |
| `NoteModels.WithoutTagSpec` | src/models/Note.ts:39-44 | After removal, no occurrence of the tag is left and every other tag remains; an absent tag leaves the list as it was |
| `NoteModels.RemoveUndoesAdd` | src/models/Note.ts:31-44 | Removing a tag just added to a list without it restores the list |
| `NoteModels.NoteModel.constructor` | src/models/Note.ts:14-22 | The new object's fields are those the constructors build for the kind and data |
| `NoteModels.NoteModel.GetType` | src/models/Note.ts:24 | `getType()` is the type tag `toJSON` emits |
| `NoteModels.NoteModel.UpdateTitle` | src/models/Note.ts:26-29 | Only the title and `updatedAt` change |
| `NoteModels.NoteModel.AddTag` | src/models/Note.ts:31-37 | A present tag changes neither the tags nor `updatedAt`; an absent one is appended once and `updatedAt` is bumped; a missing list is created |
| `NoteModels.NoteModel.RemoveTag` | src/models/Note.ts:39-44 | With a tag list, every occurrence is removed and `updatedAt` is bumped even if the tag was absent; without one, nothing changes |
| `NoteModels.NoteModel.SetColor` | src/models/Note.ts:46-49 | Only the colour and `updatedAt` change |
| `NoteModels.NoteModel.UpdateContent` | src/models/Note.ts:78-81 | Only a text note's content and `updatedAt` change |
| `NoteModels.NoteModel.AddItem` | src/models/Note.ts:107-114 | Exactly one not-completed item with the text is appended and `updatedAt` is bumped; nothing else changes |
| `NoteModels.NoteModel.ToggleItem` | src/models/Note.ts:116-122 | The first item with the id is flipped and `updatedAt` bumped; an absent id changes neither the items nor `updatedAt` |
| `NoteModels.NoteModel.RemoveItem` | src/models/Note.ts:124-127 | Every item with the id is removed, the rest keep their order, and `updatedAt` is always bumped |
| `NoteModels.NoteModel.UpdateCaption` | src/models/Note.ts:154-157 | Only an image note's caption and `updatedAt` change |
| `NoteModels.NoteModel.ToJSON` | src/models/Note.ts:129-136 | The emitted record carries the object's base fields and exactly its variant payload; with a non-empty id and title and a tag list, rebuilding from it gives the object's fields back |
| `NoteService.NotesKey` | src/services/NoteService.ts:15 | A user's key is `noteflow-notes-` followed by the user id |
| `NoteService.NotesKeyInjective` | src/services/NoteService.ts:97-99 | Two users share a key exactly when they are the same user |
| `NoteService.EmptyPayload` | src/services/NoteService.ts:36-55 | Text gets content `''`; todo gets no items and no assigned users; image gets url `''` and caption `''` |
| `NoteService.NewNote` | src/services/NoteService.ts:24-34 | A new note has the requested kind, the given id and user, an empty title, no tags, no colour, both dates equal to the clock value, and its kind's empty payload |
| `NoteService.CreateNote` | src/services/NoteService.ts:24-59 | Succeeds exactly for the three type tags, with a new note of that kind; any other string is rejected with the unknown-type message naming it |
| `NoteService.CreateEveryKind` | src/services/NoteService.ts:36-55 | Every kind can be created, and the created note carries that kind |
| `NoteService.GetNotes` | src/services/NoteService.ts:75-90 | An absent or empty entry and unreadable text give `[]`; otherwise the stored notes come back in order and in number, only their two dates converted |
| `NoteService.SaveNotes` | src/services/NoteService.ts:97-99 | Writes the user's key and no other |
| `NoteService.SaveThenGet` | src/services/NoteService.ts:75-99 | Reading a user's notes after saving them gives the saved list, for a codec that reads back what it writes |
| `NoteService.SaveIsolated` | src/services/NoteService.ts:75-99 | Saving one user's notes leaves every other user's notes as they were |
| `Auth.TestUser` | src/services/AuthService.ts:25-34 | The seeded account is id `1`, `test@example.com`, username `test`, and its stored hash verifies `Test123456` |
| `Auth.Registration` | src/services/AuthService.ts:65-109 | Succeeds exactly when the sanitised username, email and password are valid and neither the email nor the username is taken. Each failing check gives its own error, checked in the source order: username, email, password, then the email duplicate before the username duplicate. A new account has the new id, the sanitised fields, and the hash of the sanitised password |
| `Auth.RegisteredAsTyped` | src/services/AuthService.ts:67-82 | A registered username and password are stored as typed: the validators admit no character the sanitiser would rewrite |
| `Auth.RegistrationKeepsDistinct` | src/services/AuthService.ts:85-105 | A successful registration keeps emails and usernames unique |
| `Auth.Authenticate` | src/services/AuthService.ts:117-144 | A malformed email is its own error; an unknown email and a wrong password give the same error. Login succeeds exactly when the email is well formed and the first account with it verifies the password, and then yields that account |
| `Auth.RegisterThenLogin` | src/services/AuthService.ts:65-144 | The account just registered logs in with the same email and password |
| `Auth.RegisterTwiceRefused` | src/services/AuthService.ts:85-88 | Registering an email a second time is refused, whatever the other fields |
| `Auth.SessionLookup` | src/services/AuthService.ts:177-189 | An unknown session id gives nothing. Otherwise the first session with the id is returned, re-joined to the first account its `userId` names; when that account is missing, nothing is returned |
| `Auth.LoginThenLookup` | src/services/AuthService.ts:147-189 | A session issued for an existing account under an unused id is found again, for that account |
| `Auth.LogoutSpec` | src/services/AuthService.ts:167-170 | After logout the session id is no longer found, every other session is kept, and an unknown id changes nothing |
| `Auth.AuthService.constructor` | src/services/AuthService.ts:25-48 | The user table is the seeded account alone; the sessions are those stored earlier, or none |
| `Auth.AuthService.Register` | src/services/AuthService.ts:65-109 | On success exactly the new account is appended and returned; on failure the table is unchanged; emails and usernames stay unique |
| `Auth.AuthService.Login` | src/services/AuthService.ts:117-160 | On success one session for the account, expiring 86,400,000 ms after creation, is appended and returned; on failure the sessions are unchanged; users are never touched |
| `Auth.AuthService.Logout` | src/services/AuthService.ts:167-170 | Every session with the id is removed and the others are kept |
| `Auth.AuthService.GetSession` | src/services/AuthService.ts:177-189 | The lookup over the service's own tables; a returned session embeds an existing account, the one its `userId` names |
| `Auth.AuthService.GetUser` | src/services/AuthService.ts:196-198 | Nothing exactly when no account has the id; otherwise the first account with that id |
| `NoteEditModal.EmptyToNone` | src/components/NoteEditModal.tsx:110 | An empty string becomes undefined and any other string is kept |
| `NoteEditModal.Loaded` | src/components/NoteEditModal.tsx:46-61 | Loading a note fills the title, flag, category and its own kind's fields from the note, and leaves the other kinds' fields as they were; no note changes no field |
| `NoteEditModal.SaveResult` | src/components/NoteEditModal.tsx:104-126 | Nothing without a note or with a blank title. Otherwise: the original id, kind, creation date, user and tags; the trimmed title; an empty category or caption becomes undefined; the clock value as `updatedAt`; only the note's own kind's payload |
| `NoteEditModal.OpenThenSave` | src/components/NoteEditModal.tsx:46-126 | Opening a note and saving it untouched gives back the note with only `updatedAt` restamped, given a trimmed title and no empty category or caption |
| `NoteEditModal.NoteEditModal.constructor` | src/components/NoteEditModal.tsx:36-43 | The dialog starts with empty fields and the flag false |
| `NoteEditModal.NoteEditModal.Load` | src/components/NoteEditModal.tsx:46-61 | The fields become those of the loaded note |
| `NoteEditModal.NoteEditModal.AddTodoItem` | src/components/NoteEditModal.tsx:64-73 | Blank input changes nothing; otherwise one item with the trimmed, non-empty text is appended and the input is cleared |
| `NoteEditModal.NoteEditModal.UpdateTodoItem` | src/components/NoteEditModal.tsx:75-79 | Only the matching items get the untrimmed text |
| `NoteEditModal.NoteEditModal.ToggleTodoItem` | src/components/NoteEditModal.tsx:81-85 | Only the matching items are flipped |
| `NoteEditModal.NoteEditModal.DeleteTodoItem` | src/components/NoteEditModal.tsx:87-89 | The matching items are removed and the rest keep their order |
| `NoteEditModal.NoteEditModal.HandleSave` | src/components/NoteEditModal.tsx:104-126 | The saved note is the save result of the dialog's state |
| `NoteForm.ChangeRow` | src/components/NoteForm.tsx:62-66 | Only the named field of the row at the index changes; other rows and the length are unchanged |
| `NoteForm.AddRow` | src/components/NoteForm.tsx:68-70 | One empty, open row is appended after the unchanged rows |
| `NoteForm.RemoveRow` | src/components/NoteForm.tsx:72-75 | Exactly the row at the index is removed and the rest keep their order; an index past the end removes nothing |
| `NoteForm.AlwaysOneRow` | src/components/NoteForm.tsx:206-216 | Because the remove control shows only with more than one row, no sequence of actions empties the rows |
| `Categories.NotesInCategoryOrder` | src/pages/CategoriesPage.tsx:106 | The category view keeps the notes' order: it distributes over concatenation and keeps a single note exactly when it is filed under the id |
| `Categories.NotesInCategory` | src/pages/CategoriesPage.tsx:106 | The category view holds only notes whose colour is the id, and every such note |
| `Categories.NotesInCategoryCount` | src/pages/CategoriesPage.tsx:33-38 | The view holds as many notes as a direct count of notes with that colour |
| `Categories.WithCounts` | src/pages/CategoriesPage.tsx:33-38 | Each category's count is set to the number of notes with its id as colour; ids, names, colours and order are unchanged |
| `Categories.WithCountsIdempotent` | src/pages/CategoriesPage.tsx:33-38 | Recounting gives the same list |
| `Categories.FindNameTaken` | src/pages/CategoriesPage.tsx:66-69 | The scan reports a taken name exactly when some category's name equals it, ignoring case |
| `Categories.WithoutCategorySpec` | src/pages/CategoriesPage.tsx:85-88 | Deleting removes every category with the id and keeps the others |
| `Categories.PluralLabel` | src/pages/CategoriesPage.tsx:307-308 | Count 1 gives `poznámka`, 2 to 4 give `poznámky`, any other count `poznámek` |
| `Categories.DefaultsTight` | src/pages/CategoriesPage.tsx:18-24 | The five default names carry no surrounding whitespace |
| `Categories.TrailingSpaceNotTaken` | src/pages/CategoriesPage.tsx:61-78 | When every name is trimmed, an existing name with a trailing space is not taken by any category, yet trims to that existing name |
| `Categories.CategoriesPage.constructor` | src/pages/CategoriesPage.tsx:18-31 | The page starts with the five defaults, an empty form and no selection |
| `Categories.CategoriesPage.UpdateCategoryCounts` | src/pages/CategoriesPage.tsx:33-38 | The list becomes the recounted list |
| `Categories.CategoriesPage.CreateCategory` | src/pages/CategoriesPage.tsx:56-83 | A blank name sets the empty-name error and a taken name the duplicate error, both leaving the list and the form fields unchanged. Otherwise one category is appended, with the trimmed name, the chosen colour and no notes, and the form is reset. Names stay free of surrounding whitespace |
| `Categories.CategoriesPage.DeleteCategory` | src/pages/CategoriesPage.tsx:85-88 | The categories with the id are removed and the success message is set |
| `Categories.CategoriesPage.SelectCategory` | src/pages/CategoriesPage.tsx:90-95 | The clicked category becomes the selection |
| `Categories.CategoriesPage.BackToCategories` | src/pages/CategoriesPage.tsx:97-102 | The selection is cleared |
| `Categories.CategoriesPage.ShownNotes` | src/pages/CategoriesPage.tsx:106 | Without a selection nothing is shown; with one, exactly the notes filed under its id, in their order, as many as have its id as colour |
| `Stats.CalculatePercentage` | src/pages/StatsPage.tsx:26-29 | 0 for an empty total; otherwise 100·value/total rounded half up |
| `Stats.PercentageBounds` | src/pages/StatsPage.tsx:28 | A part of a total is between 0 and 100 percent, and the whole is 100 percent |
| `Stats.PercentageMonotone` | src/pages/StatsPage.tsx:28 | A larger part never gets a smaller percentage |
| `Stats.CategoryKey` | src/pages/StatsPage.tsx:71 | A colour that is the id of a known category with a non-empty name is counted under that name; any other colour under itself |
| `Stats.Bump` | src/pages/StatsPage.tsx:72 | The key's count goes up by one and every other count stays; a new key is appended at the end; keys stay distinct and the total grows by one |
| `Stats.KindsPartition` | src/pages/StatsPage.tsx:54-60 | The text, todo and image counts sum to the number of notes |
| `Stats.CompletedAtMostTotal` | src/pages/StatsPage.tsx:61-64 | Completed items never outnumber items |
| `Stats.TallyCountsColored` | src/pages/StatsPage.tsx:68-74 | The category counts sum to the number of notes with a colour |
| `Stats.TallyCountsPerKey` | src/pages/StatsPage.tsx:68-74 | Each key's count is the number of coloured notes filed under that key |
| `Stats.StatsConsistent` | src/pages/StatsPage.tsx:50-91 | The total is the number of active plus archived notes; the kinds sum to it; completed items are at most the items; the category counts sum to the coloured notes |
| `Stats.CountByKind` | src/pages/StatsPage.tsx:54-65 | The first pass counts each kind, the checklist items and the completed items of the todo notes |
| `Stats.CountByCategory` | src/pages/StatsPage.tsx:68-74 | The second pass builds the category tally of the coloured notes |
| `Stats.ComputeStats` | src/pages/StatsPage.tsx:50-91 | The two counting passes compute the statistics of the active followed by the archived notes, with every agreement above |
| `UseNotes.ResetDraft` | src/hooks/useNotes.tsx:361-369 | Every field of the form is cleared except the chosen kind, leaving one empty row |
| `UseNotes.DraftNote` | src/hooks/useNotes.tsx:222-260 | The new note has the form's kind, title and payload, and the session's user. The checklist is the form's rows with non-blank text, in order with repeats kept. The image is taken only when there is one. An empty category gives no colour |
| `UseNotes.EditTodoNotes` | src/hooks/useNotes.tsx:88-101 | Only the checklists of todo notes with the id change, by the given item edit; other notes, and every other field, are unchanged |
| `UseNotes.ToggleTwice` | src/hooks/useNotes.tsx:88-101 | Toggling the same item twice restores the list |
| `UseNotes.DeleteItemRemovesIt` | src/hooks/useNotes.tsx:168-179 | After deleting an item, the note has no item with that id |
| `UseNotes.WithoutNoteSpec` | src/hooks/useNotes.tsx:78-83 | Every note with the id is removed and every other note is kept in order; an absent id changes nothing |
| `UseNotes.ReplaceNote` | src/hooks/useNotes.tsx:194-200 | Notes with the edited note's id are replaced by it and the others are kept |
| `UseNotes.ReplaceNoteIdempotent` | src/hooks/useNotes.tsx:194-200 | Saving the same edit twice is saving it once |
| `UseNotes.FlipCompleted` | src/hooks/useNotes.tsx:213-217 | Notes with the id get the negated flag (undefined counts as false) and the clock as `updatedAt`; others are unchanged |
| `UseNotes.FlipCompletedTwice` | src/hooks/useNotes.tsx:213-217 | Flipping twice restores a flag that was already set |
| `UseNotes.Archived` | src/hooks/useNotes.tsx:265-274 | An absent id changes neither list. Otherwise every active note with the id leaves the active list, and the first one is appended to the archive with the archive time |
| `UseNotes.Restored` | src/hooks/useNotes.tsx:279-286 | An absent id changes neither list. Otherwise the first archived note with the id is appended to the active list, and every archived note with the id leaves the archive |
| `UseNotes.ArchiveThenRestore` | src/hooks/useNotes.tsx:265-286 | Archiving a note and restoring it leaves the archive as it was and puts the note, without its stamp, at the end of the active list |
| `UseNotes.ArchiveKeepsCount` | src/hooks/useNotes.tsx:265-274 | Archiving moves a note without losing or duplicating it |
| `UseNotes.Reorder` | src/hooks/useNotes.tsx:325-346 | The reordered list is a permutation of the old one; an empty or self-targeted drag, or a missing dragged or target note, changes nothing |
| `UseNotes.ReorderIsMove` | src/hooks/useNotes.tsx:330-338 | With both notes present, the reordering moves the dragged note's first index to the target's first index |
| `UseNotes.ReorderLanding` | src/hooks/useNotes.tsx:336-337 | The dragged note lands at the target's original index: before the target when dragged from a later position, after it when dragged from an earlier one; every other note shifts by at most one |
| `UseNotes.Persisted` | src/hooks/useNotes.tsx:67-71 | Nothing is written without a session or with an empty list; otherwise the list is saved under the session user's key |
| `UseNotes.PersistThenLoad` | src/hooks/useNotes.tsx:55-71 | A non-empty list survives a save and a reload |
| `UseNotes.EmptiedListReappears` | src/hooks/useNotes.tsx:67-71 | An emptied list is not written, so a reload shows the last saved list |
| `UseNotes.NoteStore.constructor` | src/hooks/useNotes.tsx:25-48 | The store starts empty, with a text-kind form holding one empty row, no cursor, a closed dialog and no drag |
| `UseNotes.NoteStore.Load` | src/hooks/useNotes.tsx:55-62 | The notes become the session user's stored notes, or none without a session |
| `UseNotes.NoteStore.Save` | src/hooks/useNotes.tsx:67-71 | The storage after the effect is what Persisted gives for the store's session and notes: unchanged without a session or with an empty list, and a saved non-empty list reads back |
| `UseNotes.NoteStore.SelectNote` | src/hooks/useNotes.tsx:26 | The selection becomes the given note |
| `UseNotes.NoteStore.SetCreating` | src/hooks/useNotes.tsx:30 | The creating flag becomes the given value |
| `UseNotes.NoteStore.SetDraft` | src/hooks/useNotes.tsx:31-37 | The form becomes the given one |
| `UseNotes.NoteStore.DeleteNote` | src/hooks/useNotes.tsx:78-83 | The notes with the id are removed; the selection is cleared only when it is that note |
| `UseNotes.NoteStore.ToggleTodoItem` | src/hooks/useNotes.tsx:88-101 | Only the matching item of the matching todo notes is flipped |
| `UseNotes.NoteStore.StartEditTodoItem` | src/hooks/useNotes.tsx:106-108 | The cursor is replaced by one on the item, holding its current text |
| `UseNotes.NoteStore.SaveTodoItemEdit` | src/hooks/useNotes.tsx:113-130 | Without a cursor or with blank text, neither the notes nor the cursor change; otherwise the item gets the trimmed text and the cursor is cleared |
| `UseNotes.NoteStore.CancelTodoItemEdit` | src/hooks/useNotes.tsx:135-137 | The cursor is cleared and the notes are untouched |
| `UseNotes.NoteStore.AddTodoItem` | src/hooks/useNotes.tsx:142-163 | Each matching todo note gets exactly one empty, open item at the end, and the cursor points at it with an empty buffer |
| `UseNotes.NoteStore.DeleteTodoItem` | src/hooks/useNotes.tsx:168-179 | The matching items of the matching todo notes are removed |
| `UseNotes.NoteStore.EditNote` | src/hooks/useNotes.tsx:186-189 | The dialog opens on the note |
| `UseNotes.NoteStore.SaveNoteEdit` | src/hooks/useNotes.tsx:194-200 | The edited note replaces the one with its id and the dialog closes |
| `UseNotes.NoteStore.CloseEditModal` | src/hooks/useNotes.tsx:205-208 | The dialog closes and forgets its note |
| `UseNotes.NoteStore.ToggleNoteCompleted` | src/hooks/useNotes.tsx:213-217 | The completion flag of the notes with the id is negated and their `updatedAt` stamped |
| `UseNotes.NoteStore.CreateNote` | src/hooks/useNotes.tsx:222-260 | Without a session nothing changes; otherwise the form's note is appended at the end and the form is reset |
| `UseNotes.NoteStore.ArchiveNote` | src/hooks/useNotes.tsx:265-274 | The first note with the id moves, stamped, to the end of the archive and every note with the id leaves the active list; an absent id changes nothing; a selection of that note is cleared |
| `UseNotes.NoteStore.RestoreNote` | src/hooks/useNotes.tsx:279-286 | The first archived note with the id returns, unstamped, to the end of the active list and leaves the archive |
| `UseNotes.NoteStore.DeleteFromArchive` | src/hooks/useNotes.tsx:291-293 | Every archived note with the id is removed and the rest are kept |
| `UseNotes.NoteStore.DragStart` | src/hooks/useNotes.tsx:300-304 | The dragged note is recorded |
| `UseNotes.NoteStore.DragOver` | src/hooks/useNotes.tsx:309-313 | The note under the pointer is recorded |
| `UseNotes.NoteStore.DragLeave` | src/hooks/useNotes.tsx:318-320 | The note under the pointer is cleared |
| `UseNotes.NoteStore.Drop` | src/hooks/useNotes.tsx:325-346 | The list is reordered by the splice, and both drag flags are cleared in every case |
| `UseNotes.NoteStore.DragEnd` | src/hooks/useNotes.tsx:351-354 | Both drag flags are cleared |
| `UseNotes.NoteStore.ResetCreateForm` | src/hooks/useNotes.tsx:361-369 | The form is reset and creation mode is left |
| `Seqs.FindIndex` | src/hooks/useNotes.tsx:332-333 | The scan returns the first index whose element matches, or -1 exactly when none does |
| `Seqs.MovePermutes` | src/hooks/useNotes.tsx:336-337 | The two splices rearrange the list without losing or duplicating a note |
| `JsStrings.Trim` | src/hooks/useNotes.tsx:114 | The result is the input with blank ends cut off; it is empty exactly when the input is all whitespace, and otherwise neither starts nor ends with whitespace |

## Left out

- Stats.CalculatePercentage: computed on exact rationals. It does not model the floating-point rounding of `value / total * 100` before `Math.round`, which can differ by one on halfway cases.
- The `byMonth` tally of the statistics page and its bar widths are not modelled, because they depend on date-to-ISO-string conversion.
- Browser storage is a map from keys to strings. The JSON encoding and the ISO date format are an abstract codec. Only the round-trip property is assumed of the codec, as a requirement of the lemmas that use it.
- AuthService's saving of users and sessions to storage is not modelled. The stored sessions are the constructor's `stored` parameter, already decoded. The exception `JSON.parse` raises on unreadable stored text is not modelled.
- SHA-256 (crypto-js) is an uninterpreted deterministic digest. Collision freedom is a hypothesis only where a lemma states it.
- Generated ids (`crypto.randomUUID`, `Date.now().toString()`), clock values and `generateSessionToken` are parameters, not computed.
- The `setTimeout` that puts the cursor on a newly added todo item is an immediate assignment.
- The geolocation argument of note creation, the FileReader image upload, the WebSocket client, and `console.log` and Promise wrappers are not modelled, since they are I/O.
- Rendering, the page callbacks (`onCategorySelect`, `onBackToNotes`, `onClose`) and the success-message timeout of the categories page are not modelled.
- Strings are sequences of code points, not UTF-16 units. `trim` uses JavaScript's whitespace set. `toLowerCase` covers ASCII and Latin-1/Latin Extended-A letters only.
- JavaScript objects order integer-like keys before others. The model's category tally keeps insertion order for every key.
- Stats.Bump: the tally is a map from keys to counts that starts every key at 0. The source's tally is a plain JavaScript object. For a colour named after an inherited `Object.prototype` member such as `constructor`, `toString` or `__proto__`, `(byCategory[key] || 0) + 1` reads the inherited value instead, giving a string or a dropped entry. The model does not capture that lookup. For such colours, Stats.CountByCategory and Stats.ComputeStats (including the tally-sum agreement) describe the map the code evidently means, not the object JavaScript builds. The page only assigns category ids as colours, but notes from storage or `setColor` may carry any string.
- The NoteModel constructor copies the data's arrays as values. The aliasing between a data object's `items` or `tags` array and the constructed object is not captured.
- The note store's React setters are modelled as the `SetDraft`, `SetCreating` and `SelectNote` methods. Setting several fields in one event is one method call.
