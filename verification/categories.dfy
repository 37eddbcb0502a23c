/** The categories page (src/pages/CategoriesPage.tsx): a list of categories
    whose ids are what notes carry in their `color` field, per-category note
    counts, creation with name checks, deletion, the per-category note view
    and the Czech plural of the count label. */
module Categories {
  import opened Wrappers
  import opened Types
  import opened JsStrings
  import Seqs

  datatype Category = Category(id: string, name: string, color: string, noteCount: nat)

  /** The five categories the page starts with. */
  const DefaultCategories: seq<Category> := [
    Category("1", "Práce", "indigo", 0),
    Category("2", "Osobní", "purple", 0),
    Category("3", "Studium", "pink", 0),
    Category("4", "Nákupy", "green", 0),
    Category("5", "Zdraví", "red", 0)
  ]

  const EmptyNameError := "Název kategorie nemůže být prázdný"
  const DuplicateNameError := "Kategorie s tímto názvem již existuje"
  const CreatedMessage := "Kategorie byla úspěšně vytvořena"
  const DeletedMessage := "Kategorie byla úspěšně smazána"

  /** Notes filed under a category (`note.color === id`). */
  function InCategory(id: string): Note -> bool {
    (n: Note) => n.color == Some(id)
  }

  /** The category view: the notes filed under the id, in their order. */
  function NotesInCategory(notes: seq<Note>, id: string): (r: seq<Note>)
    ensures forall i :: 0 <= i < |r| ==> r[i].color == Some(id) && r[i] in notes
    ensures forall i :: 0 <= i < |notes| && notes[i].color == Some(id) ==> notes[i] in r
  {
    var r := Seqs.Filter(notes, InCategory(id));
    assert forall i :: 0 <= i < |r| ==> InCategory(id)(r[i]);
    assert forall i :: 0 <= i < |notes| && notes[i].color == Some(id) ==> InCategory(id)(notes[i]);
    r
  }

  /** The category view keeps the notes' order: it distributes over
      concatenation, and a single note is kept exactly when filed under the id. */
  lemma NotesInCategoryOrder(notes: seq<Note>, more: seq<Note>, n: Note, id: string)
    ensures NotesInCategory([], id) == []
    ensures NotesInCategory([n], id) == if n.color == Some(id) then [n] else []
    ensures NotesInCategory(notes + more, id) == NotesInCategory(notes, id) + NotesInCategory(more, id)
  {
    assert NotesInCategory([n], id) == (if InCategory(id)(n) then [n] else []) + Seqs.Filter([n][1..], InCategory(id));
    Seqs.FilterConcat(notes, more, InCategory(id));
  }

  /** The number of notes filed under the id, counted directly. */
  function CountIn(notes: seq<Note>, id: string): nat {
    if notes == [] then 0
    else (if notes[0].color == Some(id) then 1 else 0) + CountIn(notes[1..], id)
  }

  /** The filtered list holds exactly as many notes as the direct count. */
  lemma {:induction false} NotesInCategoryCount(notes: seq<Note>, id: string)
    ensures |NotesInCategory(notes, id)| == CountIn(notes, id)
  {
    if notes != [] {
      NotesInCategoryCount(notes[1..], id);
      assert notes == [notes[0]] + notes[1..];
      Seqs.FilterConcat([notes[0]], notes[1..], InCategory(id));
    }
  }

  /** `updateCategoryCounts`: every count set from the notes; ids, names,
      colours and order unchanged. */
  function WithCounts(categories: seq<Category>, notes: seq<Note>): (r: seq<Category>)
    ensures |r| == |categories|
    ensures forall i :: 0 <= i < |r| ==>
              r[i] == categories[i].(noteCount := CountIn(notes, categories[i].id))
  {
    var r := seq(|categories|, i requires 0 <= i < |categories| =>
      categories[i].(noteCount := |NotesInCategory(notes, categories[i].id)|));
    assert forall i :: 0 <= i < |r| ==> r[i].noteCount == CountIn(notes, categories[i].id) by {
      forall i | 0 <= i < |r| ensures r[i].noteCount == CountIn(notes, categories[i].id) {
        NotesInCategoryCount(notes, categories[i].id);
      }
    }
    r
  }

  /** Counting twice gives the same counts. */
  lemma WithCountsIdempotent(categories: seq<Category>, notes: seq<Note>)
    ensures WithCounts(WithCounts(categories, notes), notes) == WithCounts(categories, notes)
  {
  }

  /** A name is taken when some category's name equals it ignoring case;
      the comparison uses the name as typed, untrimmed. */
  predicate NameTaken(categories: seq<Category>, name: string) {
    exists i :: 0 <= i < |categories| && ToLower(categories[i].name) == ToLower(name)
  }

  /** `categories.some(cat => cat.name.toLowerCase() === name.toLowerCase())`,
      scanning the list. */
  method FindNameTaken(categories: seq<Category>, name: string) returns (taken: bool)
    ensures taken == NameTaken(categories, name)
  {
    var lowered := ToLower(name);
    var i := 0;
    while i < |categories|
      invariant 0 <= i <= |categories|
      invariant forall k :: 0 <= k < i ==> ToLower(categories[k].name) != lowered
    {
      if ToLower(categories[i].name) == lowered {
        return true;
      }
      i := i + 1;
    }
    return false;
  }

  /** `categories.filter(cat => cat.id !== id)` */
  function WithoutCategory(categories: seq<Category>, id: string): seq<Category> {
    Seqs.Filter(categories, (c: Category) => c.id != id)
  }

  /** Deleting removes every category with the id and keeps the others. */
  lemma WithoutCategorySpec(categories: seq<Category>, id: string)
    ensures forall i :: 0 <= i < |WithoutCategory(categories, id)| ==> WithoutCategory(categories, id)[i].id != id
    ensures forall i :: 0 <= i < |categories| && categories[i].id != id ==> categories[i] in WithoutCategory(categories, id)
  {
  }

  /** The word after a count: one `poznámka`, two to four `poznámky`, any other
      count `poznámek`. */
  function PluralLabel(count: int): (word: string)
    ensures count == 1 ==> word == "poznámka"
    ensures 2 <= count <= 4 ==> word == "poznámky"
    ensures count < 1 || count > 4 ==> word == "poznámek"
  {
    if count == 1 then "poznámka"
    else if 2 <= count <= 4 then "poznámky"
    else "poznámek"
  }

  /** A name with no surrounding whitespace and at least one other character. */
  predicate Tight(name: string) {
    name != [] && !IsSpace(name[0]) && !IsSpace(name[|name| - 1])
  }

  /** Every category name is tight. */
  predicate TightNames(categories: seq<Category>) {
    forall i :: 0 <= i < |categories| ==> Tight(categories[i].name)
  }

  lemma DefaultsTight()
    ensures TightNames(DefaultCategories)
  {
  }

  /** The duplicate check compares the untrimmed input: a name that differs
      from an existing one only by a trailing space is not taken, although the
      category it creates bears the existing name. */
  lemma TrailingSpaceNotTaken(categories: seq<Category>, i: nat)
    requires i < |categories| && TightNames(categories)
    ensures !NameTaken(categories, categories[i].name + " ")
    ensures Trim(categories[i].name + " ") == categories[i].name
  {
    var name := categories[i].name;
    var typed := name + " ";
    forall k | 0 <= k < |categories| ensures ToLower(categories[k].name) != ToLower(typed) {
      var other := categories[k].name;
      if |other| == |typed| {
        assert ToLower(typed)[|typed| - 1] == ' ';
        assert ToLower(other)[|other| - 1] == LowerChar(other[|other| - 1]);
        assert !IsSpace(other[|other| - 1]);
      }
    }
    assert typed[|typed| - 1] == ' ';
    assert LeadingSpaces(typed) == 0;
    assert TrailingSpaces(typed) == 1 by {
      assert typed[..|typed| - 1] == name;
      assert TrailingSpaces(name) == 0;
    }
    assert typed[0..][..|typed| - 1] == name;
  }

  class CategoriesPage {
    var categories: seq<Category>
    var isCreating: bool
    var newCategoryName: string
    var selectedColor: string
    var error: string
    var success: string
    var selectedCategory: Option<Category>

    /** Category names never carry surrounding whitespace. */
    predicate Valid()
      reads this
    {
      TightNames(categories)
    }

    constructor ()
      ensures categories == DefaultCategories
      ensures !isCreating && newCategoryName == "" && selectedColor == "indigo"
      ensures error == "" && success == "" && selectedCategory.None?
      ensures Valid()
    {
      categories := DefaultCategories;
      isCreating, newCategoryName, selectedColor := false, "", "indigo";
      error, success, selectedCategory := "", "", None;
      DefaultsTight();
    }

    method UpdateCategoryCounts(notes: seq<Note>)
      modifies this`categories
      ensures categories == WithCounts(old(categories), notes)
      ensures old(Valid()) ==> Valid()
    {
      categories := WithCounts(categories, notes);
    }

    /** `handleCreateCategory`: a blank name or a taken one sets its error and
        leaves the list as it was; otherwise one category with the trimmed
        name, the chosen colour and no notes is appended, and the form is
        reset. `newId` stands for the clock-based id. */
    method CreateCategory(newId: string)
      modifies this`categories, this`isCreating, this`newCategoryName, this`selectedColor, this`error, this`success
      ensures IsBlank(old(newCategoryName)) ==>
                && categories == old(categories) && error == EmptyNameError && success == ""
                && newCategoryName == old(newCategoryName) && selectedColor == old(selectedColor) && isCreating == old(isCreating)
      ensures !IsBlank(old(newCategoryName)) && NameTaken(old(categories), old(newCategoryName)) ==>
                && categories == old(categories) && error == DuplicateNameError && success == ""
                && newCategoryName == old(newCategoryName) && selectedColor == old(selectedColor) && isCreating == old(isCreating)
      ensures !IsBlank(old(newCategoryName)) && !NameTaken(old(categories), old(newCategoryName)) ==>
                && categories == old(categories) + [Category(newId, Trim(old(newCategoryName)), old(selectedColor), 0)]
                && newCategoryName == "" && selectedColor == "indigo" && !isCreating
                && error == "" && success == CreatedMessage
      ensures old(Valid()) ==> Valid()
    {
      error := "";
      success := "";
      if Trim(newCategoryName) == "" {
        error := EmptyNameError;
        return;
      }
      var taken := FindNameTaken(categories, newCategoryName);
      if taken {
        error := DuplicateNameError;
        return;
      }
      categories := categories + [Category(newId, Trim(newCategoryName), selectedColor, 0)];
      newCategoryName := "";
      selectedColor := "indigo";
      isCreating := false;
      success := CreatedMessage;
    }

    method DeleteCategory(id: string)
      modifies this`categories, this`success
      ensures categories == WithoutCategory(old(categories), id)
      ensures success == DeletedMessage
      ensures old(Valid()) ==> Valid()
    {
      categories := WithoutCategory(categories, id);
      success := DeletedMessage;
    }

    /** Opening a category's note view; the selection callback is not modelled. */
    method SelectCategory(c: Category)
      modifies this`selectedCategory
      ensures selectedCategory == Some(c)
    {
      selectedCategory := Some(c);
    }

    method BackToCategories()
      modifies this`selectedCategory
      ensures selectedCategory.None?
    {
      selectedCategory := None;
    }

    /** The notes the page lists: those of the selected category, if any. */
    function ShownNotes(notes: seq<Note>): (r: seq<Note>)
      reads this
      ensures selectedCategory.None? ==> r == []
      ensures selectedCategory.Some? ==> r == NotesInCategory(notes, selectedCategory.value.id)
      ensures selectedCategory.Some? ==> |r| == CountIn(notes, selectedCategory.value.id)
    {
      if selectedCategory.None? then []
      else
        NotesInCategoryCount(notes, selectedCategory.value.id);
        NotesInCategory(notes, selectedCategory.value.id)
    }
  }
}
