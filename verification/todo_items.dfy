/** Edits of a checklist (a sequence of TodoItem) shared by the note list, the
    note classes and the edit dialog. The list and the edit dialog match items
    with `map`/`filter` (every item with the id); the TodoNoteModel class uses
    `find` (the first item with the id). */
module TodoItems {
  import opened Types
  import Seqs

  /** No two items share an id. */
  predicate UniqueIds(items: seq<TodoItem>) {
    forall i, j :: 0 <= i < j < |items| ==> items[i].id != items[j].id
  }

  /** `items.map(item => item.id === id ? { ...item, completed: !item.completed } : item)` */
  function ToggleAll(items: seq<TodoItem>, id: string): (r: seq<TodoItem>)
    ensures |r| == |items|
    ensures forall i :: 0 <= i < |items| && items[i].id != id ==> r[i] == items[i]
    ensures forall i :: 0 <= i < |items| && items[i].id == id ==>
              r[i].id == id && r[i].text == items[i].text && r[i].completed == !items[i].completed
  {
    seq(|items|, i requires 0 <= i < |items| =>
      if items[i].id == id then items[i].(completed := !items[i].completed) else items[i])
  }

  /** `items.map(item => item.id === id ? { ...item, text } : item)` */
  function SetTextAll(items: seq<TodoItem>, id: string, text: string): (r: seq<TodoItem>)
    ensures |r| == |items|
    ensures forall i :: 0 <= i < |items| && items[i].id != id ==> r[i] == items[i]
    ensures forall i :: 0 <= i < |items| && items[i].id == id ==>
              r[i].id == id && r[i].text == text && r[i].completed == items[i].completed
  {
    seq(|items|, i requires 0 <= i < |items| =>
      if items[i].id == id then items[i].(text := text) else items[i])
  }

  /** `items.filter(item => item.id !== id)` */
  function RemoveAll(items: seq<TodoItem>, id: string): seq<TodoItem> {
    Seqs.Filter(items, ItemLacksId(id))
  }

  /** The item list with one not-completed item appended. */
  function AppendItem(items: seq<TodoItem>, id: string, text: string): (r: seq<TodoItem>)
    ensures |r| == |items| + 1 && r[..|items|] == items
    ensures r[|items|] == TodoItem(id, text, false)
  {
    items + [TodoItem(id, text, false)]
  }

  /** `items.find(item => item.id === id)` followed by flipping that one item. */
  function ToggleFirst(items: seq<TodoItem>, id: string): (r: seq<TodoItem>)
    ensures |r| == |items|
  {
    var k := Seqs.FirstIndex(items, ItemHasId(id));
    if k == -1 then items else items[k := items[k].(completed := !items[k].completed)]
  }

  /** Toggling the same id twice restores the list. */
  lemma ToggleAllInvolution(items: seq<TodoItem>, id: string)
    ensures ToggleAll(ToggleAll(items, id), id) == items
  {
    var r := ToggleAll(ToggleAll(items, id), id);
    forall i | 0 <= i < |items| ensures r[i] == items[i] {
      if items[i].id == id {
        assert r[i].id == items[i].id && r[i].text == items[i].text && r[i].completed == items[i].completed;
      }
    }
  }

  /** Removing items by id: none with that id remains, every other item is kept. */
  lemma RemoveAllSpec(items: seq<TodoItem>, id: string)
    ensures forall x :: x in RemoveAll(items, id) ==> x in items && x.id != id
    ensures forall x :: x in items && x.id != id ==> x in RemoveAll(items, id)
    ensures (forall x :: x in items ==> x.id != id) ==> RemoveAll(items, id) == items
  {
    var r := RemoveAll(items, id);
    forall x | x in r ensures x in items && x.id != id {
      var i :| 0 <= i < |r| && r[i] == x;
    }
    forall x | x in items && x.id != id ensures x in r {
      var i :| 0 <= i < |items| && items[i] == x;
    }
    if forall x :: x in items ==> x.id != id {
      Seqs.FilterKeepsAll(items, ItemLacksId(id));
    }
  }

  /** With unique ids, flipping the first match (TodoNoteModel.toggleItem) and
      flipping every match (the note list and the edit dialog) agree. */
  lemma ToggleFirstIsToggleAll(items: seq<TodoItem>, id: string)
    requires UniqueIds(items)
    ensures ToggleFirst(items, id) == ToggleAll(items, id)
  {
    var k := Seqs.FirstIndex(items, ItemHasId(id));
    var a := ToggleFirst(items, id);
    var b := ToggleAll(items, id);
    forall i | 0 <= i < |items| ensures a[i] == b[i] {
      if items[i].id == id {
        assert ItemHasId(id)(items[i]);
        assert k != -1 && k <= i;
        assert ItemHasId(id)(items[k]);
        assert k == i;
      } else {
        assert !ItemHasId(id)(items[i]);
      }
    }
  }

  /** Flipping the first match when no item has the id changes nothing. */
  lemma ToggleFirstAbsent(items: seq<TodoItem>, id: string)
    requires forall i :: 0 <= i < |items| ==> items[i].id != id
    ensures ToggleFirst(items, id) == items
  {
    assert forall i :: 0 <= i < |items| ==> !ItemHasId(id)(items[i]);
  }

  /** Flipping the first match flips exactly the item at the first index k
      that carries the id. */
  lemma ToggleFirstPresent(items: seq<TodoItem>, id: string, k: nat)
    requires k < |items| && items[k].id == id
    requires forall i :: 0 <= i < k ==> items[i].id != id
    ensures ToggleFirst(items, id) == items[k := items[k].(completed := !items[k].completed)]
  {
    assert ItemHasId(id)(items[k]);
    assert forall i :: 0 <= i < k ==> !ItemHasId(id)(items[i]);
  }
}
