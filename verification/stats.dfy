/** The statistics page (src/pages/StatsPage.tsx): the percentage helper and
    the effect that counts the active and archived notes by kind, checklist
    items and category. */
module Stats {
  import opened Wrappers
  import opened Types

  /** `calculatePercentage`: `Math.round(value / total * 100)`, 0 for an empty
      total, computed on exact rationals. Rounding is half up, as Math.round does. */
  function CalculatePercentage(value: int, total: nat): (p: int)
    ensures total == 0 ==> p == 0
    ensures total > 0 ==> 2 * total * p <= 200 * value + total < 2 * total * (p + 1)
  {
    if total == 0 then 0 else (200 * value + total) / (2 * total)
  }

  /** Multiplying by a non-negative factor keeps the order. */
  lemma MulMono(k: nat, a: int, b: int)
    requires a <= b
    ensures k * a <= k * b
  {
    assert k * b - k * a == k * (b - a);
  }

  /** A part of a total is between 0 and 100 percent of it, and all of it is 100. */
  lemma PercentageBounds(value: int, total: nat)
    requires 0 <= value <= total && total > 0
    ensures 0 <= CalculatePercentage(value, total) <= 100
    ensures value == total ==> CalculatePercentage(value, total) == 100
  {
    var p := CalculatePercentage(value, total);
    var t2 := 2 * total;
    assert t2 * p <= 200 * value + total < t2 * (p + 1);
    if p < 0 {
      MulMono(t2, p + 1, 0);
    }
    if p > 100 {
      MulMono(t2, 101, p);
    }
    if value == total && p < 100 {
      MulMono(t2, p + 1, 100);
    }
  }

  /** A larger part never has a smaller percentage. */
  lemma PercentageMonotone(a: int, b: int, total: nat)
    requires a <= b
    ensures CalculatePercentage(a, total) <= CalculatePercentage(b, total)
  {
    if total > 0 {
      var pa := CalculatePercentage(a, total);
      var pb := CalculatePercentage(b, total);
      if pa > pb {
        MulMono(2 * total, pb + 1, pa);
      }
    }
  }

  /** The ids and names of the five categories the page knows. */
  const KnownCategories: seq<(string, string)> := [
    ("1", "Práce"), ("2", "Osobní"), ("3", "Studium"), ("4", "Nákupy"), ("5", "Zdraví")
  ]

  /** `categories.find(cat => cat.id === id)?.name`: the name of the first
      entry with the id. */
  function NameOf(entries: seq<(string, string)>, id: string): (r: Option<string>)
    ensures r.None? <==> forall i :: 0 <= i < |entries| ==> entries[i].0 != id
    ensures r.Some? ==> exists i :: 0 <= i < |entries| && entries[i] == (id, r.value)
                          && forall j :: 0 <= j < i ==> entries[j].0 != id
  {
    if entries == [] then None
    else if entries[0].0 == id then
      assert entries[0] == (id, entries[0].1);
      Some(entries[0].1)
    else
      var r := NameOf(entries[1..], id);
      if r.Some? then
        var i :| 0 <= i < |entries[1..]| && entries[1..][i] == (id, r.value)
                  && forall j :: 0 <= j < i ==> entries[1..][j].0 != id;
        assert entries[i + 1] == (id, r.value);
        r
      else r
  }

  /** The key a colour is counted under: the name of the known category with
      that id, otherwise (`|| note.color`) the colour itself. */
  function CategoryKey(color: string): (key: string)
    ensures key == color || exists i :: 0 <= i < |KnownCategories| && KnownCategories[i] == (color, key)
    ensures (forall i :: 0 <= i < |KnownCategories| ==> KnownCategories[i].0 != color) ==> key == color
    ensures NameOf(KnownCategories, color).Some? && NameOf(KnownCategories, color).value != "" ==>
              key == NameOf(KnownCategories, color).value
  {
    var name := NameOf(KnownCategories, color);
    if name.Some? && name.value != "" then name.value else color
  }

  /** Counts per key, in the order the keys first appeared. */
  type Tally = seq<(string, nat)>

  function KeySet(t: Tally): set<string> {
    set i | 0 <= i < |t| :: t[i].0
  }

  predicate DistinctKeys(t: Tally) {
    forall i, j :: 0 <= i < j < |t| ==> t[i].0 != t[j].0
  }

  /** The count stored under a key, 0 when the key is absent. */
  function CountOf(t: Tally, key: string): nat {
    if t == [] then 0
    else if t[|t| - 1].0 == key then t[|t| - 1].1
    else CountOf(t[..|t| - 1], key)
  }

  function Sum(t: Tally): nat {
    if t == [] then 0 else Sum(t[..|t| - 1]) + t[|t| - 1].1
  }

  lemma KeySetSnoc(t: Tally, x: (string, nat))
    ensures KeySet(t + [x]) == KeySet(t) + {x.0}
  {
    var u := t + [x];
    assert forall i :: 0 <= i < |t| ==> u[i] == t[i];
    assert u[|t|] == x;
  }

  lemma DistinctSplit(t: Tally)
    requires t != [] && DistinctKeys(t)
    ensures DistinctKeys(t[..|t| - 1]) && t[|t| - 1].0 !in KeySet(t[..|t| - 1])
  {
  }

  lemma DistinctSnoc(t: Tally, x: (string, nat))
    requires DistinctKeys(t) && x.0 !in KeySet(t)
    ensures DistinctKeys(t + [x])
  {
    var u := t + [x];
    forall i, j | 0 <= i < j < |u| ensures u[i].0 != u[j].0 {
      if j == |t| {
        assert u[i] == t[i];
      } else {
        assert u[i] == t[i] && u[j] == t[j];
      }
    }
  }

  /** r is t with the key's count raised by one. */
  ghost predicate Bumped(t: Tally, key: string, r: Tally) {
    && DistinctKeys(r)
    && KeySet(r) == KeySet(t) + {key}
    && CountOf(r, key) == CountOf(t, key) + 1
    && (forall k :: k != key ==> CountOf(r, k) == CountOf(t, k))
    && Sum(r) == Sum(t) + 1
  }

  lemma AppendNewKey(t: Tally, key: string)
    requires DistinctKeys(t) && key !in KeySet(t)
    ensures Bumped(t, key, t + [(key, 1)])
  {
    var r := t + [(key, 1)];
    assert r[..|r| - 1] == t;
    KeySetSnoc(t, (key, 1));
    DistinctSnoc(t, (key, 1));
    CountAbsent(t, key);
  }

  lemma RaiseLast(t: Tally, key: string)
    requires t != [] && DistinctKeys(t) && t[|t| - 1].0 == key
    ensures Bumped(t, key, t[..|t| - 1] + [(key, t[|t| - 1].1 + 1)])
  {
    var last, init := t[|t| - 1], t[..|t| - 1];
    var r := init + [(key, last.1 + 1)];
    assert t == init + [last];
    assert r[..|r| - 1] == init;
    DistinctSplit(t);
    KeySetSnoc(init, last);
    KeySetSnoc(init, (key, last.1 + 1));
    DistinctSnoc(init, (key, last.1 + 1));
  }

  lemma KeepLast(t: Tally, key: string, b: Tally)
    requires t != [] && DistinctKeys(t) && t[|t| - 1].0 != key
    requires Bumped(t[..|t| - 1], key, b)
    ensures Bumped(t, key, b + [t[|t| - 1]])
  {
    var last, init := t[|t| - 1], t[..|t| - 1];
    var r := b + [last];
    assert t == init + [last];
    assert r[..|r| - 1] == b;
    DistinctSplit(t);
    KeySetSnoc(init, last);
    KeySetSnoc(b, last);
    DistinctSnoc(b, last);
    assert CountOf(r, key) == CountOf(b, key) && CountOf(t, key) == CountOf(init, key);
    forall k | k != key ensures CountOf(r, k) == CountOf(t, k) {
      if k != last.0 {
        assert CountOf(r, k) == CountOf(b, k) && CountOf(t, k) == CountOf(init, k);
      }
    }
    assert Sum(r) == Sum(b) + last.1 && Sum(t) == Sum(init) + last.1;
  }

  /** `tally[key] = (tally[key] || 0) + 1`: the key's count goes up by one,
      every other count stays, and a new key is appended at the end. */
  function Bump(t: Tally, key: string): (r: Tally)
    requires DistinctKeys(t)
    ensures DistinctKeys(r)
    ensures KeySet(r) == KeySet(t) + {key}
    ensures CountOf(r, key) == CountOf(t, key) + 1
    ensures forall k :: k != key ==> CountOf(r, k) == CountOf(t, k)
    ensures key !in KeySet(t) ==> r == t + [(key, 1)]
    ensures Sum(r) == Sum(t) + 1
    decreases |t|
  {
    if key !in KeySet(t) then
      AppendNewKey(t, key);
      t + [(key, 1)]
    else if t[|t| - 1].0 == key then
      RaiseLast(t, key);
      t[..|t| - 1] + [(key, t[|t| - 1].1 + 1)]
    else
      DistinctSplit(t);
      var b := Bump(t[..|t| - 1], key);
      KeepLast(t, key, b);
      b + [t[|t| - 1]]
  }

  lemma {:induction false} CountAbsent(t: Tally, key: string)
    requires key !in KeySet(t)
    ensures CountOf(t, key) == 0
  {
    if t != [] {
      var init := t[..|t| - 1];
      assert KeySet(init) <= KeySet(t) by {
        forall k | k in KeySet(init) ensures k in KeySet(t) {
          var i :| 0 <= i < |init| && init[i].0 == k;
          assert t[i] == init[i];
        }
      }
      assert t[|t| - 1].0 in KeySet(t);
      CountAbsent(init, key);
    }
  }

  /** The number of notes of a kind. */
  function CountType(s: seq<Note>, t: NoteType): nat {
    if s == [] then 0 else CountType(s[..|s| - 1], t) + (if s[|s| - 1].Type() == t then 1 else 0)
  }

  /** The number of checklist items over the todo notes. */
  function TodoTotal(s: seq<Note>): nat {
    if s == [] then 0
    else TodoTotal(s[..|s| - 1]) + (if s[|s| - 1].payload.TodoPayload? then |s[|s| - 1].payload.items| else 0)
  }

  /** The number of completed items in a checklist. */
  function CompletedIn(items: seq<TodoItem>): (n: nat)
    ensures n <= |items|
  {
    if items == [] then 0 else CompletedIn(items[..|items| - 1]) + (if items[|items| - 1].completed then 1 else 0)
  }

  /** The number of completed checklist items over the todo notes. */
  function TodoCompleted(s: seq<Note>): nat {
    if s == [] then 0
    else TodoCompleted(s[..|s| - 1]) + (if s[|s| - 1].payload.TodoPayload? then CompletedIn(s[|s| - 1].payload.items) else 0)
  }

  /** A note with a colour (`if (note.color)`: undefined and '' are falsy). */
  predicate HasColor(n: Note) {
    n.color.Some? && n.color.value != ""
  }

  function ColoredCount(s: seq<Note>): nat {
    if s == [] then 0 else ColoredCount(s[..|s| - 1]) + (if HasColor(s[|s| - 1]) then 1 else 0)
  }

  /** The category tally of a list of notes. */
  function CategoryTally(s: seq<Note>): (t: Tally)
    ensures DistinctKeys(t)
  {
    if s == [] then []
    else
      var t := CategoryTally(s[..|s| - 1]);
      var n := s[|s| - 1];
      if HasColor(n) then Bump(t, CategoryKey(n.color.value)) else t
  }

  /** The number of coloured notes counted under a key. */
  function CountKey(s: seq<Note>, key: string): nat {
    if s == [] then 0
    else CountKey(s[..|s| - 1], key)
         + (if HasColor(s[|s| - 1]) && CategoryKey(s[|s| - 1].color.value) == key then 1 else 0)
  }

  /** Each key of the tally holds the number of coloured notes filed under it. */
  lemma {:induction false} TallyCountsPerKey(s: seq<Note>, key: string)
    ensures CountOf(CategoryTally(s), key) == CountKey(s, key)
  {
    if s != [] {
      TallyCountsPerKey(s[..|s| - 1], key);
    }
  }

  datatype NoteStats = NoteStats(
    total: nat,
    text: nat,
    todo: nat,
    image: nat,
    byCategory: Tally,
    completedTodos: nat,
    totalTodos: nat)

  /** The statistics of the active and archived notes together. */
  function StatsOf(notes: seq<Note>, archived: seq<Note>): NoteStats {
    var all := notes + archived;
    NoteStats(|all|, CountType(all, Text), CountType(all, Todo), CountType(all, Image),
              CategoryTally(all), TodoCompleted(all), TodoTotal(all))
  }

  /** Every note has exactly one of the three kinds. */
  lemma {:induction false} KindsPartition(s: seq<Note>)
    ensures CountType(s, Text) + CountType(s, Todo) + CountType(s, Image) == |s|
  {
    if s != [] {
      KindsPartition(s[..|s| - 1]);
    }
  }

  /** No more items are completed than there are items. */
  lemma {:induction false} CompletedAtMostTotal(s: seq<Note>)
    ensures TodoCompleted(s) <= TodoTotal(s)
  {
    if s != [] {
      CompletedAtMostTotal(s[..|s| - 1]);
    }
  }

  /** The category tally counts each coloured note once. */
  lemma {:induction false} TallyCountsColored(s: seq<Note>)
    ensures Sum(CategoryTally(s)) == ColoredCount(s)
  {
    if s != [] {
      TallyCountsColored(s[..|s| - 1]);
    }
  }

  /** The four totals the page shows agree with each other. */
  lemma StatsConsistent(notes: seq<Note>, archived: seq<Note>)
    ensures StatsOf(notes, archived).total == |notes| + |archived|
    ensures StatsOf(notes, archived).text + StatsOf(notes, archived).todo + StatsOf(notes, archived).image
            == StatsOf(notes, archived).total
    ensures StatsOf(notes, archived).completedTodos <= StatsOf(notes, archived).totalTodos
    ensures Sum(StatsOf(notes, archived).byCategory) == ColoredCount(notes + archived)
  {
    KindsPartition(notes + archived);
    CompletedAtMostTotal(notes + archived);
    TallyCountsColored(notes + archived);
  }

  /** The effect's first pass: `byType[note.type]++` and the checklist
      counts of the todo notes. */
  method CountByKind(all: seq<Note>) returns (text: nat, todo: nat, image: nat, completedTodos: nat, totalTodos: nat)
    ensures text == CountType(all, Text) && todo == CountType(all, Todo) && image == CountType(all, Image)
    ensures totalTodos == TodoTotal(all) && completedTodos == TodoCompleted(all)
  {
    text, todo, image, completedTodos, totalTodos := 0, 0, 0, 0, 0;
    var i := 0;
    while i < |all|
      invariant 0 <= i <= |all|
      invariant text == CountType(all[..i], Text) && todo == CountType(all[..i], Todo) && image == CountType(all[..i], Image)
      invariant totalTodos == TodoTotal(all[..i]) && completedTodos == TodoCompleted(all[..i])
    {
      assert all[..i + 1][..i] == all[..i];
      var note := all[i];
      match note.Type() {
        case Text => text := text + 1;
        case Todo => todo := todo + 1;
        case Image => image := image + 1;
      }
      if note.payload.TodoPayload? {
        totalTodos := totalTodos + |note.payload.items|;
        completedTodos := completedTodos + CompletedIn(note.payload.items);
      }
      i := i + 1;
    }
    assert all[..|all|] == all;
  }

  /** The effect's second pass: the coloured notes tallied by category key. */
  method CountByCategory(all: seq<Note>) returns (byCategory: Tally)
    ensures byCategory == CategoryTally(all)
  {
    byCategory := [];
    var i := 0;
    while i < |all|
      invariant 0 <= i <= |all|
      invariant byCategory == CategoryTally(all[..i])
    {
      assert all[..i + 1][..i] == all[..i];
      var note := all[i];
      if HasColor(note) {
        byCategory := Bump(byCategory, CategoryKey(note.color.value));
      }
      i := i + 1;
    }
    assert all[..|all|] == all;
  }

  /** The effect's counting passes over the active notes followed by the
      archived ones. */
  method ComputeStats(notes: seq<Note>, archived: seq<Note>) returns (st: NoteStats)
    ensures st == StatsOf(notes, archived)
    ensures st.text + st.todo + st.image == st.total == |notes| + |archived|
    ensures st.completedTodos <= st.totalTodos
    ensures Sum(st.byCategory) == ColoredCount(notes + archived)
    ensures forall key :: CountOf(st.byCategory, key) == CountKey(notes + archived, key)
  {
    var all := notes + archived;
    var text, todo, image, completedTodos, totalTodos := CountByKind(all);
    var byCategory := CountByCategory(all);
    st := NoteStats(|all|, text, todo, image, byCategory, completedTodos, totalTodos);
    StatsConsistent(notes, archived);
    forall key | true ensures CountOf(st.byCategory, key) == CountKey(all, key) {
      TallyCountsPerKey(all, key);
    }
  }
}
