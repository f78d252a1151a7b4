/** The genre checkboxes: a fixed table of TMDb genres and a selection of
    genre ids that each checkbox toggles. */
module GenreFilter {
  import KeyedList

  datatype Genre = Genre(id: int, name: string)

  const Genres: seq<Genre> := [
    Genre(28, "Action"), Genre(12, "Adventure"), Genre(16, "Animation"),
    Genre(35, "Comedy"), Genre(80, "Crime"), Genre(99, "Documentary"),
    Genre(18, "Drama"), Genre(10751, "Family"), Genre(14, "Fantasy"),
    Genre(36, "History"), Genre(27, "Horror"), Genre(10402, "Music"),
    Genre(9648, "Mystery"), Genre(10749, "Romance"), Genre(878, "Sci-Fi"),
    Genre(53, "Thriller"), Genre(10752, "War"), Genre(37, "Western")
  ]

  /** A selected genre id is its own key. */
  function SelfKey(id: int): int {
    id
  }

  /** The selection with every occurrence of `id` removed, order kept. */
  function Without(selected: seq<int>, id: int): (rest: seq<int>)
    ensures id !in rest
    ensures forall g :: g in rest <==> g in selected && g != id
  {
    KeyedList.RemoveKey(selected, SelfKey, id)
  }

  lemma HasKeyIsMembership(selected: seq<int>, id: int)
    ensures KeyedList.HasKey(selected, SelfKey, id) <==> id in selected
  {
    if id in selected {
      var i :| 0 <= i < |selected| && selected[i] == id;
      assert SelfKey(selected[i]) == id;
    }
  }

  /** `handleCheckboxChange`: an absent id is appended at the end; a present
      one is removed everywhere. Exactly that id changes membership, and the
      other ids keep their relative order. */
  function Toggle(selected: seq<int>, id: int): (next: seq<int>)
    ensures id !in selected ==> next == selected + [id]
    ensures id in selected ==> next == Without(selected, id)
    ensures forall g :: g in next <==> (g in selected) != (g == id)
    ensures Without(next, id) == Without(selected, id)
  {
    HasKeyIsMembership(selected, id);
    KeyedList.ToggleKeepsOthersInOrder(selected, SelfKey, id);
    KeyedList.Toggle(selected, SelfKey, id)
  }

  predicate NoDuplicates(selected: seq<int>) {
    forall i, j :: 0 <= i < j < |selected| ==> selected[i] != selected[j]
  }

  /** A selection without repeated ids keeps none after a toggle. */
  lemma ToggleKeepsNoDuplicates(selected: seq<int>, id: int)
    requires NoDuplicates(selected)
    ensures NoDuplicates(Toggle(selected, id))
  {
    KeyedList.ToggleKeepsDistinct(selected, SelfKey, id);
  }

  /** Toggling an absent id twice gives the original selection back. */
  lemma ToggleAbsentTwice(selected: seq<int>, id: int)
    requires id !in selected
    ensures Toggle(Toggle(selected, id), id) == selected
  {
    HasKeyIsMembership(selected, id);
    KeyedList.ToggleAbsentTwice(selected, SelfKey, id);
  }

  /** Toggling a present id twice gives the same set of ids, with `id` now
      last and present once. */
  lemma TogglePresentTwice(selected: seq<int>, id: int)
    requires id in selected
    ensures forall g :: g in Toggle(Toggle(selected, id), id) <==> g in selected
    ensures Toggle(Toggle(selected, id), id) == Without(selected, id) + [id]
  {
  }

  /** The table holds eighteen genres with pairwise distinct ids. */
  lemma GenreTableWellFormed()
    ensures |Genres| == 18
    ensures forall i, j :: 0 <= i < j < |Genres| ==> Genres[i].id != Genres[j].id
  {
  }

  /** The checked state of each checkbox, in table order. */
  function Checkboxes(selected: seq<int>): (checked: seq<bool>)
    ensures |checked| == |Genres|
    ensures forall i :: 0 <= i < |Genres| ==> (checked[i] <==> Genres[i].id in selected)
  {
    seq(|Genres|, i requires 0 <= i < |Genres| => Genres[i].id in selected)
  }

  /** Clicking a checkbox flips that checkbox and no other. */
  lemma ClickFlipsOneCheckbox(selected: seq<int>, i: nat)
    requires i < |Genres|
    ensures forall j :: 0 <= j < |Genres| ==>
              Checkboxes(Toggle(selected, Genres[i].id))[j] == (Checkboxes(selected)[j] != (i == j))
  {
    GenreTableWellFormed();
  }
}
