/** The favourites list the application keeps: movies toggled in and out by
    their id. */
module Favorites {
  import opened Catalog
  import KeyedList

  function ItemId(movie: Item): int {
    movie.id
  }

  /** Some favourite has this id. */
  predicate IsFavorite(favorites: seq<Item>, id: int) {
    exists i :: 0 <= i < |favorites| && favorites[i].id == id
  }

  predicate IdsUnique(favorites: seq<Item>) {
    forall i, j :: 0 <= i < j < |favorites| ==> favorites[i].id != favorites[j].id
  }

  lemma HasKeyIsFavorite(favorites: seq<Item>, id: int)
    ensures KeyedList.HasKey(favorites, ItemId, id) <==> IsFavorite(favorites, id)
  {
    if IsFavorite(favorites, id) {
      var i :| 0 <= i < |favorites| && favorites[i].id == id;
      assert ItemId(favorites[i]) == id;
    }
  }

  lemma ToggleFacts(favorites: seq<Item>, movie: Item)
    ensures var next := KeyedList.Toggle(favorites, ItemId, movie);
            && (IsFavorite(favorites, movie.id) ==> forall f :: f in next <==> f in favorites && f.id != movie.id)
            && (IsFavorite(next, movie.id) <==> !IsFavorite(favorites, movie.id))
            && (forall id :: id != movie.id ==> (IsFavorite(next, id) <==> IsFavorite(favorites, id)))
  {
    var next := KeyedList.Toggle(favorites, ItemId, movie);
    HasKeyIsFavorite(favorites, movie.id);
    HasKeyIsFavorite(next, movie.id);
    KeyedList.ToggleFlipsOneKey(favorites, ItemId, movie, movie.id);
    forall id | id != movie.id
      ensures IsFavorite(next, id) <==> IsFavorite(favorites, id)
    {
      KeyedList.ToggleFlipsOneKey(favorites, ItemId, movie, id);
      HasKeyIsFavorite(favorites, id);
      HasKeyIsFavorite(next, id);
    }
    if IsFavorite(favorites, movie.id) {
      forall f
        ensures f in next <==> f in favorites && f.id != movie.id
      {
        if f in next {
          var i :| 0 <= i < |next| && next[i] == f;
        }
        if f in favorites && f.id != movie.id {
          var i :| 0 <= i < |favorites| && favorites[i] == f;
        }
      }
    }
  }

  /** `toggleFavorite`: a movie whose id is not yet a favourite is appended;
      otherwise every favourite with that id is removed, whatever its other
      fields, and the rest keep their order. Only that id changes status. */
  function ToggleFavorite(favorites: seq<Item>, movie: Item): (next: seq<Item>)
    ensures !IsFavorite(favorites, movie.id) ==> next == favorites + [movie]
    ensures IsFavorite(favorites, movie.id) ==>
              forall f :: f in next <==> f in favorites && f.id != movie.id
    ensures IsFavorite(next, movie.id) <==> !IsFavorite(favorites, movie.id)
    ensures forall id :: id != movie.id ==> (IsFavorite(next, id) <==> IsFavorite(favorites, id))
    ensures KeyedList.RemoveKey(next, ItemId, movie.id) == KeyedList.RemoveKey(favorites, ItemId, movie.id)
  {
    HasKeyIsFavorite(favorites, movie.id);
    ToggleFacts(favorites, movie);
    KeyedList.ToggleKeepsOthersInOrder(favorites, ItemId, movie);
    KeyedList.Toggle(favorites, ItemId, movie)
  }

  /** No two favourites share an id, before and after any toggle. */
  lemma ToggleKeepsIdsUnique(favorites: seq<Item>, movie: Item)
    requires IdsUnique(favorites)
    ensures IdsUnique(ToggleFavorite(favorites, movie))
  {
    KeyedList.ToggleKeepsDistinct(favorites, ItemId, movie);
  }

  /** Toggling a movie that is not a favourite twice restores the list. */
  lemma ToggleAbsentTwice(favorites: seq<Item>, movie: Item)
    requires !IsFavorite(favorites, movie.id)
    ensures ToggleFavorite(ToggleFavorite(favorites, movie), movie) == favorites
  {
    HasKeyIsFavorite(favorites, movie.id);
    KeyedList.ToggleAbsentTwice(favorites, ItemId, movie);
  }
}
