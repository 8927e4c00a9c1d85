/**
 * The favourites list of FrontEnd/src/contexts/FavoritesContext.jsx: a list of game
 * uuids that add, remove and toggle replace. The list is meant to behave as a set;
 * the functions below say what each operation makes of the list, and the lemmas show
 * the set behaviour.
 */
module Favorites {
  import opened Seqs

  /** The list `addFavorite` saves: unchanged if present, else the uuid appended. */
  function Added(favorites: seq<string>, uuid: string): seq<string> {
    if uuid in favorites then favorites else favorites + [uuid]
  }

  /** The `filter` test of `removeFavorite`: `uuid => uuid !== gameUuid`. */
  function Other(uuid: string): string -> bool {
    (x: string) => x != uuid
  }

  /** The list `removeFavorite` saves: every other uuid, in order. */
  function Removed(favorites: seq<string>, uuid: string): seq<string> {
    Filter(favorites, Other(uuid))
  }

  /** The list `toggleFavorite` saves. */
  function Toggled(favorites: seq<string>, uuid: string): seq<string> {
    if uuid in favorites then Removed(favorites, uuid) else Added(favorites, uuid)
  }

  /** The favourites state, as the provider holds it. */
  class FavoritesStore {
    var favorites: seq<string>

    constructor()
      ensures favorites == []
    {
      favorites := [];
    }

    /** `isFavorite`: membership in the list. */
    function IsFavorite(uuid: string): (b: bool)
      reads this
      ensures b <==> exists i :: 0 <= i < |favorites| && favorites[i] == uuid
    {
      uuid in favorites
    }

    method AddFavorite(uuid: string)
      modifies this
      ensures favorites == Added(old(favorites), uuid)
    {
      if !(uuid in favorites) {
        favorites := favorites + [uuid];
      }
    }

    method RemoveFavorite(uuid: string)
      modifies this
      ensures favorites == Removed(old(favorites), uuid)
    {
      favorites := Filter(favorites, Other(uuid));
    }

    method ToggleFavorite(uuid: string)
      modifies this
      ensures favorites == Toggled(old(favorites), uuid)
    {
      if IsFavorite(uuid) {
        RemoveFavorite(uuid);
      } else {
        AddFavorite(uuid);
      }
    }
  }

  /** Adding makes the uuid a member, appends it at the end when absent, and keeps the rest. */
  lemma AddedMembers(favorites: seq<string>, uuid: string, other: string)
    ensures uuid in favorites ==> Added(favorites, uuid) == favorites
    ensures uuid !in favorites ==> Added(favorites, uuid) == favorites + [uuid]
    ensures other in Added(favorites, uuid) <==> other in favorites || other == uuid
  {
  }

  /** Removing drops every occurrence of the uuid and keeps the others in order. */
  lemma RemovedMembers(favorites: seq<string>, uuid: string, other: string)
    ensures uuid !in Removed(favorites, uuid)
    ensures other != uuid ==> (other in Removed(favorites, uuid) <==> other in favorites)
    ensures IsSubseq(Removed(favorites, uuid), favorites)
  {
    FilterIsSubseq(favorites, Other(uuid));
  }

  /** Toggling flips the uuid's membership and no other uuid's. */
  lemma ToggleFlips(favorites: seq<string>, uuid: string, other: string)
    ensures uuid in Toggled(favorites, uuid) <==> uuid !in favorites
    ensures other != uuid ==> (other in Toggled(favorites, uuid) <==> other in favorites)
  {
    RemovedMembers(favorites, uuid, other);
  }

  /** Toggling an absent uuid twice gives back the original list. */
  lemma ToggleTwiceRestores(favorites: seq<string>, uuid: string)
    requires uuid !in favorites
    ensures Toggled(Toggled(favorites, uuid), uuid) == favorites
  {
    var once := favorites + [uuid];
    assert Toggled(favorites, uuid) == once;
    assert uuid in once;
    FilterAppend(favorites, [uuid], Other(uuid));
    FilterAll(favorites, Other(uuid));
    assert Filter([uuid], Other(uuid)) == [];
  }

  lemma AddedNoDup(favorites: seq<string>, uuid: string)
    requires NoDup(favorites)
    ensures NoDup(Added(favorites, uuid))
  {
  }

  lemma ToggledNoDup(favorites: seq<string>, uuid: string)
    requires NoDup(favorites)
    ensures NoDup(Toggled(favorites, uuid))
  {
    FilterNoDup(favorites, Other(uuid));
  }

  /** One call on the context. */
  datatype Op = Add(uuid: string) | Remove(uuid: string) | Toggle(uuid: string)

  function Apply(favorites: seq<string>, op: Op): seq<string> {
    match op
    case Add(u) => Added(favorites, u)
    case Remove(u) => Removed(favorites, u)
    case Toggle(u) => Toggled(favorites, u)
  }

  /** The list after a run of calls, first call first. */
  function ApplyAll(favorites: seq<string>, ops: seq<Op>): seq<string>
    decreases |ops|
  {
    if ops == [] then favorites else ApplyAll(Apply(favorites, ops[0]), ops[1..])
  }

  /** A duplicate-free list stays duplicate-free under any run of calls. */
  lemma {:induction false} ApplyAllNoDup(favorites: seq<string>, ops: seq<Op>)
    requires NoDup(favorites)
    ensures NoDup(ApplyAll(favorites, ops))
    decreases |ops|
  {
    if ops != [] {
      match ops[0] {
        case Add(u) => AddedNoDup(favorites, u);
        case Remove(u) => FilterNoDup(favorites, Other(u));
        case Toggle(u) => ToggledNoDup(favorites, u);
      }
      ApplyAllNoDup(Apply(favorites, ops[0]), ops[1..]);
    }
  }
}
