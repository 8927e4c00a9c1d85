/**
 * The card choice of FrontEnd/src/components/games/GameGrid.jsx: in library mode each
 * title is looked up among the active rents, and a title with a rent id gets the card
 * that offers the return.
 */
module GameGrid {
  import opened Wrappers
  import opened Js
  import opened Entities

  /** The i-th rent is the first whose game id is strictly equal to v. */
  predicate FirstMatch(rents: seq<Rent>, v: JsVal, i: int) {
    0 <= i < |rents| && StrictEq(rents[i].gameId, v)
    && forall j :: 0 <= j < i ==> !StrictEq(rents[j].gameId, v)
  }

  /** `activeRents.find(r => r.gameId === v)`, as an index (|rents| when none matches). */
  function FindRent(rents: seq<Rent>, v: JsVal): (i: nat)
    ensures i <= |rents|
    ensures i < |rents| ==> FirstMatch(rents, v, i)
    ensures i == |rents| ==> forall j :: 0 <= j < |rents| ==> !StrictEq(rents[j].gameId, v)
  {
    if rents == [] then 0
    else if StrictEq(rents[0].gameId, v) then 0
    else 1 + FindRent(rents[1..], v)
  }

  /** `getRentIdForGame`: None stands for `null`. */
  function RentIdForGame(rents: seq<Rent>, gameId: JsVal): (r: Option<JsVal>)
    ensures NaNOrNotPositive(CoerceStringId(gameId)) ==> r.None?
    ensures r.Some? ==>
              Truthy(r.value) && exists i :: FirstMatch(rents, CoerceStringId(gameId), i) && rents[i].id == r.value
    ensures forall i ::
              !NaNOrNotPositive(CoerceStringId(gameId)) && FirstMatch(rents, CoerceStringId(gameId), i) && Truthy(rents[i].id)
              ==> r == Some(rents[i].id)
    ensures (forall j :: 0 <= j < |rents| ==> !StrictEq(rents[j].gameId, CoerceStringId(gameId))) ==> r.None?
  {
    var v := CoerceStringId(gameId);
    if NaNOrNotPositive(v) then None
    else
      var i := FindRent(rents, v);
      if i < |rents| && Truthy(rents[i].id) then Some(rents[i].id) else None
  }

  /** The card a title gets. */
  datatype Card = LibraryGameCard(rentId: JsVal) | GameCard

  /** `rentId` is looked up only in library mode; the return card needs a truthy one. */
  function CardFor(isLibrary: bool, rents: seq<Rent>, game: Game): (c: Card)
    ensures c.LibraryGameCard? <==> isLibrary && RentIdForGame(rents, game.id).Some?
    ensures c.LibraryGameCard? ==> c.rentId == RentIdForGame(rents, game.id).value && Truthy(c.rentId)
  {
    var rentId := if isLibrary then RentIdForGame(rents, game.id) else None;
    if isLibrary && rentId.Some? then LibraryGameCard(rentId.value) else GameCard
  }

  /**
   * The id is coerced to a number but the rents' game ids are not: a rent whose game id
   * arrived as a string is never found, so its title gets the plain card.
   */
  lemma StringRentIdsNeverMatch(rents: seq<Rent>, game: Game)
    requires forall j :: 0 <= j < |rents| ==> rents[j].gameId.S?
    ensures RentIdForGame(rents, game.id).None?
    ensures CardFor(true, rents, game) == GameCard
  {
    assert !CoerceStringId(game.id).S?;
  }
}
