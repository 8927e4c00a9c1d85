/**
 * The library listing of FrontEnd/src/pages/Library.jsx: the titles the user has on
 * active rent, then the same search and category steps as the catalog.
 */
module Library {
  import opened Wrappers
  import opened Js
  import opened Seqs
  import opened Entities
  import opened GameFilters

  /** `rent?.gameId`: undefined for a missing rent. */
  function RentGameId(r: Option<Rent>): JsVal {
    if r.None? then Undef else r.value.gameId
  }

  /** `id !== null && id !== undefined`. */
  predicate IsPresentId(id: JsVal) {
    id != Null && id != Undef
  }

  /** The `rentedGameIds` list. */
  function RentedGameIds(rents: seq<Option<Rent>>): (ids: seq<JsVal>)
    ensures forall i :: 0 <= i < |ids| ==> IsPresentId(ids[i])
    ensures forall i :: 0 <= i < |rents| && IsPresentId(RentGameId(rents[i])) ==> RentGameId(rents[i]) in ids
  {
    Filter(Map(rents, RentGameId), IsPresentId)
  }

  /**
   * `const gameId = typeof game.id === 'string' ? Number(game.id) : game.id;
   * gameId && numbers.includes(gameId)`: the list holds only numbers, so a non-number
   * id is never found.
   */
  function IsRented(numbers: seq<Num>): Game -> bool {
    (g: Game) => RentedId(numbers, CoerceStringId(g.id))
  }

  /** The coerced id is truthy, a number, and one of the rented numbers. */
  predicate RentedId(numbers: seq<Num>, id: JsVal) {
    Truthy(id) && id.N? && id.n in numbers
  }

  /** What the page reads: the error flags and the two responses (None when not an array). */
  datatype Inputs = Inputs(
    gamesError: bool,
    rentsError: bool,
    gamesData: Option<seq<Game>>,
    activeRents: Option<seq<Option<Rent>>>)

  /** The titles whose id is among the rented ids (the first `filter` of the memo). */
  function Rented(games: seq<Game>, rents: seq<Option<Rent>>): seq<Game> {
    Filter(games, IsRented(Map(RentedGameIds(rents), ToNumber)))
  }

  /** The `filteredGames` memo. */
  function FilteredGames(inp: Inputs, searchQuery: string, selectedCategory: JsVal): (r: seq<Game>)
    ensures inp.gamesError || inp.rentsError || inp.gamesData.None? || inp.activeRents.None? ==> r == []
    ensures inp.activeRents.Some? && RentedGameIds(inp.activeRents.value) == [] ==> r == []
    ensures r != [] ==> inp.gamesData.Some? && inp.activeRents.Some?
    ensures Loaded(inp) && !Truthy(selectedCategory) ==>
              r == ByTitle(Rented(inp.gamesData.value, inp.activeRents.value), searchQuery)
    ensures Loaded(inp) && Truthy(selectedCategory) ==>
              var searched := ByTitle(Rented(inp.gamesData.value, inp.activeRents.value), searchQuery);
              |r| == (|searched| + 1) / 2 && forall k :: 0 <= k < |r| ==> r[k] == searched[2 * k]
  {
    if inp.gamesError || inp.rentsError then []
    else if inp.gamesData.None? then []
    else if inp.activeRents.None? then []
    else
      var ids := RentedGameIds(inp.activeRents.value);
      if |ids| == 0 then []
      else SearchAndCategory(Rented(inp.gamesData.value, inp.activeRents.value), searchQuery, selectedCategory)
  }

  /** Both lists arrived without error and some rent names a game. */
  predicate Loaded(inp: Inputs) {
    !inp.gamesError && !inp.rentsError && inp.gamesData.Some? && inp.activeRents.Some?
    && RentedGameIds(inp.activeRents.value) != []
  }

  /**
   * The listing is an order-preserving sub-list of the titles; each listed title has a
   * truthy numeric id equal to the number of some rent's game id, and matches the search.
   */
  lemma FilteredGamesKeeps(inp: Inputs, searchQuery: string, selectedCategory: JsVal)
    requires inp.gamesData.Some? && inp.activeRents.Some?
    ensures var r := FilteredGames(inp, searchQuery, selectedCategory);
            var ids := RentedGameIds(inp.activeRents.value);
            IsSubseq(r, inp.gamesData.value)
            && (forall g :: g in r ==>
                  Truthy(CoerceStringId(g.id)) && CoerceStringId(g.id).N?
                  && exists i :: 0 <= i < |ids| && ToNumber(ids[i]) == CoerceStringId(g.id).n)
            && (!IsBlank(searchQuery) ==> forall g :: g in r ==> Includes(LowerStr(g.title), Query(searchQuery)))
  {
    var r := FilteredGames(inp, searchQuery, selectedCategory);
    var games := inp.gamesData.value;
    var ids := RentedGameIds(inp.activeRents.value);
    if inp.gamesError || inp.rentsError || |ids| == 0 {
      assert r == [];
    } else {
      var numbers := Map(ids, ToNumber);
      var filtered := Rented(games, inp.activeRents.value);
      SearchAndCategoryKeeps(filtered, searchQuery, selectedCategory);
      FilterIsSubseq(games, IsRented(numbers));
      SubseqTrans(r, filtered, games);
      SubseqMembers(r, filtered);
      forall g | g in r
        ensures Truthy(CoerceStringId(g.id)) && CoerceStringId(g.id).N?
                && exists i :: 0 <= i < |ids| && ToNumber(ids[i]) == CoerceStringId(g.id).n
      {
        var j :| 0 <= j < |filtered| && filtered[j] == g;
        assert IsRented(numbers)(filtered[j]);
        RentedHasNumericId(ids, CoerceStringId(g.id));
      }
    }
  }

  /** An id the rented filter accepts is a truthy number that some rent's game id converts to. */
  lemma RentedHasNumericId(ids: seq<JsVal>, id: JsVal)
    requires RentedId(Map(ids, ToNumber), id)
    ensures Truthy(id) && id.N?
    ensures exists i :: 0 <= i < |ids| && ToNumber(ids[i]) == id.n
  {
    var numbers := Map(ids, ToNumber);
    var i :| 0 <= i < |numbers| && numbers[i] == id.n;
    assert ToNumber(ids[i]) == numbers[i];
  }

  /** With no category, every rented title that matches the search (or any, for a blank one) is listed. */
  lemma RentedTitleListed(inp: Inputs, searchQuery: string, g: Game)
    requires !inp.gamesError && !inp.rentsError
    requires inp.gamesData.Some? && inp.activeRents.Some?
    requires g in inp.gamesData.value
    requires IsRented(Map(RentedGameIds(inp.activeRents.value), ToNumber))(g)
    requires IsBlank(searchQuery) || Includes(LowerStr(g.title), Query(searchQuery))
    ensures g in FilteredGames(inp, searchQuery, Null)
  {
    var games := inp.gamesData.value;
    var numbers := Map(RentedGameIds(inp.activeRents.value), ToNumber);
    assert |numbers| > 0;
    var rented := Rented(games, inp.activeRents.value);
    var i :| 0 <= i < |games| && games[i] == g;
    assert IsRented(numbers)(games[i]);
    assert g in rented;
    var j :| 0 <= j < |rented| && rented[j] == g;
    assert g in ByTitle(rented, searchQuery);
  }

}
