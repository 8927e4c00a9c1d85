/**
 * The catalog listing of FrontEnd/src/pages/Catalog.jsx: the filtered titles and the
 * two counters above the grid.
 */
module Catalog {
  import opened Wrappers
  import opened Js
  import opened Seqs
  import opened Entities
  import opened GameFilters

  /** The `filteredGames` memo; `data` is None until the catalog has loaded. */
  function FilteredGames(data: Option<seq<Game>>, searchQuery: string, selectedCategory: JsVal): (r: seq<Game>)
    ensures data.None? ==> r == []
    ensures data.Some? && IsBlank(searchQuery) && !Truthy(selectedCategory) ==> r == data.value
    ensures data.Some? && !Truthy(selectedCategory) ==> r == ByTitle(data.value, searchQuery)
    ensures data.Some? && Truthy(selectedCategory) ==>
              |r| == (|ByTitle(data.value, searchQuery)| + 1) / 2
              && forall k :: 0 <= k < |r| ==> r[k] == ByTitle(data.value, searchQuery)[2 * k]
    ensures data.Some? && !Truthy(selectedCategory) ==>
              forall i :: 0 <= i < |data.value| && (IsBlank(searchQuery) || Includes(LowerStr(data.value[i].title), Query(searchQuery)))
                ==> data.value[i] in r
  {
    if data.None? then [] else SearchAndCategory(data.value, searchQuery, selectedCategory)
  }

  /** The listing is an order-preserving sub-list of the catalog whose titles all match the query. */
  lemma FilteredGamesKeeps(data: seq<Game>, searchQuery: string, selectedCategory: JsVal)
    ensures var r := FilteredGames(Some(data), searchQuery, selectedCategory);
            IsSubseq(r, data)
            && (!IsBlank(searchQuery) ==> forall g :: g in r ==> Includes(LowerStr(g.title), Query(searchQuery)))
  {
    SearchAndCategoryKeeps(data, searchQuery, selectedCategory);
  }

  /** `data?.length || 0`. */
  function TotalGames(data: Option<seq<Game>>): nat {
    if data.None? then 0 else |data.value|
  }

  /** The total counts the listing shown with no search and no category. */
  lemma TotalIsUnfilteredListing(data: Option<seq<Game>>)
    ensures TotalGames(data) == |FilteredGames(data, "", Null)|
  {
  }

  /** `game.quantity || 0`. */
  function Stock(g: Game): int {
    if g.quantity.Some? then g.quantity.value else 0
  }

  /** `games.reduce((sum, game) => sum + (game.quantity || 0), 0)`. */
  function SumStock(games: seq<Game>): int {
    if games == [] then 0 else SumStock(games[..|games| - 1]) + Stock(games[|games| - 1])
  }

  /** The sum over a list in two parts is the sum of the parts. */
  lemma {:induction false} SumStockAppend(a: seq<Game>, b: seq<Game>)
    ensures SumStock(a + b) == SumStock(a) + SumStock(b)
    decreases |b|
  {
    if b != [] {
      var b' := b[..|b| - 1];
      assert (a + b)[..|a + b| - 1] == a + b';
      SumStockAppend(a, b');
    } else {
      assert a + b == a;
    }
  }

  /** With no negative stock, the sum bounds each title's stock. */
  lemma {:induction false} SumStockBounds(games: seq<Game>)
    requires forall i :: 0 <= i < |games| ==> Stock(games[i]) >= 0
    ensures SumStock(games) >= 0
    ensures forall i :: 0 <= i < |games| ==> Stock(games[i]) <= SumStock(games)
  {
    if games != [] {
      SumStockBounds(games[..|games| - 1]);
    }
  }

  /** `availableGames`: the summed stock, missing quantities counting 0, and 0 before loading. */
  function AvailableGames(data: Option<seq<Game>>): int {
    if data.None? then 0 else SumStock(data.value)
  }

  /** With no negative stock, the counter is at least every title's stock. */
  lemma AvailableBoundsStock(games: seq<Game>)
    requires forall i :: 0 <= i < |games| ==> Stock(games[i]) >= 0
    ensures AvailableGames(Some(games)) >= 0
    ensures forall i :: 0 <= i < |games| ==> Stock(games[i]) <= AvailableGames(Some(games))
  {
    SumStockBounds(games);
  }

  /** Titles without a stock count add nothing to the total. */
  lemma {:induction false} UnstockedAddNothing(games: seq<Game>, g: Game)
    requires g.quantity.None?
    ensures AvailableGames(Some(games + [g])) == AvailableGames(Some(games))
  {
    SumStockAppend(games, [g]);
    assert SumStock([g]) == SumStock([]) + Stock(g);
  }
}
