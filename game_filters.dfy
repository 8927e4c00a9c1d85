/**
 * The two list filters the catalog and library pages share: the title search and the
 * category filter, which keeps every other position of the list filtered so far.
 */
module GameFilters {
  import opened Js
  import opened Seqs
  import opened Entities

  /** `game.title.toLowerCase().includes(query)`. */
  function TitleMatches(query: string): Game -> bool {
    (g: Game) => Includes(LowerStr(g.title), query)
  }

  /** The search query as the filter uses it: lower-cased, then trimmed. */
  function Query(searchQuery: string): string {
    Trim(LowerStr(searchQuery))
  }

  /** The search step: the list untouched for a blank query, else the titles containing it. */
  function ByTitle(games: seq<Game>, searchQuery: string): (r: seq<Game>)
    ensures IsBlank(searchQuery) ==> r == games
    ensures !IsBlank(searchQuery) ==>
              forall i :: 0 <= i < |r| ==> Includes(LowerStr(r[i].title), Query(searchQuery)) && r[i] in games
    ensures !IsBlank(searchQuery) ==>
              forall i :: 0 <= i < |games| && Includes(LowerStr(games[i].title), Query(searchQuery)) ==> games[i] in r
  {
    if IsBlank(searchQuery) then games else Filter(games, TitleMatches(Query(searchQuery)))
  }

  lemma ByTitleIsSubseq(games: seq<Game>, searchQuery: string)
    ensures IsSubseq(ByTitle(games, searchQuery), games)
  {
    if IsBlank(searchQuery) {
      SubseqRefl(games);
    } else {
      FilterIsSubseq(games, TitleMatches(Query(searchQuery)));
    }
  }

  /** The category step: with a category chosen, the elements at even positions. */
  function ByCategory(games: seq<Game>, selectedCategory: JsVal): (r: seq<Game>)
    ensures !Truthy(selectedCategory) ==> r == games
    ensures Truthy(selectedCategory) ==>
              |r| == (|games| + 1) / 2 && forall k :: 0 <= k < |r| ==> r[k] == games[2 * k]
  {
    if Truthy(selectedCategory) then EvenIndexed(games) else games
  }

  lemma ByCategoryIsSubseq(games: seq<Game>, selectedCategory: JsVal)
    ensures IsSubseq(ByCategory(games, selectedCategory), games)
  {
    if Truthy(selectedCategory) {
      EvenIndexedIsSubseq(games);
    } else {
      SubseqRefl(games);
    }
  }

  /** Search, then category. */
  function SearchAndCategory(games: seq<Game>, searchQuery: string, selectedCategory: JsVal): seq<Game> {
    ByCategory(ByTitle(games, searchQuery), selectedCategory)
  }

  /** The two steps together keep an order-preserving sub-list, every title of which matches. */
  lemma SearchAndCategoryKeeps(games: seq<Game>, searchQuery: string, selectedCategory: JsVal)
    ensures var r := SearchAndCategory(games, searchQuery, selectedCategory);
            IsSubseq(r, games)
            && (!IsBlank(searchQuery) ==> forall g :: g in r ==> Includes(LowerStr(g.title), Query(searchQuery)))
  {
    var t := ByTitle(games, searchQuery);
    var r := ByCategory(t, selectedCategory);
    ByTitleIsSubseq(games, searchQuery);
    ByCategoryIsSubseq(t, selectedCategory);
    SubseqTrans(r, t, games);
    SubseqMembers(r, t);
  }
}
