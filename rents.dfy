/**
 * The per-rent figures of FrontEnd/src/pages/Rents.jsx: the title shown for a rent,
 * the days left until the expected return, whether the rent is overdue and whether
 * the backend reported a fine. Dates are milliseconds since the epoch and the
 * current time is a parameter.
 */
module Rents {
  import opened Wrappers
  import opened Js
  import opened Entities

  /** Milliseconds in a day: 1000 * 60 * 60 * 24. */
  const DayMs: int := 86400000

  /** `Math.ceil(a / DayMs)` for an integer number of milliseconds. */
  function CeilDays(a: int): (d: int)
    ensures (d - 1) * DayMs < a <= d * DayMs
  {
    -((-a) / DayMs)
  }

  /** `getDaysUntilReturn`: null without a date, else the whole days left, rounded up. */
  function DaysUntilReturn(expectedReturnDate: Option<int>, now: int): (r: Option<int>)
    ensures expectedReturnDate.None? <==> r.None?
    ensures r.Some? ==> (r.value - 1) * DayMs < expectedReturnDate.value - now <= r.value * DayMs
  {
    match expectedReturnDate
    case None => None
    case Some(e) => Some(CeilDays(e - now))
  }

  /** `isOverdue`: the day count is present and negative, that is, a whole day has passed. */
  predicate IsOverdue(expectedReturnDate: Option<int>, now: int): (b: bool)
    ensures b <==> expectedReturnDate.Some? && expectedReturnDate.value <= now - DayMs
  {
    NegativeDaysIffDayPast(expectedReturnDate, now);
    var days := DaysUntilReturn(expectedReturnDate, now);
    days.Some? && days.value < 0
  }

  /** The day count is negative exactly when the expected date lies a whole day or more in the past. */
  lemma NegativeDaysIffDayPast(expectedReturnDate: Option<int>, now: int)
    ensures var days := DaysUntilReturn(expectedReturnDate, now);
            (days.Some? && days.value < 0)
            <==> expectedReturnDate.Some? && expectedReturnDate.value <= now - DayMs
  {
    if expectedReturnDate.Some? {
      var d := DaysUntilReturn(expectedReturnDate, now).value;
      var a := expectedReturnDate.value - now;
      assert (d - 1) * DayMs < a <= d * DayMs;
      if d < 0 {
        assert d * DayMs <= -DayMs;
      }
      if a <= -DayMs {
        assert (d - 1) * DayMs < -DayMs;
      }
    }
  }

  /** A rent without an expected date is never overdue. */
  lemma NoDateNeverOverdue(now: int)
    ensures !IsOverdue(None, now)
  {
  }

  /** A rent due later today, or on any later day, is not overdue. */
  lemma DueNotOverdue(expectedReturnDate: int, now: int)
    requires expectedReturnDate > now - DayMs
    ensures !IsOverdue(Some(expectedReturnDate), now)
  {
  }

  /** The `find` test: the game's id, a numeric string read as a number, equals gameId. */
  predicate IdMatches(g: Game, gameId: JsVal) {
    StrictEq(CoerceStringId(g.id), gameId)
  }

  /** `games?.find(...)`: the first game whose coerced id equals gameId. */
  function FindGame(games: seq<Game>, gameId: JsVal): (r: Option<nat>)
    ensures r.Some? ==> r.value < |games| && IdMatches(games[r.value], gameId)
                        && forall j :: 0 <= j < r.value ==> !IdMatches(games[j], gameId)
    ensures r.None? ==> forall j :: 0 <= j < |games| ==> !IdMatches(games[j], gameId)
  {
    if games == [] then None
    else if IdMatches(games[0], gameId) then Some(0)
    else
      match FindGame(games[1..], gameId)
      case None => None
      case Some(k) => Some(k + 1)
  }

  /** The text shown when no title is found. */
  function Fallback(gameId: JsVal): string {
    "Jogo #" + JsText(gameId)
  }

  /** `getGameTitle`: the first matching game's title when non-empty, else "Jogo #<gameId>". */
  function GetGameTitle(games: Option<seq<Game>>, gameId: JsVal): (t: string)
    ensures games.None? ==> t == Fallback(gameId)
    ensures games.Some? && FindGame(games.value, gameId).Some?
            && games.value[FindGame(games.value, gameId).value].title != "" ==>
              t == games.value[FindGame(games.value, gameId).value].title
    ensures games.Some? && FindGame(games.value, gameId).Some?
            && games.value[FindGame(games.value, gameId).value].title == "" ==>
              t == Fallback(gameId)
    ensures games.Some? && FindGame(games.value, gameId).None? ==> t == Fallback(gameId)
  {
    if games.None? then Fallback(gameId)
    else
      match FindGame(games.value, gameId)
      case None => Fallback(gameId)
      case Some(i) => if games.value[i].title != "" then games.value[i].title else Fallback(gameId)
  }

  /**
   * Only the first match counts: a first match without a title shows the fallback
   * even when a later game with the same id has one.
   */
  lemma FirstMatchDecides(g1: Game, g2: Game, gameId: JsVal)
    requires IdMatches(g1, gameId) && g1.title == ""
    requires IdMatches(g2, gameId) && g2.title != ""
    ensures GetGameTitle(Some([g1, g2]), gameId) == Fallback(gameId)
  {
  }

  /** A numeric-string id matches the same number. */
  lemma StringIdMatchesNumber(title: string)
    requires title != ""
    ensures GetGameTitle(Some([Game(S("7"), title, None)]), N(Fin(7.0))) == title
  {
    assert !IsSpace("7"[0]);
    assert TrimStart("7") == "7";
    assert "7"[|"7"| - 1] == '7';
    assert TrimEnd("7") == "7";
    assert LeadingDigits("7") == 1;
    assert "7"[..1] == "7";
    assert ScanDecimal("7") == Some(Decimal("7", "", 1));
    assert DigitsValue("7") == 7;
  }

  /** `hasFine`: the backend's overdue day count is present and positive. */
  predicate HasFine(daysOverdue: Option<int>) {
    daysOverdue.Some? && daysOverdue.value > 0
  }

  /** What a rent card shows. */
  datatype RentCard = RentCard(title: string, daysUntilReturn: Option<int>, overdue: bool, hasFine: bool)

  /** The figures of one rent card. */
  function Card(rent: Rent, games: Option<seq<Game>>, now: int): (c: RentCard)
    ensures c.overdue <==> rent.expectedReturnDate.Some? && rent.expectedReturnDate.value <= now - DayMs
    ensures c.overdue ==> c.daysUntilReturn.Some? && c.daysUntilReturn.value < 0
    ensures c.hasFine <==> rent.daysOverdue.Some? && rent.daysOverdue.value > 0
  {
    RentCard(GetGameTitle(games, rent.gameId), DaysUntilReturn(rent.expectedReturnDate, now),
             IsOverdue(rent.expectedReturnDate, now), HasFine(rent.daysOverdue))
  }
}
