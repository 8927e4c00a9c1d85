/**
 * The single-field editor of FrontEnd/src/components/games/EditFieldModal.jsx: the value
 * the input starts with, the guards on the title's id, and the one-key update object.
 * A title is a record from field names to values.
 */
module EditField {
  import opened Wrappers
  import opened Js

  type Record = map<string, JsVal>

  /** `record[field]`: undefined for a missing key. */
  function Get(r: Record, field: string): JsVal {
    if field in r then r[field] else Undef
  }

  /** `x || ''`. */
  function OrEmpty(x: JsVal): (r: JsVal)
    ensures Truthy(x) ==> r == x
    ensures !Truthy(x) ==> r == S("")
  {
    if Truthy(x) then x else S("")
  }

  /**
   * The effect that seeds the input: for a shown title, the multiplayer flag as 'true' or
   * 'false' and any other field's value or ''; otherwise the value stays as it was.
   */
  function InitialValue(game: Option<Record>, visible: bool, field: string, current: JsVal): (v: JsVal)
    ensures game.None? || !visible ==> v == current
    ensures game.Some? && visible && field == "multiplayer" ==>
              v == (if Truthy(Get(game.value, "multiplayer")) then S("true") else S("false"))
    ensures game.Some? && visible && field != "multiplayer" ==> v == OrEmpty(Get(game.value, field))
  {
    if game.Some? && visible then
      if field == "multiplayer" then
        (if Truthy(Get(game.value, "multiplayer")) then S("true") else S("false"))
      else if field == "title" then OrEmpty(Get(game.value, "title"))
      else OrEmpty(Get(game.value, field))
    else current
  }

  const GameMissing: string := "Jogo não encontrado"
  const InvalidGameId: string := "ID do jogo inválido"

  /** `handleSubmit`'s guards: the error shown, or the numeric id the update is sent for. */
  function CheckGame(game: Option<Record>): (r: Result<JsVal, string>)
    ensures r == Err(GameMissing) <==> game.None? || Get(game.value, "id") == Undef || Get(game.value, "id") == Null
    ensures r.Ok? ==> r.value == CoerceStringId(Get(game.value, "id"))
    ensures r.Ok? ==> ToNumber(r.value).Fin? && ToNumber(r.value).v > 0.0
    ensures r.Ok? <==> game.Some? && Get(game.value, "id") != Undef && Get(game.value, "id") != Null
                       && !NaNOrNotPositive(CoerceStringId(Get(game.value, "id")))
    ensures r.Err? ==> r.error == GameMissing || r.error == InvalidGameId
  {
    if game.None? || Get(game.value, "id") == Undef || Get(game.value, "id") == Null then Err(GameMissing)
    else
      var gameId := CoerceStringId(Get(game.value, "id"));
      if NaNOrNotPositive(gameId) then Err(InvalidGameId) else Ok(gameId)
  }

  /** The value sent for the edited field: the multiplayer text compared with 'true', else as typed. */
  function SentValue(field: string, value: JsVal): JsVal {
    if field == "multiplayer" then Bool(value == S("true")) else value
  }

  /** `updateData`: an empty object that receives the edited field alone. */
  method BuildUpdate(field: string, value: JsVal) returns (updateData: Record)
    ensures updateData.Keys == {field}
    ensures updateData[field] == SentValue(field, value)
    ensures field == "multiplayer" ==> updateData[field].Bool?
  {
    updateData := map[];
    if field == "multiplayer" {
      updateData := updateData["multiplayer" := Bool(value == S("true"))];
    } else {
      updateData := updateData[field := value];
    }
  }

  /** Opening the editor on the multiplayer flag and saving unchanged sends the same flag back. */
  lemma MultiplayerRoundTrip(game: Record, b: bool, current: JsVal)
    requires Get(game, "multiplayer") == Bool(b)
    ensures SentValue("multiplayer", InitialValue(Some(game), true, "multiplayer", current)) == Bool(b)
  {
  }

  /** Saving any other field unchanged sends its value back when it is truthy ... */
  lemma TruthyFieldRoundTrip(game: Record, field: string, current: JsVal)
    requires field != "multiplayer" && Truthy(Get(game, field))
    ensures SentValue(field, InitialValue(Some(game), true, field, current)) == Get(game, field)
  {
  }

  /** ... and as '' when it is falsy: a price of 0 saved unchanged becomes the empty text. */
  lemma FalsyFieldSentEmpty(game: Record, field: string, current: JsVal)
    requires field != "multiplayer" && !Truthy(Get(game, field))
    ensures SentValue(field, InitialValue(Some(game), true, field, current)) == S("")
  {
  }

  const PlatformOptions: seq<string> := ["PS5", "PS4", "PS3", "XBOX", "PC", "NINTENDO"]
  const MultiplayerOptions: seq<string> := ["true", "false"]

  /** `isSelectField`: platform and multiplayer are chosen from a list. */
  predicate IsSelectField(field: string) {
    field == "platform" || field == "multiplayer"
  }

  /** The options the select offers. */
  function Options(field: string): seq<string> {
    if field == "platform" then PlatformOptions else MultiplayerOptions
  }

  /** The multiplayer editor always opens on one of its options. */
  lemma MultiplayerOpensOnAnOption(game: Record, current: JsVal)
    ensures IsSelectField("multiplayer")
    ensures InitialValue(Some(game), true, "multiplayer", current).S?
    ensures InitialValue(Some(game), true, "multiplayer", current).s in Options("multiplayer")
  {
  }
}
