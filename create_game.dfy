/**
 * The submit guards of FrontEnd/src/components/games/CreateGameModal.jsx and the uuid
 * the handler writes into the form object before sending it.
 */
module CreateGame {
  import opened Wrappers
  import opened Js

  const TitleMissing: string := "Por favor, preencha o título do jogo"
  const ImageMissing: string := "Por favor, preencha a URL da imagem"
  const NegativeQuantity: string := "A quantidade deve ser maior ou igual a zero"

  /** The guards in order: title, image URL, quantity; the first failure is the warning shown. */
  function SubmitError(title: string, imageUrl: string, quantity: int): (e: Option<string>)
    ensures e == Some(TitleMissing) <==> IsBlank(title)
    ensures e == Some(ImageMissing) <==> !IsBlank(title) && IsBlank(imageUrl)
    ensures e == Some(NegativeQuantity) <==> !IsBlank(title) && !IsBlank(imageUrl) && quantity < 0
    ensures e.None? <==> !IsBlank(title) && !IsBlank(imageUrl) && quantity >= 0
  {
    if IsBlank(title) then Some(TitleMissing)
    else if IsBlank(imageUrl) then Some(ImageMissing)
    else if quantity < 0 then Some(NegativeQuantity)
    else None
  }

  /** A form with every field filled and no stock passes the guards. */
  lemma ZeroQuantityAccepted(title: string, imageUrl: string)
    requires !IsBlank(title) && !IsBlank(imageUrl)
    ensures SubmitError(title, imageUrl, 0).None?
  {
  }

  /** The form object the modal edits; `handleSubmit` writes its uuid in place. */
  class GameForm {
    var uuid: string
    var title: string
    var imageUrl: string
    var quantity: int

    /** The empty form the modal starts with. */
    constructor ()
      ensures uuid == "" && title == "" && imageUrl == "" && quantity == 0
    {
      uuid := "";
      title := "";
      imageUrl := "";
      quantity := 0;
    }

    /**
     * `handleSubmit` up to the request: the warning of the first failed guard, or the
     * form ready to send, with a uuid filled in from freshUuid only when it was empty.
     */
    method HandleSubmit(freshUuid: string) returns (r: Option<string>)
      modifies this
      ensures r == SubmitError(old(title), old(imageUrl), old(quantity))
      ensures title == old(title) && imageUrl == old(imageUrl) && quantity == old(quantity)
      ensures r.Some? ==> uuid == old(uuid)
      ensures r.None? && old(uuid) == "" ==> uuid == freshUuid
      ensures r.None? && old(uuid) != "" ==> uuid == old(uuid)
    {
      r := SubmitError(title, imageUrl, quantity);
      if r.Some? {
        return;
      }
      if uuid == "" {
        uuid := freshUuid;
      }
    }
  }
}
