/**
 * The two rules of FrontEnd/src/data/rents/returnRent.js that run without the network:
 * the check on the rent id before the request, and the message chosen for a failed
 * response. The response itself is an input.
 */
module ReturnRent {
  import opened Wrappers
  import opened Js

  const InvalidRentId: string := "ID do aluguel inválido"

  /** The rent id after both guards: accepted exactly when it coerces to a positive integer. */
  function RentIdGuard(rentId: JsVal): (r: Result<int, string>)
    ensures r.Err? ==> r.error == InvalidRentId
    ensures r.Ok? <==> CoerceStringId(rentId).N? && CoerceStringId(rentId).n.Fin?
                       && IsInteger(CoerceStringId(rentId).n.v) && CoerceStringId(rentId).n.v > 0.0
    ensures r.Ok? ==> r.value > 0 && r.value as real == CoerceStringId(rentId).n.v
  {
    if !Truthy(rentId) || (rentId.N? && (rentId.n.NaN? || rentId.n.v <= 0.0)) then Err(InvalidRentId)
    else
      var rentIdNum := CoerceStringId(rentId);
      if NaNOrNotPositive(rentIdNum) || !(rentIdNum.N? && rentIdNum.n.Fin? && IsInteger(rentIdNum.n.v)) then
        Err(InvalidRentId)
      else Ok(rentIdNum.n.v.Floor)
  }

  /** A fractional or boolean id is refused, though both pass the first guard. */
  lemma FractionAndBooleanRefused()
    ensures RentIdGuard(N(Fin(1.5))).Err?
    ensures RentIdGuard(Bool(true)).Err?
  {
    assert !IsInteger(1.5) by {
      assert 1.5.Floor == 1;
    }
  }

  /** What reading a failed response gives: a JSON body, text, or an exception while reading. */
  datatype Body =
    | JsonBody(error: JsVal, message: JsVal)
    | TextBody(text: string)
    | Unreadable

  const ReturnFailed: string := "Erro ao devolver jogo"
  const UnreadableResponse: string := "Erro ao processar resposta do servidor"
  /** Text longer than this is cut. */
  const MaxText: nat := 100

  /** `Erro ${status}: ${statusText}`. */
  function StatusLine(status: int, statusText: string): string {
    "Erro " + IntToString(status) + ": " + statusText
  }

  /** `a || b`. */
  function Or(a: JsVal, b: JsVal): JsVal {
    if Truthy(a) then a else b
  }

  /** The message of the error thrown for a failed response, built up in one local. */
  method ErrorMessage(body: Body, status: int, statusText: string) returns (message: string)
    ensures body.JsonBody? && Truthy(body.error) ==> message == JsText(body.error)
    ensures body.JsonBody? && !Truthy(body.error) && Truthy(body.message) ==> message == JsText(body.message)
    ensures body.JsonBody? && !Truthy(body.error) && !Truthy(body.message) ==> message == ReturnFailed
    ensures body.TextBody? && |body.text| > MaxText ==>
              |message| == MaxText + 3 && message[..MaxText] == body.text[..MaxText] && message[MaxText..] == "..."
    ensures body.TextBody? && 0 < |body.text| <= MaxText ==> message == body.text
    ensures body.TextBody? && body.text == "" ==> message == StatusLine(status, statusText)
    ensures body.Unreadable? ==>
              message == StatusLine(status, if statusText == "" then UnreadableResponse else statusText)
  {
    var errorMessage := S(ReturnFailed);
    match body {
      case JsonBody(error, msg) =>
        errorMessage := Or(error, Or(msg, errorMessage));
      case TextBody(text) =>
        if text != "" {
          errorMessage := S(if |text| > MaxText then text[..MaxText] + "..." else text);
        } else {
          errorMessage := S(StatusLine(status, statusText));
        }
      case Unreadable =>
        errorMessage := S(StatusLine(status, if statusText == "" then UnreadableResponse else statusText));
    }
    message := JsText(errorMessage);
  }
}
