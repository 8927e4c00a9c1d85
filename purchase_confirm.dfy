/**
 * The balance check of FrontEnd/src/components/wallet/PurchaseConfirmModal.jsx: the
 * balance after the purchase, whether it is enough, the shortfall, and when the
 * confirm button may be pressed. The wallet value is the latest one polled.
 */
module PurchaseConfirm {
  import opened Wrappers

  /** What the modal shows once it renders. */
  datatype Summary = Summary(newBalance: real, hasEnoughBalance: bool, difference: real, confirmEnabled: bool)

  function NewBalance(currentWallet: real, gamePrice: real): real {
    currentWallet - gamePrice
  }

  predicate HasEnoughBalance(currentWallet: real, gamePrice: real) {
    currentWallet >= gamePrice
  }

  function Difference(currentWallet: real, gamePrice: real): real {
    gamePrice - currentWallet
  }

  /** The confirm button is disabled while processing or when the balance is short. */
  predicate ConfirmEnabled(isProcessing: bool, hasEnoughBalance: bool) {
    !isProcessing && hasEnoughBalance
  }

  /** The modal: nothing for a non-positive price or when hidden, else its summary. */
  function View(visible: bool, gamePrice: real, currentWallet: real, isProcessing: bool): (v: Option<Summary>)
    ensures v.None? <==> gamePrice <= 0.0 || !visible
    ensures v.Some? ==> v.value.newBalance + gamePrice == currentWallet
    ensures v.Some? ==> (v.value.hasEnoughBalance <==> v.value.newBalance >= 0.0)
    ensures v.Some? ==> v.value.difference == -v.value.newBalance
    ensures v.Some? ==> (v.value.difference > 0.0 <==> !v.value.hasEnoughBalance)
    ensures v.Some? && v.value.confirmEnabled ==> !isProcessing && currentWallet >= gamePrice
    ensures v.Some? && !isProcessing && currentWallet >= gamePrice ==> v.value.confirmEnabled
  {
    if gamePrice <= 0.0 then None
    else if !visible then None
    else
      var enough := HasEnoughBalance(currentWallet, gamePrice);
      Some(Summary(NewBalance(currentWallet, gamePrice), enough,
                   Difference(currentWallet, gamePrice), ConfirmEnabled(isProcessing, enough)))
  }

  /** Confirming can leave the wallet empty but never negative. */
  lemma ConfirmKeepsWalletNonNegative(visible: bool, gamePrice: real, currentWallet: real, isProcessing: bool)
    requires View(visible, gamePrice, currentWallet, isProcessing).Some?
    requires View(visible, gamePrice, currentWallet, isProcessing).value.confirmEnabled
    ensures 0.0 <= NewBalance(currentWallet, gamePrice) < currentWallet
  {
  }
}
