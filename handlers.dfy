/**
 * The decisions the UI handlers take before any request: the ordered form
 * checks of the transfer and exchange forms, and the login guard of the two
 * account navigation handlers.
 *
 * Form fields arrive as their JavaScript values: an account or currency id is
 * a string, empty when nothing was chosen (an unset `dataset.value` is treated
 * the same way), and an amount is the result of `parseFloat`, `None` for `NaN`.
 */
module Handlers {
  import opened Wrappers

  /** The `{ success, error }` record a `validate()` closure returns. */
  datatype Validation = Validation(success: bool, error: string)

  const NO_SOURCE_ACCOUNT: string := "Не указан счет списания"
  const NO_TARGET_ACCOUNT: string := "Не указан счет зачисления"
  const NO_SOURCE_CURRENCY: string := "Не выбрана валюта списания"
  const NO_TARGET_CURRENCY: string := "Не выбрана валюта зачисления"
  const BAD_AMOUNT: string := "Некорректная сумма перевода"

  /** `!parseFloat(v) || parseFloat(v) <= 0` fails for `NaN`, zero and negative amounts alike. */
  predicate AmountAccepted(amount: Option<real>)
    ensures !AmountAccepted(amount) <==> amount.None? || amount.value == 0.0 || amount.value <= 0.0
  {
    amount.Some? && amount.value > 0.0
  }

  // ---------------------------------------------------------------------------
  // First failure wins

  /** One check of a form: whether it passes and the message shown when it does not. */
  datatype Check = Check(passes: bool, error: string)

  /**
   * Reference reading of an `if / else if` validation chain: the first failing
   * check decides the error, and only a form passing every check succeeds.
   */
  function FirstFailure(checks: seq<Check>): (r: Validation)
    ensures r.success <==> forall j :: 0 <= j < |checks| ==> checks[j].passes
    ensures r.success ==> r.error == ""
    ensures !r.success ==>
      exists j :: 0 <= j < |checks| && !checks[j].passes &&
        r.error == checks[j].error && forall m :: 0 <= m < j ==> checks[m].passes
  {
    if |checks| == 0 then Validation(true, "")
    else if !checks[0].passes then Validation(false, checks[0].error)
    else
      var r := FirstFailure(checks[1..]);
      assert forall j :: 1 <= j < |checks| ==> checks[j] == checks[1..][j - 1];
      r
  }

  // ---------------------------------------------------------------------------
  // The two forms

  /** The transfer form's `validate()` in `onCreateTransactionTo`. */
  function ValidateTransfer(accountIdFrom: string, accountIdTo: string, amount: Option<real>): (r: Validation)
    ensures r.success <==> r.error == ""
  {
    if accountIdFrom == "" then Validation(false, NO_SOURCE_ACCOUNT)
    else if accountIdTo == "" then Validation(false, NO_TARGET_ACCOUNT)
    else if !AmountAccepted(amount) then Validation(false, BAD_AMOUNT)
    else Validation(true, "")
  }

  /** The exchange form's `validate()` in `onExchange`. */
  function ValidateExchange(currencyFrom: string, currencyTo: string, amount: Option<real>): (r: Validation)
    ensures r.success <==> r.error == ""
  {
    if currencyFrom == "" then Validation(false, NO_SOURCE_CURRENCY)
    else if currencyTo == "" then Validation(false, NO_TARGET_CURRENCY)
    else if !AmountAccepted(amount) then Validation(false, BAD_AMOUNT)
    else Validation(true, "")
  }

  /** The transfer checks are a first-failure chain: missing source account, missing target account, bad amount. */
  lemma TransferIsFirstFailure(accountIdFrom: string, accountIdTo: string, amount: Option<real>)
    ensures ValidateTransfer(accountIdFrom, accountIdTo, amount) ==
      FirstFailure([Check(accountIdFrom != "", NO_SOURCE_ACCOUNT),
                    Check(accountIdTo != "", NO_TARGET_ACCOUNT),
                    Check(AmountAccepted(amount), BAD_AMOUNT)])
  {
    var checks := [Check(accountIdFrom != "", NO_SOURCE_ACCOUNT),
                   Check(accountIdTo != "", NO_TARGET_ACCOUNT),
                   Check(AmountAccepted(amount), BAD_AMOUNT)];
    var c1 := checks[1..];
    var c2 := c1[1..];
    assert FirstFailure(c2[1..]) == Validation(true, "");
    assert FirstFailure(c2) == if !c2[0].passes then Validation(false, c2[0].error) else FirstFailure(c2[1..]);
    assert FirstFailure(c1) == if !c1[0].passes then Validation(false, c1[0].error) else FirstFailure(c2);
  }

  /** The exchange checks are the same chain: missing source currency, missing target currency, bad amount. */
  lemma ExchangeIsFirstFailure(currencyFrom: string, currencyTo: string, amount: Option<real>)
    ensures ValidateExchange(currencyFrom, currencyTo, amount) ==
      FirstFailure([Check(currencyFrom != "", NO_SOURCE_CURRENCY),
                    Check(currencyTo != "", NO_TARGET_CURRENCY),
                    Check(AmountAccepted(amount), BAD_AMOUNT)])
  {
    var checks := [Check(currencyFrom != "", NO_SOURCE_CURRENCY),
                   Check(currencyTo != "", NO_TARGET_CURRENCY),
                   Check(AmountAccepted(amount), BAD_AMOUNT)];
    var c1 := checks[1..];
    var c2 := c1[1..];
    assert FirstFailure(c2[1..]) == Validation(true, "");
    assert FirstFailure(c2) == if !c2[0].passes then Validation(false, c2[0].error) else FirstFailure(c2[1..]);
    assert FirstFailure(c1) == if !c1[0].passes then Validation(false, c1[0].error) else FirstFailure(c2);
  }

  // ---------------------------------------------------------------------------
  // What the handlers do next

  /** A handler either shows a warning and stops, or goes on to send its request. */
  datatype Outcome = Warn(message: string) | SendRequest

  /** What the transfer and exchange submit handlers do after `validate()`: a failed check is shown as a warning and nothing is sent. */
  function AfterValidation(valid: Validation): (r: Outcome)
    ensures r.SendRequest? <==> valid.success
    ensures r.Warn? ==> r.message == valid.error
  {
    if !valid.success then Warn(valid.error) else SendRequest
  }

  /** A transfer is sent only with both accounts chosen and a positive amount. */
  lemma TransferSentOnlyWhenValid(accountIdFrom: string, accountIdTo: string, amount: Option<real>)
    ensures AfterValidation(ValidateTransfer(accountIdFrom, accountIdTo, amount)).SendRequest? <==>
      accountIdFrom != "" && accountIdTo != "" && AmountAccepted(amount)
  {
  }

  /** An exchange is sent only with both currencies chosen and a positive amount. */
  lemma ExchangeSentOnlyWhenValid(currencyFrom: string, currencyTo: string, amount: Option<real>)
    ensures AfterValidation(ValidateExchange(currencyFrom, currencyTo, amount)).SendRequest? <==>
      currencyFrom != "" && currencyTo != "" && AmountAccepted(amount)
  {
  }

  // ---------------------------------------------------------------------------
  // Navigation guard

  const LOGIN_PATH: string := "/login"
  const ACCOUNTS_PREFIX: string := "/accounts/"

  /** `onOpenAccount({ id })`: the route it navigates to. */
  function OpenAccountPath(loggedOn: bool, id: string): (r: string)
    ensures r == LOGIN_PATH <==> !loggedOn
    ensures loggedOn ==>
      |r| == |ACCOUNTS_PREFIX| + |id| && r[..|ACCOUNTS_PREFIX|] == ACCOUNTS_PREFIX &&
      r[|ACCOUNTS_PREFIX|..] == id
  {
    if !loggedOn then LOGIN_PATH else ACCOUNTS_PREFIX + id
  }

  /** `onOpenAccountHistory({ id })`: the route it navigates to. */
  function OpenAccountHistoryPath(loggedOn: bool, id: string): (r: string)
    ensures r == LOGIN_PATH <==> !loggedOn
    ensures loggedOn ==> r == OpenAccountPath(loggedOn, id) + "/history"
  {
    if !loggedOn then LOGIN_PATH else ACCOUNTS_PREFIX + id + "/history"
  }

  /** Different accounts lead to different pages. */
  lemma OpenAccountPathInjective(id1: string, id2: string)
    requires id1 != id2
    ensures OpenAccountPath(true, id1) != OpenAccountPath(true, id2)
    ensures OpenAccountHistoryPath(true, id1) != OpenAccountHistoryPath(true, id2)
  {
    var h1, h2 := OpenAccountHistoryPath(true, id1), OpenAccountHistoryPath(true, id2);
    assert h1[..|h1| - |"/history"|] == OpenAccountPath(true, id1);
    assert h2[..|h2| - |"/history"|] == OpenAccountPath(true, id2);
  }
}
