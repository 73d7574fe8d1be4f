/** `validateParams` (src/lib/index.ts): eight rules checked in a fixed order;
    the first one that fails decides the message, and `None` (JavaScript
    `null`) means every rule passed. */
module Validation {
  import opened Wrappers
  import opened Types

  const AmountMessage: string := "Amount must be a valid number greater than 0"
  const FullNameMessage: string := "Customer full name is required"
  const EmailMessage: string := "Customer email is required"
  const DescriptionMessage: string := "Payment description is required"
  const ContractCodeMessage: string := "Contract code is required"
  const OnCloseMessage: string := "onClose is required"
  const OnSuccessMessage: string := "onSuccess is required"
  const OnErrorMessage: string := "onError is required"

  const RuleCount: nat := 8

  /** The messages, indexed by the position of their rule in the checking order. */
  const Messages: seq<string> := [
    AmountMessage, FullNameMessage, EmailMessage, DescriptionMessage,
    ContractCodeMessage, OnCloseMessage, OnSuccessMessage, OnErrorMessage
  ]

  /** The amount test fails when the value is falsy (absent, `NaN` or `0`), is
      not of type number, or is not greater than zero. */
  predicate AmountRejected(a: Amount) {
    match a
    case AmountAbsent => true
    case AmountNaN => true
    case AmountNonNumber(_) => true
    case AmountNumber(n) => n <= 0
    case AmountInfinity(negative) => negative
  }

  /** Rule `k` of the checking order, stated on its own. */
  predicate Passes(r: Request, k: nat)
    requires k < RuleCount
  {
    var p := r.checkoutParams;
    if k == 0 then !AmountRejected(p.amount)
    else if k == 1 then Truthy(p.customerFullName)
    else if k == 2 then Truthy(p.customerEmail)
    else if k == 3 then Truthy(p.paymentDescription)
    else if k == 4 then Truthy(p.contractCode)
    else if k == 5 then r.onClose.Some?
    else if k == 6 then r.onSuccess.Some?
    else r.onError.Some?
  }

  /** Rule `k` fails and every rule before it passes. */
  predicate FirstFailure(r: Request, k: nat)
    requires k < RuleCount
  {
    !Passes(r, k) && forall j | 0 <= j < k :: Passes(r, j)
  }

  function Validate(r: Request): (result: Option<string>)
    ensures result == None <==> forall k | 0 <= k < RuleCount :: Passes(r, k)
    ensures forall k | 0 <= k < RuleCount :: result == Some(Messages[k]) <==> FirstFailure(r, k)
    ensures AmountRejected(r.checkoutParams.amount) ==> result == Some(AmountMessage)
  {
    MessagesDistinct();
    var p := r.checkoutParams;
    if AmountRejected(p.amount) then assert !Passes(r, 0); Some(AmountMessage)
    else if !Truthy(p.customerFullName) then assert !Passes(r, 1); Some(FullNameMessage)
    else if !Truthy(p.customerEmail) then assert !Passes(r, 2); Some(EmailMessage)
    else if !Truthy(p.paymentDescription) then assert !Passes(r, 3); Some(DescriptionMessage)
    else if !Truthy(p.contractCode) then assert !Passes(r, 4); Some(ContractCodeMessage)
    else if r.onClose.None? then assert !Passes(r, 5); Some(OnCloseMessage)
    else if r.onSuccess.None? then assert !Passes(r, 6); Some(OnSuccessMessage)
    else if r.onError.None? then assert !Passes(r, 7); Some(OnErrorMessage)
    else None
  }

  /** No two rules share a message, so the message names the rule. */
  lemma MessagesDistinct()
    ensures forall i, j | 0 <= i < j < RuleCount :: Messages[i] != Messages[j]
  {
  }

  /** `Infinity` is a number greater than 0, so it passes the amount rule;
      `-Infinity` fails it. */
  lemma InfiniteAmounts(r: Request)
    ensures r.checkoutParams.amount == AmountInfinity(false) ==> Passes(r, 0)
    ensures r.checkoutParams.amount == AmountInfinity(true) ==> Validate(r) == Some(AmountMessage)
  {
  }

  /** An empty string is as missing as an absent field, for each of the four
      string rules. */
  lemma EmptyStringIsMissing(r: Request)
    ensures Validate(r.(checkoutParams := r.checkoutParams.(customerFullName := Some(""))))
         == Validate(r.(checkoutParams := r.checkoutParams.(customerFullName := None)))
    ensures Validate(r.(checkoutParams := r.checkoutParams.(customerEmail := Some(""))))
         == Validate(r.(checkoutParams := r.checkoutParams.(customerEmail := None)))
    ensures Validate(r.(checkoutParams := r.checkoutParams.(paymentDescription := Some(""))))
         == Validate(r.(checkoutParams := r.checkoutParams.(paymentDescription := None)))
    ensures Validate(r.(checkoutParams := r.checkoutParams.(contractCode := Some(""))))
         == Validate(r.(checkoutParams := r.checkoutParams.(contractCode := None)))
  {
  }
}
