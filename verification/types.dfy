/** The data a checkout request carries (src/lib/types.ts). JavaScript callers
    can leave out any field of the checkout parameters, so every such field the
    validator inspects is optional here and the validator decides what is
    missing. The checkout parameters themselves are always present. */
module Types {
  import opened Wrappers

  /** The four payment-method tags and the names they are serialised under. */
  datatype PaymentMethod = Card | AccountTransfer | Ussd | PhoneNumber {
    function Tag(): string {
      match this
      case Card => "CARD"
      case AccountTransfer => "ACCOUNT_TRANSFER"
      case Ussd => "USSD"
      case PhoneNumber => "PHONE_NUMBER"
    }
  }

  /** One split rule; every field is optional in the source. Numbers are whole. */
  datatype IncomeSplitConfig = IncomeSplitConfig(
    subAccountCode: Option<string>,
    feePercentage: Option<int>,
    splitAmount: Option<int>,
    feeBearer: Option<bool>)

  /** `Record<string, unknown>`: its entries in insertion order, each a key
      and the JSON text of its value, which this code never inspects. The
      order is kept because `JSON.stringify` writes keys in that order. */
  type Metadata = seq<(string, string)>

  /** The `amount` field as JavaScript sees it: left out, the number `NaN`, a
      whole number, positive or negative `Infinity`, or a value of another type together with the text
      `Number(v)` renders for it. */
  datatype Amount =
    | AmountAbsent
    | AmountNaN
    | AmountNumber(n: int)
    | AmountInfinity(negative: bool)
    | AmountNonNumber(coerced: string)

  datatype CheckoutParams = CheckoutParams(
    amount: Amount,
    currency: Option<string>,
    reference: Option<string>,
    customerFullName: Option<string>,
    customerEmail: Option<string>,
    contractCode: Option<string>,
    paymentMethods: Option<seq<PaymentMethod>>,
    paymentDescription: Option<string>,
    metadata: Option<Metadata>,
    incomeSplitConfig: Option<seq<IncomeSplitConfig>>)

  /** A caller-supplied callback, identified so that an event log can say which
      one was invoked. */
  datatype Handler = Handler(id: nat)

  /** `MonnifyWebViewParams`: the parameters and the three callbacks. */
  datatype Request = Request(
    checkoutParams: CheckoutParams,
    onSuccess: Option<Handler>,
    onClose: Option<Handler>,
    onError: Option<Handler>)

  /** JavaScript truthiness of an optional string: present and not empty. */
  predicate Truthy(s: Option<string>) {
    s.Some? && s.value != ""
  }
}
