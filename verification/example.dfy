/** The request the example application (example/src/CheckoutUser.tsx) opens,
    and what validation and the generator make of it. */
module Example {
  import opened Wrappers
  import opened Types
  import Text
  import Validation
  import Document

  /** The example's parameters, with its time-stamp reference rendered from
      the clock reading `now`. */
  function ExampleParams(now: nat): CheckoutParams {
    CheckoutParams(
      AmountNumber(100), Some("NGN"), Some(Text.NatDecimal(now)),
      Some("John"), Some("johndoe@example.com"), Some("5867418298"),
      Some([Card, Ussd]), Some("Need"), None, None)
  }

  /** The example request, whose three callbacks are told apart by number. */
  function ExampleRequest(now: nat): Request {
    Request(ExampleParams(now), Some(Handler(1)), Some(Handler(0)), Some(Handler(2)))
  }

  lemma ExampleRequestIsValid(now: nat)
    ensures Validation.Validate(ExampleRequest(now)) == None
  {
  }

  /** The example request emits thirteen keys: the fixed ten, the currency, the
      reference and the payment methods, but neither metadata nor split rules. */
  lemma ExampleKeys(now: nat)
    ensures Document.Keys(ExampleParams(now))
         == Document.FixedKeys + [Document.CurrencyKey, Document.ReferenceKey, Document.PaymentMethodsKey]
  {
    var p := ExampleParams(now);
    assert Document.OptionalKeys(p, 13) == [];
    assert Document.OptionalKeys(p, 12) == [Document.PaymentMethodsKey];
  }

  /** The example's amount line prints the number `100`. */
  lemma ExampleAmountLine(now: nat, apiKey: string, json: Document.Serializer)
    ensures Document.Line(Document.GeneratorInput(ExampleParams(now), apiKey), json, Document.AmountKey)
         == "amount: 100"
  {
    assert Text.NatDecimal(100) == "100" by {
      assert Text.NatDecimal(1) == "1";
      assert Text.NatDecimal(10) == Text.NatDecimal(1) + "0";
    }
  }

  /** The example's payment methods become a JSON list of their tags. */
  lemma ExampleMethodsJson()
    ensures Document.MethodsJson([Card, Ussd]) == "[\"CARD\",\"USSD\"]"
  {
    var ms := [Card, Ussd];
    var qs := Document.QuotedTags(ms);
    assert |qs| == 2 && qs[0] == "\"CARD\"" && qs[1] == "\"USSD\"";
    assert Text.Join(qs, ",") == "\"CARD\"" + "," + "\"USSD\"";
  }

  /** The example's payment-methods line. */
  lemma ExampleMethodsLine(now: nat, apiKey: string, json: Document.Serializer)
    ensures Document.Line(Document.GeneratorInput(ExampleParams(now), apiKey), json, Document.PaymentMethodsKey)
         == "paymentMethods: [\"CARD\",\"USSD\"]"
  {
    var g := Document.GeneratorInput(ExampleParams(now), apiKey);
    Document.MethodsLine(g, json);
    ExampleMethodsJson();
  }

  /** The example's checkout document shows `amount: 100` as its second line. */
  lemma ExampleDocumentAmount(now: nat, apiKey: string, json: Document.Serializer)
    ensures var g := Document.GeneratorInput(ExampleParams(now), apiKey);
            var s := Document.LineStart(Document.Lines(g, json), 1);
            var text := "amount: 100";
            s + |text| <= |Document.Html(g, json)| && Document.Html(g, json)[s .. s + |text|] == text
  {
    var g := Document.GeneratorInput(ExampleParams(now), apiKey);
    Document.AmountVerbatim(g, json);
    ExampleAmountLine(now, apiKey, json);
  }

  /** The example's checkout document shows its contract code as its third line. */
  lemma ExampleDocumentContractCode(now: nat, apiKey: string, json: Document.Serializer)
    ensures var g := Document.GeneratorInput(ExampleParams(now), apiKey);
            var s := Document.LineStart(Document.Lines(g, json), 2);
            var text := "contractCode: \"" + "5867418298" + "\"";
            s + |text| <= |Document.Html(g, json)| && Document.Html(g, json)[s .. s + |text|] == text
  {
    Document.ContractCodeVerbatim(Document.GeneratorInput(ExampleParams(now), apiKey), json, "5867418298");
  }
}
