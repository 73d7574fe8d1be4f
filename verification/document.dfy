/** `createMonnifyParams` and `createHtmlContent` (src/lib/index.ts): which
    configuration keys are emitted and in what order, the `key: value` line each
    one becomes, their `",\n"`-joined text, and the checkout document that
    embeds it between a fixed prefix and suffix. */
module Document {
  import opened Wrappers
  import opened Types
  import Text

  /** The configuration keys, in the order the generator can emit them: ten
      that are always present, then five optional ones. */
  datatype Key =
    | ApiKey | AmountKey | ContractCodeKey | PaymentDescriptionKey
    | CustomerFullNameKey | CustomerEmailKey
    | OnCompleteKey | OnCloseKey | OnLoadStartKey | OnLoadCompleteKey
    | CurrencyKey | ReferenceKey | PaymentMethodsKey | MetadataKey | IncomeSplitConfigKey
  {
    /** The key's position in the emission order. */
    function Index(): (i: nat)
      ensures i < 15
    {
      match this
      case ApiKey => 0
      case AmountKey => 1
      case ContractCodeKey => 2
      case PaymentDescriptionKey => 3
      case CustomerFullNameKey => 4
      case CustomerEmailKey => 5
      case OnCompleteKey => 6
      case OnCloseKey => 7
      case OnLoadStartKey => 8
      case OnLoadCompleteKey => 9
      case CurrencyKey => 10
      case ReferenceKey => 11
      case PaymentMethodsKey => 12
      case MetadataKey => 13
      case IncomeSplitConfigKey => 14
    }

    /** The identifier the key is written as in the configuration literal. */
    function Name(): string {
      match this
      case ApiKey => "apiKey"
      case AmountKey => "amount"
      case ContractCodeKey => "contractCode"
      case PaymentDescriptionKey => "paymentDescription"
      case CustomerFullNameKey => "customerFullName"
      case CustomerEmailKey => "customerEmail"
      case OnCompleteKey => "onComplete"
      case OnCloseKey => "onClose"
      case OnLoadStartKey => "onLoadStart"
      case OnLoadCompleteKey => "onLoadComplete"
      case CurrencyKey => "currency"
      case ReferenceKey => "reference"
      case PaymentMethodsKey => "paymentMethods"
      case MetadataKey => "metadata"
      case IncomeSplitConfigKey => "incomeSplitConfig"
    }

    predicate Required() {
      Index() < 10
    }
  }

  /** The key at a position of the emission order; the inverse of `Key.Index`. */
  function KeyAt(i: nat): (k: Key)
    requires i < 15
    ensures k.Index() == i
  {
    if i == 0 then ApiKey else if i == 1 then AmountKey else if i == 2 then ContractCodeKey
    else if i == 3 then PaymentDescriptionKey else if i == 4 then CustomerFullNameKey
    else if i == 5 then CustomerEmailKey else if i == 6 then OnCompleteKey
    else if i == 7 then OnCloseKey else if i == 8 then OnLoadStartKey
    else if i == 9 then OnLoadCompleteKey else if i == 10 then CurrencyKey
    else if i == 11 then ReferenceKey else if i == 12 then PaymentMethodsKey
    else if i == 13 then MetadataKey else IncomeSplitConfigKey
  }

  lemma KeyAtIndex(k: Key)
    ensures KeyAt(k.Index()) == k
  {
    match k
    case ApiKey => case AmountKey => case ContractCodeKey => case PaymentDescriptionKey =>
    case CustomerFullNameKey => case CustomerEmailKey => case OnCompleteKey =>
    case OnCloseKey => case OnLoadStartKey => case OnLoadCompleteKey =>
    case CurrencyKey => case ReferenceKey => case PaymentMethodsKey =>
    case MetadataKey => case IncomeSplitConfigKey =>
  }

  /** `JSON.stringify` for the two values the generator passes to it whole. The
      model does not interpret it; callers supply it. */
  datatype Serializer = Serializer(
    metadata: Metadata -> string,
    incomeSplitConfig: seq<IncomeSplitConfig> -> string)

  /** The parameters together with the provider's API key. */
  datatype GeneratorInput = GeneratorInput(params: CheckoutParams, apiKey: string)

  /** A string between double quotes, with nothing escaped. */
  function Quoted(s: string): string {
    "\"" + s + "\""
  }

  /** What a template literal prints for an optional string: absent is `undefined`. */
  function Interpolated(s: Option<string>): string {
    match s
    case Some(v) => v
    case None => "undefined"
  }

  /** What `Number(amount)` prints. */
  function AmountText(a: Amount): string {
    match a
    case AmountAbsent => "NaN"
    case AmountNaN => "NaN"
    case AmountNumber(n) => Text.IntDecimal(n)
    case AmountInfinity(negative) => if negative then "-Infinity" else "Infinity"
    case AmountNonNumber(coerced) => coerced
  }

  /** Each payment method's tag as a JSON string. */
  function QuotedTags(ms: seq<PaymentMethod>): (qs: seq<string>)
    ensures |qs| == |ms|
  {
    seq(|ms|, i requires 0 <= i < |ms| => Quoted(ms[i].Tag()))
  }

  /** `JSON.stringify` of a list of payment-method tags. */
  function MethodsJson(ms: seq<PaymentMethod>): string {
    "[" + Text.Join(QuotedTags(ms), ",") + "]"
  }

  /** No tag holds a character JSON would escape, so quoting a tag is its
      JSON text. */
  lemma TagNeedsNoEscaping(m: PaymentMethod)
    ensures forall c | c in m.Tag() :: c != '"' && c != '\\' && ' ' <= c <= '~'
  {
  }

  /** The JSON list is bracketed, the empty list is `[]`, and the `i`-th method
      appears as its quoted tag, one character past its offset among the
      comma-joined elements. */
  lemma MethodsJsonElements(ms: seq<PaymentMethod>, i: nat)
    requires i < |ms|
    ensures var j := MethodsJson(ms);
            var s := 1 + Text.Offset(QuotedTags(ms), ",", i);
            && 2 <= |j| && j[0] == '[' && j[|j| - 1] == ']'
            && s + |ms[i].Tag()| + 2 <= |j|
            && j[s .. s + |ms[i].Tag()| + 2] == "\"" + ms[i].Tag() + "\""
  {
    var qs := QuotedTags(ms);
    Text.EmbeddedJoinSlice("[", qs, ",", "]", i);
  }

  /** An empty list of payment methods is written `[]`. */
  lemma EmptyMethodsJson()
    ensures MethodsJson([]) == "[]"
  {
    assert QuotedTags([]) == [];
  }

  /** The body of one forwarding handler: it posts `{ event: tag }` plus the
      `forwarded` field text to the host. */
  function Stub(param: string, tag: string, forwarded: string): string {
    "function(" + param + ") { \n      window.ReactNativeWebView.postMessage(JSON.stringify({ event: \""
    + tag + "\"" + forwarded + " })); \n    }"
  }

  /** The event tags the four handlers post, which are also their key names. */
  function PostedTag(k: Key): (tag: string)
    requires k.OnCompleteKey? || k.OnCloseKey? || k.OnLoadStartKey? || k.OnLoadCompleteKey?
    ensures tag == k.Name()
  {
    match k
    case OnCompleteKey => "onComplete"
    case OnCloseKey => "onClose"
    case OnLoadStartKey => "onLoadStart"
    case OnLoadCompleteKey => "onLoadComplete"
  }

  /** The ten keys every configuration starts with, in source order. */
  const FixedKeys: seq<Key> := [
    ApiKey, AmountKey, ContractCodeKey, PaymentDescriptionKey, CustomerFullNameKey,
    CustomerEmailKey, OnCompleteKey, OnCloseKey, OnLoadStartKey, OnLoadCompleteKey
  ]

  /** Whether an optional field is truthy, which is what decides its emission:
      the strings must be non-empty, the list and object values only present
      (an empty list or object is still truthy). */
  predicate Present(p: CheckoutParams, k: Key) {
    match k
    case CurrencyKey => Truthy(p.currency)
    case ReferenceKey => Truthy(p.reference)
    case PaymentMethodsKey => p.paymentMethods.Some?
    case MetadataKey => p.metadata.Some?
    case IncomeSplitConfigKey => p.incomeSplitConfig.Some?
    case _ => false
  }

  /** Whether a key appears in the configuration of `p`. */
  predicate Emitted(p: CheckoutParams, k: Key) {
    k.Required() || Present(p, k)
  }

  /** The optional keys from emission position `i` on: the five conditional
      pushes, in order, from the `i`-th. */
  function OptionalKeys(p: CheckoutParams, i: nat): (ks: seq<Key>)
    requires 10 <= i <= 15
    ensures |ks| <= 15 - i
    ensures forall a | 0 <= a < |ks| :: i <= ks[a].Index() && Present(p, ks[a])
    decreases 15 - i
  {
    if i == 15 then []
    else if Present(p, KeyAt(i)) then [KeyAt(i)] + OptionalKeys(p, i + 1)
    else OptionalKeys(p, i + 1)
  }

  /** The emitted keys, in emission order. */
  function Keys(p: CheckoutParams): (ks: seq<Key>)
    ensures 10 <= |ks| <= 15
    ensures forall a | 0 <= a < |ks| :: Emitted(p, ks[a])
  {
    assert forall a | 0 <= a < 10 :: FixedKeys[a].Required();
    FixedKeys + OptionalKeys(p, 10)
  }

  /** Keys in strictly increasing emission order; in particular none repeats. */
  predicate Ascending(ks: seq<Key>) {
    forall a, b | 0 <= a < b < |ks| :: ks[a].Index() < ks[b].Index()
  }

  /** The optional keys come in emission order. */
  lemma {:induction false} OptionalOrdered(p: CheckoutParams, i: nat)
    requires 10 <= i <= 15
    ensures Ascending(OptionalKeys(p, i))
    decreases 15 - i
  {
    if i < 15 {
      OptionalOrdered(p, i + 1);
    }
  }

  /** An optional key is emitted from position `i` on exactly when its
      position is at least `i` and its field is truthy. */
  lemma {:induction false} OptionalPresenceOf(p: CheckoutParams, i: nat, k: Key)
    requires 10 <= i <= 15
    ensures k in OptionalKeys(p, i) <==> i <= k.Index() && Present(p, k)
    decreases 15 - i
  {
    if i < 15 {
      OptionalPresenceOf(p, i + 1, k);
      KeyAtIndex(k);
    }
  }

  /** An optional key is emitted exactly when its field is truthy. */
  lemma OptionalPresence(p: CheckoutParams, i: nat)
    requires 10 <= i <= 15
    ensures forall k: Key :: k in OptionalKeys(p, i) <==> i <= k.Index() && Present(p, k)
  {
    forall k: Key
      ensures k in OptionalKeys(p, i) <==> i <= k.Index() && Present(p, k)
    {
      OptionalPresenceOf(p, i, k);
    }
  }

  /** The configuration starts with the ten fixed keys, in source order. */
  lemma KeysStartFixed(p: CheckoutParams)
    ensures forall a | 0 <= a < 10 :: Keys(p)[a] == KeyAt(a)
  {
    var ks := Keys(p);
    assert ks[..10] == FixedKeys;
  }

  /** The keys come in strictly increasing emission order, so none repeats. */
  lemma KeysOrdered(p: CheckoutParams)
    ensures Ascending(Keys(p))
  {
    var ks := Keys(p);
    var opt := OptionalKeys(p, 10);
    OptionalOrdered(p, 10);
    KeysStartFixed(p);
    assert forall c | 0 <= c < |opt| :: ks[10 + c] == opt[c];
    forall a, b | 0 <= a < b < |ks|
      ensures ks[a].Index() < ks[b].Index()
    {
      if 10 <= a {
        assert ks[a] == opt[a - 10] && ks[b] == opt[b - 10];
      } else if 10 <= b {
        assert ks[a].Index() == a;
        assert ks[b] == opt[b - 10];
      } else {
        assert ks[a].Index() == a && ks[b].Index() == b;
      }
    }
  }

  /** Every fixed key is in the configuration. */
  lemma FixedKeyPresent(p: CheckoutParams, k: Key)
    requires k.Required()
    ensures k in Keys(p)
  {
    KeysStartFixed(p);
    KeyAtIndex(k);
    assert Keys(p)[k.Index()] == k;
  }

  /** An optional key in the configuration comes from the optional part. */
  lemma OptionalKeyFromOptionalPart(p: CheckoutParams, k: Key)
    requires !k.Required() && k in Keys(p)
    ensures k in OptionalKeys(p, 10)
  {
    var ks := Keys(p);
    var a :| 0 <= a < |ks| && ks[a] == k;
    KeysStartFixed(p);
    assert a >= 10;
    assert OptionalKeys(p, 10)[a - 10] == k;
  }

  /** A key of the optional part is in the configuration. */
  lemma OptionalPartInKeys(p: CheckoutParams, k: Key)
    requires k in OptionalKeys(p, 10)
    ensures k in Keys(p)
  {
    var opt := OptionalKeys(p, 10);
    var c :| 0 <= c < |opt| && opt[c] == k;
    assert Keys(p)[10 + c] == k;
  }

  /** An optional key is in the configuration exactly when its field is truthy. */
  lemma OptionalKeyPresent(p: CheckoutParams, k: Key)
    requires !k.Required()
    ensures k in Keys(p) <==> Present(p, k)
  {
    OptionalPresenceOf(p, 10, k);
    if k in Keys(p) {
      OptionalKeyFromOptionalPart(p, k);
    }
    if k in OptionalKeys(p, 10) {
      OptionalPartInKeys(p, k);
    }
  }

  /** A key is in the configuration exactly when it is one of the ten fixed
      keys or an optional key whose field is truthy. */
  lemma KeysPresence(p: CheckoutParams)
    ensures forall k: Key :: k in Keys(p) <==> Emitted(p, k)
  {
    forall k: Key
      ensures k in Keys(p) <==> Emitted(p, k)
    {
      if k.Required() {
        FixedKeyPresent(p, k);
      } else {
        OptionalKeyPresent(p, k);
      }
    }
  }

  /** The optional keys depend only on the optional fields. */
  lemma {:induction false} OptionalKeysDependOnOptionalFields(p1: CheckoutParams, p2: CheckoutParams, i: nat)
    requires 10 <= i <= 15
    requires p1.currency == p2.currency && p1.reference == p2.reference
    requires p1.paymentMethods == p2.paymentMethods && p1.metadata == p2.metadata
    requires p1.incomeSplitConfig == p2.incomeSplitConfig
    ensures OptionalKeys(p1, i) == OptionalKeys(p2, i)
    decreases 15 - i
  {
    if i < 15 {
      OptionalKeysDependOnOptionalFields(p1, p2, i + 1);
    }
  }

  /** The text after `key: ` for each emitted key: string fields quoted and
      unescaped, the amount as a number, the handlers as forwarding stubs, and
      the list and object fields as JSON. */
  function Value(g: GeneratorInput, json: Serializer, k: Key): string
    requires Emitted(g.params, k)
  {
    var p := g.params;
    match k
    case ApiKey => Quoted(g.apiKey)
    case AmountKey => AmountText(p.amount)
    case ContractCodeKey => Quoted(Interpolated(p.contractCode))
    case PaymentDescriptionKey => Quoted(Interpolated(p.paymentDescription))
    case CustomerFullNameKey => Quoted(Interpolated(p.customerFullName))
    case CustomerEmailKey => Quoted(Interpolated(p.customerEmail))
    case OnCompleteKey => Stub("response", PostedTag(OnCompleteKey), ", data: response")
    case OnCloseKey => Stub("data", PostedTag(OnCloseKey), ", data: data")
    case OnLoadStartKey => Stub("", PostedTag(OnLoadStartKey), "")
    case OnLoadCompleteKey => Stub("", PostedTag(OnLoadCompleteKey), "")
    case CurrencyKey => Quoted(p.currency.value)
    case ReferenceKey => Quoted(p.reference.value)
    case PaymentMethodsKey => MethodsJson(p.paymentMethods.value)
    case MetadataKey => json.metadata(p.metadata.value)
    case IncomeSplitConfigKey => json.incomeSplitConfig(p.incomeSplitConfig.value)
  }

  /** One `key: value` line of the configuration literal. */
  function Line(g: GeneratorInput, json: Serializer, k: Key): string
    requires Emitted(g.params, k)
  {
    k.Name() + ": " + Value(g, json, k)
  }

  /** The emitted keys' lines, in emission order. */
  function Lines(g: GeneratorInput, json: Serializer): (ls: seq<string>)
    ensures |ls| == |Keys(g.params)|
  {
    var ks := Keys(g.params);
    seq(|ks|, a requires 0 <= a < |ks| => Line(g, json, ks[a]))
  }

  /** Line `a` belongs to the `a`-th emitted key. */
  lemma LineOfKey(g: GeneratorInput, json: Serializer, a: nat)
    requires a < |Keys(g.params)|
    ensures Lines(g, json)[a] == Line(g, json, Keys(g.params)[a])
  {
  }

  const Separator: string := ",\n"

  /** `createMonnifyParams`: the lines joined by a comma and a newline. */
  function Config(g: GeneratorInput, json: Serializer): string {
    Text.Join(Lines(g, json), Separator)
  }

  const Prefix: string :=
    "\n    <html>\n      <head>\n      <meta charset=\"UTF-8\">\n"
    + "      <meta name=\"viewport\" content=\"width=device-width, initial-scale=1.0\">\n"
    + "      <title>Monify</title>\n\n                 <script\n    type=\"text/javascript\"\n"
    + "    src=\"https://sdk.monnify.com/plugin/monnify.js\"\n  ></script>\n        <script>\n"
    + "          // Create the config object with proper function handlers\n"
    + "          var monnifyConfig = {\n            "

  /** The closing part, including the body tag whose attribute quote is never
      closed, exactly as `createHtmlContent` writes it. */
  const Suffix: string :=
    "\n          };\n\n          function initializeMonnify() {\n"
    + "            if (typeof MonnifySDK !== \"undefined\") {\n"
    + "              MonnifySDK.initialize(monnifyConfig);\n"
    + "            } else {\n              setTimeout(initializeMonnify, 500);\n            }\n          }\n\n"
    + "          setTimeout(initializeMonnify, 500);\n        </script>\n    </head>\n"
    + "      <body style=\"height:100vh >\n \n      </body>\n    </html>\n  "

  /** The page around a list of configuration lines. */
  function Page(ls: seq<string>): string {
    Prefix + Text.Join(ls, Separator) + Suffix
  }

  /** `createHtmlContent`: the configuration between the fixed prefix and suffix. */
  function Html(g: GeneratorInput, json: Serializer): string {
    Page(Lines(g, json))
  }

  /** The document opens with the prefix, closes with the suffix, and holds
      exactly the joined lines between them. */
  lemma DocumentFrame(ls: seq<string>)
    ensures var doc := Page(ls);
            var c := Text.Join(ls, Separator);
            && |doc| == |Prefix| + |c| + |Suffix|
            && doc[..|Prefix|] == Prefix
            && doc[|Prefix| .. |Prefix| + |c|] == c
            && doc[|Prefix| + |c|..] == Suffix
  {
    var c := Text.Join(ls, Separator);
    Text.FrameSlices(Prefix, c, Suffix);
  }

  /** The checkout document holds exactly the configuration between the fixed
      prefix and suffix. */
  lemma HtmlFrame(g: GeneratorInput, json: Serializer)
    ensures var doc := Html(g, json);
            var c := Config(g, json);
            && |doc| == |Prefix| + |c| + |Suffix|
            && doc[..|Prefix|] == Prefix
            && doc[|Prefix| .. |Prefix| + |c|] == c
            && doc[|Prefix| + |c|..] == Suffix
  {
    DocumentFrame(Lines(g, json));
  }

  /** Where line `a` starts inside the document. */
  function LineStart(ls: seq<string>, a: nat): nat
    requires a < |ls|
  {
    |Prefix| + Text.Offset(ls, Separator, a)
  }

  /** Every line appears in the document unaltered, at its position. */
  lemma DocumentLineVerbatim(ls: seq<string>, a: nat)
    requires a < |ls|
    ensures var s := LineStart(ls, a);
            s + |ls[a]| <= |Page(ls)| && Page(ls)[s .. s + |ls[a]|] == ls[a]
  {
    Text.EmbeddedJoinSlice(Prefix, ls, Separator, Suffix, a);
  }

  /** Every emitted key's line appears in the checkout document unaltered. */
  lemma LineVerbatim(g: GeneratorInput, json: Serializer, a: nat)
    requires a < |Keys(g.params)|
    ensures var ls := Lines(g, json);
            var s := LineStart(ls, a);
            var line := Line(g, json, Keys(g.params)[a]);
            s + |line| <= |Html(g, json)| && Html(g, json)[s .. s + |line|] == line
  {
    DocumentLineVerbatim(Lines(g, json), a);
    LineOfKey(g, json, a);
  }

  /** An accepted `Infinity` amount is written as the word, not as a numeral. */
  lemma InfiniteAmountLine(g: GeneratorInput, json: Serializer)
    requires g.params.amount == AmountInfinity(false)
    ensures Line(g, json, AmountKey) == "amount: Infinity"
  {
  }

  /** The amount line appears in the document as the second line. */
  lemma AmountVerbatim(g: GeneratorInput, json: Serializer)
    ensures var ls := Lines(g, json);
            var s := LineStart(ls, 1);
            var line := Line(g, json, AmountKey);
            s + |line| <= |Html(g, json)| && Html(g, json)[s .. s + |line|] == line
  {
    KeysStartFixed(g.params);
    LineVerbatim(g, json, 1);
  }

  /** The contract-code line is the key and the code between double quotes,
      exactly as given, even when the code holds a quote character of its own:
      nothing is escaped. */
  lemma ContractCodeLine(g: GeneratorInput, json: Serializer, code: string)
    requires g.params.contractCode == Some(code)
    ensures Lines(g, json)[2] == "contractCode: \"" + code + "\""
  {
    KeysStartFixed(g.params);
    LineOfKey(g, json, 2);
  }

  /** The contract code appears in the document exactly as given. */
  lemma ContractCodeVerbatim(g: GeneratorInput, json: Serializer, code: string)
    requires g.params.contractCode == Some(code)
    ensures var ls := Lines(g, json);
            var s := LineStart(ls, 2);
            var text := "contractCode: \"" + code + "\"";
            s + |text| <= |Html(g, json)| && Html(g, json)[s .. s + |text|] == text
  {
    ContractCodeLine(g, json, code);
    DocumentLineVerbatim(Lines(g, json), 2);
  }

  /** The document ends with its last line directly followed by the suffix: no
      separator trails the last entry. */
  lemma NoTrailingSeparator(ls: seq<string>)
    requires |ls| > 0
    ensures LineStart(ls, |ls| - 1) + |ls[|ls| - 1]| + |Suffix| == |Page(ls)|
  {
    Text.JoinEndsWithLast(ls, Separator);
  }

  /** What a name must contain to close its own quote and open an email entry. */
  const EmailBreak: string := "\",\ncustomerEmail: \""

  /** Shifting an email entry's worth of text from the email into the name does
      not change the joined text of the two lines. */
  lemma ForgedPairJoinsAlike(g: GeneratorInput, json: Serializer, forged: GeneratorInput, u: string, v: string, w: string)
    requires g.params.customerFullName == Some(u) && g.params.customerEmail == Some(v + EmailBreak + w)
    requires forged.params.customerFullName == Some(u + EmailBreak + v) && forged.params.customerEmail == Some(w)
    ensures Text.Join([Line(g, json, CustomerFullNameKey), Line(g, json, CustomerEmailKey)], Separator)
         == Text.Join([Line(forged, json, CustomerFullNameKey), Line(forged, json, CustomerEmailKey)], Separator)
  {
    var q := "\"";
    var nm := CustomerFullNameKey.Name() + ": ";
    var em := CustomerEmailKey.Name() + ": ";
    assert EmailBreak == q + Separator + em + q;
    NameAndEmailLines(g, json);
    NameAndEmailLines(forged, json);
    Text.JoinPair(Line(g, json, CustomerFullNameKey), Line(g, json, CustomerEmailKey), Separator);
    Text.JoinPair(Line(forged, json, CustomerFullNameKey), Line(forged, json, CustomerEmailKey), Separator);
    Text.QuoteShift(nm, em, q, Separator, EmailBreak, u, v, w);
  }

  /** The name and email lines quote their fields as they are. */
  lemma NameAndEmailLines(g: GeneratorInput, json: Serializer)
    ensures Line(g, json, CustomerFullNameKey)
         == CustomerFullNameKey.Name() + ": " + ("\"" + Interpolated(g.params.customerFullName) + "\"")
    ensures Line(g, json, CustomerEmailKey)
         == CustomerEmailKey.Name() + ": " + ("\"" + Interpolated(g.params.customerEmail) + "\"")
  {
  }

  /** Lines of keys other than the name and email agree between two inputs
      that differ only in those fields. */
  lemma OtherLinesAgree(g: GeneratorInput, json: Serializer, forged: GeneratorInput, k: Key)
    requires forged.apiKey == g.apiKey
    requires forged.params == g.params.(customerFullName := forged.params.customerFullName,
                                        customerEmail := forged.params.customerEmail)
    requires Emitted(g.params, k) && k != CustomerFullNameKey && k != CustomerEmailKey
    ensures Line(g, json, k) == Line(forged, json, k)
  {
  }

  /** Line `a`, for any position other than the name's and the email's, agrees
      between two inputs that differ only in those fields. */
  lemma OtherLineAgrees(g: GeneratorInput, json: Serializer, forged: GeneratorInput, a: nat)
    requires forged.apiKey == g.apiKey
    requires forged.params == g.params.(customerFullName := forged.params.customerFullName,
                                        customerEmail := forged.params.customerEmail)
    requires Keys(forged.params) == Keys(g.params)
    requires a < |Keys(g.params)| && a != 4 && a != 5
    ensures Lines(g, json)[a] == Lines(forged, json)[a]
  {
    var ks := Keys(g.params);
    LineOfKey(g, json, a);
    LineOfKey(forged, json, a);
    KeysOrdered(g.params);
    KeysStartFixed(g.params);
    if a > 5 {
      assert ks[5].Index() < ks[a].Index();
    } else {
      assert ks[a].Index() == a;
    }
    OtherLinesAgree(g, json, forged, ks[a]);
  }

  /** A present payment-method list is written as its JSON text. */
  lemma MethodsLine(g: GeneratorInput, json: Serializer)
    requires g.params.paymentMethods.Some?
    ensures Line(g, json, PaymentMethodsKey) == "paymentMethods: " + MethodsJson(g.params.paymentMethods.value)
  {
  }

  /** Two inputs that differ only in the name and email fields have the same
      lines at every other position. */
  lemma OtherLinesMatch(g: GeneratorInput, json: Serializer, forged: GeneratorInput)
    requires forged.apiKey == g.apiKey
    requires forged.params == g.params.(customerFullName := forged.params.customerFullName,
                                        customerEmail := forged.params.customerEmail)
    ensures |Lines(g, json)| == |Lines(forged, json)|
    ensures Lines(g, json)[..4] == Lines(forged, json)[..4]
    ensures Lines(g, json)[6..] == Lines(forged, json)[6..]
  {
    OptionalKeysDependOnOptionalFields(g.params, forged.params, 10);
    var ks := Keys(g.params);
    assert Keys(forged.params) == ks;
    var ls1 := Lines(g, json);
    var ls2 := Lines(forged, json);
    forall a | 0 <= a < |ks| && a != 4 && a != 5
      ensures ls1[a] == ls2[a]
    {
      OtherLineAgrees(g, json, forged, a);
    }
  }

  /** The name and email lines sit at positions 4 and 5. */
  lemma NameAndEmailBlock(g: GeneratorInput, json: Serializer)
    ensures Lines(g, json)[4..6] == [Line(g, json, CustomerFullNameKey), Line(g, json, CustomerEmailKey)]
  {
    KeysStartFixed(g.params);
    LineOfKey(g, json, 4);
    LineOfKey(g, json, 5);
  }

  /** Shifting an email entry's worth of text from the email into the name
      leaves the configuration unchanged. */
  lemma ForgedConfigAlike(g: GeneratorInput, json: Serializer, forged: GeneratorInput, u: string, v: string, w: string)
    requires g.params.customerFullName == Some(u) && g.params.customerEmail == Some(v + EmailBreak + w)
    requires forged.apiKey == g.apiKey
    requires forged.params == g.params.(customerFullName := Some(u + EmailBreak + v), customerEmail := Some(w))
    ensures Config(g, json) == Config(forged, json)
  {
    OtherLinesMatch(g, json, forged);
    NameAndEmailBlock(g, json);
    NameAndEmailBlock(forged, json);
    ForgedPairJoinsAlike(g, json, forged, u, v, w);
    Text.JoinSpliceAt(Lines(g, json), Lines(forged, json), Separator, 4, 6);
  }

  /** Because nothing is escaped, two different requests can produce the same
      document: a name that closes its own quote and writes an email entry of
      its own reads the same as two honest fields. */
  lemma UnescapedFieldsCollide(g: GeneratorInput, json: Serializer)
    requires g.params.customerFullName == Some("x") && g.params.customerEmail == Some("y" + EmailBreak + "z")
    ensures var forged := g.(params := g.params.(customerFullName := Some("x" + EmailBreak + "y"),
                                                 customerEmail := Some("z")));
            forged != g && Html(forged, json) == Html(g, json)
  {
    var forged := g.(params := g.params.(customerFullName := Some("x" + EmailBreak + "y"),
                                         customerEmail := Some("z")));
    ForgedConfigAlike(g, json, forged, "x", "y", "z");
    assert forged.params.customerEmail != g.params.customerEmail;
  }
}
