# Monnify checkout web view, modelled in Dafny

This project models the core of `react-native-monnify-webview`, a React Native
component that opens the Monnify payment checkout inside a web view. The model
covers four parts:

- **Validation.** `validateParams` checks a checkout request against eight
  rules in a fixed order. The first rule that fails decides the one message
  reported.
- **Document generation.** `createMonnifyParams` writes the request as the body
  of a JavaScript object literal. That is ten fixed `key: value` lines, then up
  to five optional ones, joined by `",\n"`. `createHtmlContent` places this text
  between a fixed HTML prefix and suffix. The suffix includes the body tag
  `<body style="height:100vh >`, whose quote is never closed, exactly as the
  code writes it.
- **The checkout provider.** `MonnifyCheckoutProvider` is modelled as a state
  machine over three things: the stored request, whether the checkout window is
  visible, and the provider's toast. Its inputs are `open`, the messages the
  page posts back, the Close button, the system back action and the toast's
  own inputs. Each step returns the callbacks it invoked.
- **The toast.** `Toast` is modelled as a state machine with `show`, `hide`,
  tap, timer expiry and unmount. It also has the pure mappings for colour,
  slide offsets and touch handling.

Modules:

| module | file | models |
|---|---|---|
| `Wrappers` | wrappers.dfy | `Option`, with JavaScript's `??` as `GetOr` |
| `Text` | text.dfy | `Array.prototype.join`, the position of each joined element, decimal printing of integers |
| `Types` | types.dfy | the request types of `src/lib/types.ts` |
| `Validation` | validation.dfy | `validateParams` |
| `Document` | document.dfy | `createMonnifyParams`, `createHtmlContent` |
| `Toast` | toast.dfy | `src/Dev/Toast.tsx` |
| `Session` | session.dfy | `src/Dev/MonnifyCheckoutProvider.tsx` |
| `Example` | example.dfy | the request opened by `example/src/CheckoutUser.tsx` |

How JavaScript values are represented:

- **Fields a caller may leave out.** Each is an `Option`: `None` is
  `undefined`.
- **Truthiness.**
  - An optional string is truthy when it is present and non-empty.
  - Lists and objects are truthy whenever present, even when empty.
- **Template literals.** An absent string prints as `undefined`.
- **The amount.** It is one of five cases: absent, `NaN`, a whole number,
  positive or negative `Infinity`, or a value of another type together with the
  text `Number(v)` prints for it.
- **Callbacks.** Each callback is a `Handler` with a number, so that the event
  log can say which callback was called.
- **`JSON.stringify`.** For metadata and split rules it is an uninterpreted
  `Serializer` that the caller passes in.
- **Determinism.** Every operation is a Dafny function, so generating the
  document twice from the same input gives the same string.

## Model

| member | source | states |
|---|---|---|
| Validation.Validate | src/lib/index.ts:3-39 | The result is `None` exactly when all eight rules pass. The result is the message of rule `k` exactly when rule `k` is the first rule that fails, in the order amount, full name, email, description, contract code, onClose, onSuccess, onError. An invalid amount always gives the amount message. |
| Validation.MessagesDistinct | src/lib/index.ts:9-35 | No two rules share a message, so the message identifies the failing rule. |
| Validation.InfiniteAmounts | src/lib/index.ts:4-10 | `Infinity` is a number greater than 0 and passes the amount rule. `-Infinity` fails it and gives the amount message. |
| Validation.EmptyStringIsMissing | src/lib/index.ts:12-25 | For each of the four string rules, an empty string validates exactly like an absent field. |
| Document.PostedTag | src/lib/index.ts:52-63 | Each forwarding handler posts an event tag equal to the key it is stored under. |
| Document.OptionalKeys | src/lib/index.ts:66-75 | The optional keys from position `i` on are at most `15 - i` keys. Each has a truthy field and a position of at least `i`. |
| Document.OptionalOrdered | src/lib/index.ts:66-75 | The optional keys come in strictly increasing emission order. |
| Document.OptionalPresenceOf | src/lib/index.ts:66-75 | A given optional key is emitted from position `i` on exactly when its position is at least `i` and its field is truthy. |
| Document.OptionalPresence | src/lib/index.ts:66-75 | An optional key is emitted exactly when its field is truthy. |
| Document.Keys | src/lib/index.ts:44-75 | A configuration has between 10 and 15 keys. Every key in it is a fixed key or a present optional key. |
| Document.KeysStartFixed | src/lib/index.ts:44-64 | The first ten keys are the fixed ones, in source order. |
| Document.KeysOrdered | src/lib/index.ts:44-75 | The keys are strictly ascending in emission order, so no key repeats. |
| Document.FixedKeyPresent | src/lib/index.ts:44-64 | Every fixed key is in every configuration. |
| Document.OptionalKeyPresent | src/lib/index.ts:66-75 | An optional key is in the configuration exactly when its field is truthy. |
| Document.KeysPresence | src/lib/index.ts:44-75 | A key is in the configuration exactly when it is fixed or its optional field is truthy. |
| Document.OptionalKeysDependOnOptionalFields | src/lib/index.ts:66-75 | Which optional keys appear depends only on the five optional fields. |
| Document.Lines | src/lib/index.ts:44-75 | There is exactly one line per emitted key. |
| Document.MethodsJsonElements | src/lib/index.ts:68-69 | The payment-method list is written as a bracketed JSON list in which every method appears, in order, as its tag between double quotes. |
| Document.EmptyMethodsJson | src/lib/index.ts:68-69 | An empty payment-method list is written `[]`. |
| Document.TagNeedsNoEscaping | src/lib/types.ts:8-12 | No payment-method tag holds a quote, a backslash or a control character, so quoting a tag gives its JSON text. |
| Document.ContractCodeLine | src/lib/index.ts:47 | The contract-code line is the code between double quotes, unescaped, even when the code holds a quote itself. |
| Text.JoinSlice | src/lib/index.ts:77 | Every joined element appears unaltered in the joined text, at its computed offset. |
| Text.JoinEndsWithLast | src/lib/index.ts:77 | The joined text ends where its last element ends: no separator trails it. |
| Text.DecimalRoundTrip | src/lib/index.ts:46 | Reading back the printed decimal numeral of `n` gives `n`. |
| Text.IntDecimal | src/lib/index.ts:46 | A printed integer is non-empty and starts with `-` exactly when it is negative. |
| Document.DocumentFrame | src/lib/index.ts:85-117 | The document is the prefix, then the joined lines, then the suffix. Slicing at the two boundaries gives back each part. |
| Document.HtmlFrame | src/lib/index.ts:80-117 | The checkout document holds exactly the configuration text between the fixed prefix and suffix. |
| Document.DocumentLineVerbatim | src/lib/index.ts:77-99 | Every configuration line appears unaltered in the document, at the prefix length plus its offset in the join. |
| Document.LineVerbatim | src/lib/index.ts:44-99 | Every emitted key's line appears unaltered in the checkout document. |
| Document.InfiniteAmountLine | src/lib/index.ts:46 | An accepted `Infinity` amount is written as `amount: Infinity`. |
| Document.AmountVerbatim | src/lib/index.ts:46-99 | The amount line appears unaltered in the document as its second line. |
| Document.ContractCodeVerbatim | src/lib/index.ts:47-99 | The text `contractCode: "<code>"` appears in the document with the code exactly as given. |
| Document.NoTrailingSeparator | src/lib/index.ts:77-100 | The last line is followed directly by the suffix, with no `",\n"` after it. |
| Document.ForgedPairJoinsAlike | src/lib/index.ts:49-50 | Moving the text `",\ncustomerEmail: "` from the email into the name leaves the joined name and email lines unchanged. |
| Document.ForgedConfigAlike | src/lib/index.ts:44-77 | Two inputs related by such a shift give the same configuration text. |
| Document.UnescapedFieldsCollide | src/lib/index.ts:45-99 | Because nothing is escaped, two different requests produce the same checkout document. |
| Example.ExampleRequestIsValid | example/src/CheckoutUser.tsx:11-34 | The example application's request passes validation. |
| Example.ExampleKeys | example/src/CheckoutUser.tsx:13-22 | The example emits 13 keys: the ten fixed keys, then currency, reference and payment methods. It emits no metadata and no split rules. |
| Example.ExampleAmountLine | src/lib/index.ts:46 | The example's amount line is `amount: 100`. |
| Example.ExampleMethodsJson | src/lib/index.ts:68-69 | The example's payment methods are stringified to `["CARD","USSD"]`. |
| Example.ExampleMethodsLine | src/lib/index.ts:68-69 | The example's payment-methods line is `paymentMethods: ["CARD","USSD"]`. |
| Example.ExampleDocumentAmount | src/lib/index.ts:46-99 | The example's checkout document contains `amount: 100` at the start of its second line. |
| Example.ExampleDocumentContractCode | src/lib/index.ts:47-99 | The example's checkout document contains `contractCode: "5867418298"` at the start of its third line. |
| Toast.Initial | src/Dev/Toast.tsx:39-44 | A new toast is hidden, type info, at the bottom, with duration 3000 and no timer. |
| Toast.ClearTimer | src/Dev/Toast.tsx:62-67 | The remembered timer is cancelled: it is no longer pending, it is forgotten, and nothing else changes. |
| Toast.Show | src/Dev/Toast.tsx:111-127 | Show makes the toast visible with the new message. Each absent option falls back to info, bottom or 3000 via `??`, and each given option is kept. Exactly one timer is then pending: a fresh one armed with the chosen duration. |
| Toast.Hide | src/Dev/Toast.tsx:129-132 | Hide dismisses the toast and leaves no timer pending. Message, type and position are kept. |
| Toast.Expire | src/Dev/Toast.tsx:121-123 | A pending timer firing dismisses the toast and leaves no timer pending, while its stale handle stays remembered. A handle that is not pending does nothing. |
| Toast.Step | src/Dev/Toast.tsx:111-146 | Every input (show, hide, tap, expiry, unmount) keeps the toast's timer invariant and never reuses handles. |
| Toast.RunKeepsInv | src/Dev/Toast.tsx:111-140 | Every sequence of inputs keeps the toast's timer invariant. |
| Toast.AtMostOnePending | src/Dev/Toast.tsx:111-127 | At most one dismissal timer is pending, and none when the toast remembers none. |
| Toast.DeadTimerStaysDead | src/Dev/Toast.tsx:113-123 | A timer that fired or was cancelled never becomes pending again, whatever follows. |
| Toast.ReplacedTimerIsHarmless | src/Dev/Toast.tsx:113 | After a new show, the replaced timer firing changes nothing. |
| Toast.DismissalLeavesNothingPending | src/Dev/Toast.tsx:121-146 | Expiry, hide and tap each leave the toast hidden with no timer pending. A tap acts exactly like hide. |
| Toast.UnmountCancels | src/Dev/Toast.tsx:136-140 | Unmounting cancels the pending timer and changes nothing else. |
| Toast.ZeroDurationKept | src/Dev/Toast.tsx:117 | An explicit duration of 0 is kept, and an absent duration becomes 3000. |
| Toast.BackgroundColour | src/Dev/Toast.tsx:49-60 | Each type maps to a `#rrggbb` colour code: a `#` and six lower-case hexadecimal digits. |
| Toast.ColoursDistinct | src/Dev/Toast.tsx:49-60 | Different types get different colours. |
| Toast.EntranceOffset | src/Dev/Toast.tsx:70-72 | The entrance starts above for top, below for bottom, and in place for center. |
| Toast.ExitOffset | src/Dev/Toast.tsx:99 | The exit ends above for top, below for bottom, and in place for center. |
| Toast.ExitIsHalfTheEntrance | src/Dev/Toast.tsx:99 | The exit offset is half the entrance offset, in the same direction. |
| Toast.PointerEvents | src/Dev/Toast.tsx:148 | The toast takes touches (`auto`) exactly while it is visible, and is `none` otherwise. |
| Session.Initial | src/Dev/MonnifyCheckoutProvider.tsx:33-35 | The provider starts with no request and a hidden window. |
| Session.Open | src/Dev/MonnifyCheckoutProvider.tsx:36-54 | A valid request is stored, replacing any current one, and the window is shown. An invalid request only makes the toast show the validator's message as an error at the given position. |
| Session.Relay | src/Dev/MonnifyCheckoutProvider.tsx:70-87 | `onComplete` and `onClose` hide the window and forget the request. Any other tag changes nothing and calls nothing. With no stored request no callback runs, and `onError` is never called. |
| Session.CloseWebView | src/Dev/MonnifyCheckoutProvider.tsx:65-68 | The Close button calls the stored `onClose` with `null` and hides the window, keeping the request. With no request it only hides. |
| Session.RequestClose | src/Dev/MonnifyCheckoutProvider.tsx:103 | The back action hides the window and changes nothing else. |
| Session.GenerateHtml | src/Dev/MonnifyCheckoutProvider.tsx:56-63 | With no request the page is the placeholder `<html></html>`. With a stored request the page is never the placeholder: it opens with the fixed prefix, directly followed by the configuration of the stored parameters and the provider's key. |
| Session.Step | src/Dev/MonnifyCheckoutProvider.tsx:36-103 | Every provider input calls at most one callback, never calls `onError`, and keeps the toast's timer invariant. Only `open` can bring the toast up, since the toast's reference is private to the provider. |
| Session.StepKeepsValid | src/Dev/MonnifyCheckoutProvider.tsx:36-87 | Every input keeps the provider invariant: the window is shown only for a stored request, and only validated requests are stored. |
| Session.RunKeepsValid | src/Dev/MonnifyCheckoutProvider.tsx:33-103 | Every run keeps the provider invariant. |
| Session.NeverCallsOnError | src/Dev/MonnifyCheckoutProvider.tsx:65-87 | No run ever calls `onError`. |
| Session.SuccessAtMostOncePerOpen | src/Dev/MonnifyCheckoutProvider.tsx:79-83 | Across any run, the `onSuccess` calls plus a still-stored request never outnumber the accepted opens plus the request stored at the start. |
| Session.RejectedOpenShowsErrorToast | src/Dev/MonnifyCheckoutProvider.tsx:41-47 | A rejected open calls nothing and keeps the request and visibility. The toast then shows the validator's message as an error at the caller's position (bottom when none is given) for 3000 ms. |
| Session.InvalidAmountToast | src/Dev/MonnifyCheckoutProvider.tsx:41-47 | An open with an invalid amount shows the amount message and stores nothing new. |
| Session.AcceptedOpenReplaces | src/Dev/MonnifyCheckoutProvider.tsx:50-51 | An accepted open replaces the stored request even while a checkout is showing. It calls none of the replaced request's callbacks. |
| Session.CompletionCallsOnSuccess | src/Dev/MonnifyCheckoutProvider.tsx:79-83 | `onComplete` calls the stored `onSuccess` once with the message's data and never `onClose`. It then hides the window and forgets the request. |
| Session.CloseMessageCallsOnClose | src/Dev/MonnifyCheckoutProvider.tsx:74-78 | A page `onClose` message calls the stored `onClose` with the message's data. It then hides the window and forgets the request. |
| Session.LoadNotificationsIgnored | src/Dev/MonnifyCheckoutProvider.tsx:84-85 | The page's `onLoadStart` and `onLoadComplete` messages change nothing and call nothing. |
| Session.CloseCanBeCalledTwice | src/Dev/MonnifyCheckoutProvider.tsx:65-78 | Pressing Close and then receiving the page's close message calls `onClose` twice: first with `null`, then with the page's data. |
| Session.VisibleWindowShowsCheckout | src/Dev/MonnifyCheckoutProvider.tsx:56-63 | While the window is shown, its page is the stored request's checkout document, never the placeholder. |

Two behaviours a reader may not expect:

- **The double `onClose`.** The Close button keeps the stored request, so a
  close message arriving afterwards calls `onClose` a second time. This is
  `Session.CloseCanBeCalledTwice`.
- **`open` during a session.** A valid `open` while a checkout is showing
  silently replaces it. This is `Session.AcceptedOpenReplaces`.

`onError` is required by validation but never called. `Session.NeverCallsOnError`
proves this.

## Left out

- **Non-integer amounts.** A finite `amount` is modelled as a whole number.
  Fractional numbers and the exponent notation of `Number` printing are
  floating point.
- Text.IntDecimal: prints the exact numeral of every whole number. JavaScript
  does so only below 2^53 in magnitude. Above that it prints the shortest digits
  that read back to the same double, padded with zeros, so 2^60 prints as
  `1152921504606847000`. Doubles are not modelled.
- **A request without `checkoutParams`.** `validateParams` reads
  `params.checkoutParams.amount`, so `open` with no request, or with a request
  that has no `checkoutParams`, throws a `TypeError` before any toast is shown.
  The model's requests always carry checkout parameters.
- **`JSON.parse` of page messages.** Messages are modelled as already parsed,
  with an `event` tag and a `data` field. Text that does not parse, or that
  parses to `null`, throws in the handler; that case is not modelled. Text that
  parses to a number, string or boolean has no `event` field, so the handler
  ignores it, which is the model's case of an unknown tag.
- **`JSON.stringify` of metadata and split rules.** Both are an uninterpreted
  `Serializer` supplied by the caller. Payment-method tags are stringified in
  the model, since they contain no characters that need escaping. Metadata is
  kept as its entries in insertion order, so two objects with the same entries
  in a different order can be written differently, as `JSON.stringify` writes
  them.
- **Fractional split-rule numbers.** `feePercentage` and `splitAmount` are
  modelled as whole numbers. Fractions are floating point, and the model only
  passes these numbers to the `Serializer`.
- **Rendering.** React rendering, layout and styles are not modelled. This
  includes the modal, the safe-area views, the loading indicator, the injected
  script and the web view's error logging.
- **Toast animation.** Animation timing and easing are left out. Hide and
  expiry dismiss the toast at once, where the code does so at the end of the
  exit animation. So a `show` that arrives while an exit animation is still
  running, and is then hidden by that animation's late callback, is not
  modelled.
- **The `requestAnimationFrame` deferral in `show`.** The timer is armed
  immediately. So two `show` calls in the same frame, each arming a timer, are
  not modelled.
- Toast.EntranceOffset and Toast.ExitOffset: these state the offset for a
  given position. The code's `show` runs the entrance and exit animations built
  in the render before the call, and `setPosition` only takes effect at the
  next render. So a `show` that changes the position slides in, and later out
  on expiry, with the previous position's offsets. For example, the first
  error toast opened at the top enters from below. Which render's position an
  animation uses is not modelled.
- Toast.ExitOffset: the same holds for the exit offset, which the expiry of a
  position-changing `show` takes from the previous position.
- **Time.** Which timer fires is an input; the clock itself is not modelled.
- **An unmounted toast.** The provider's toast is taken to be mounted. The case
  where `toastRef.current` is null, and the error toast is silently skipped, is
  left out.
- **`useMonnifyCheckout`.** Its error when used outside the provider is React
  context plumbing.
- **Console logging.**
- **The generated page at run time.** The Monnify SDK and the page's own
  scripts are not modelled. The model stops at the document text and at the
  messages the page posts.
- **Inputs that arrive before React re-renders.** Each input is applied to
  the state the previous input left. In the code, `closeWebView` and the
  message handler read the request of the last render, and their state updates
  only take effect at the next render. So two page messages handled before a
  re-render both see the stored request. `onComplete` followed by `onClose`
  then calls `onSuccess` and then `onClose`, and two `onComplete` messages call
  `onSuccess` twice. The model calls only the first callback in both cases.
  `Session.SuccessAtMostOncePerOpen` holds under this one-render-per-input
  reading only.
- **Callbacks that call back into the provider.** Callbacks are outputs of a
  step, and a later `open` is a separate input. So the model assumes a callback
  never calls `open` itself. The code calls `onClose(null)` before it hides the
  window, so an `onClose` handler that opens a valid request from the Close
  button ends with that request stored and the window hidden. In the model the
  same request, opened as the next input, leaves the window shown.
- **Session.CloseWebView:** a stored request without `onClose` makes the code
  throw before it hides the window. The model keeps the state unchanged in that
  case. The case cannot arise, because only validated requests are stored.
- **The example's reference.** The example builds its `reference` from the
  clock. `Example.ExampleParams` takes the clock reading as a parameter.
