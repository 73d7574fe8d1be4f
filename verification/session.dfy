/** `MonnifyCheckoutProvider` (src/Dev/MonnifyCheckoutProvider.tsx) as a state
    machine over the stored request, the checkout window's visibility and the
    provider's toast. Each step returns the callbacks it invoked, in order. */
module Session {
  import opened Wrappers
  import opened Types
  import Validation
  import Document
  import Toast

  /** The `data` field of a relayed message: missing, `null`, or some JSON
      value (kept as its text). */
  datatype Datum = Undefined | Null | Data(json: string)

  /** A message from the checkout page, already parsed: its `event` tag and
      its `data` field. */
  datatype Message = Message(event: string, data: Datum)

  /** An invocation of one of the request's three callbacks, with its argument. */
  datatype Event =
    | SuccessCalled(handler: Handler, data: Datum)
    | CloseCalled(handler: Handler, data: Datum)
    | ErrorCalled(handler: Handler, data: Datum)

  datatype Provider = Provider(params: Option<Request>, visible: bool, toast: Toast.ToastState)

  /** The provider as first rendered: no request, window hidden, toast idle. */
  function Initial(): (s: Provider)
    ensures s.params == None && !s.visible && Toast.Inv(s.toast)
  {
    Provider(None, false, Toast.Initial())
  }

  /** What the provider keeps true: the window is only shown for a stored
      request, and only requests that passed validation are stored. */
  predicate Valid(s: Provider) {
    && (s.visible ==> s.params.Some?)
    && (s.params.Some? ==> Validation.Validate(s.params.value) == None)
    && Toast.Inv(s.toast)
  }

  /** The options of the error toast `open` shows: the error type and the
      caller's position; the duration is left to the toast's default. */
  function ErrorToast(position: Option<Toast.Position>): Toast.Options {
    Toast.Options(Some(Toast.Error), None, position)
  }

  /** `open`: a request that fails validation only shows the validator's
      message in an error toast; a valid one is stored, replacing any current
      one, and the window is shown. */
  function Open(s: Provider, request: Request, position: Option<Toast.Position>): (r: Provider)
    requires Toast.Inv(s.toast)
    ensures Validation.Validate(request) == None ==> r == s.(params := Some(request), visible := true)
    ensures Validation.Validate(request).Some? ==>
              r == s.(toast := Toast.Show(s.toast, Validation.Validate(request).value, ErrorToast(position)))
  {
    match Validation.Validate(request)
    case Some(message) => s.(toast := Toast.Show(s.toast, message, ErrorToast(position)))
    case None => s.(params := Some(request), visible := true)
  }

  /** `webViewMessageHandler`: `onComplete` and `onClose` hide the window,
      forget the request and pass the message's data to the stored request's
      `onSuccess` or `onClose`; any other tag is ignored. */
  function Relay(s: Provider, m: Message): (r: (Provider, seq<Event>))
    ensures m.event != "onComplete" && m.event != "onClose" ==> r == (s, [])
    ensures m.event == "onComplete" || m.event == "onClose" ==>
              r.0 == s.(params := None, visible := false)
    ensures forall e | e in r.1 :: !e.ErrorCalled?
    ensures s.params == None ==> r.1 == []
  {
    if m.event == "onClose" then
      var events := if s.params.Some? && s.params.value.onClose.Some?
                    then [CloseCalled(s.params.value.onClose.value, m.data)] else [];
      (s.(params := None, visible := false), events)
    else if m.event == "onComplete" then
      var events := if s.params.Some? && s.params.value.onSuccess.Some?
                    then [SuccessCalled(s.params.value.onSuccess.value, m.data)] else [];
      (s.(params := None, visible := false), events)
    else
      (s, [])
  }

  /** `closeWebView`, the Close button: call the stored request's `onClose`
      with `null` and hide the window; the request stays stored. With no
      request it only hides. A stored request without `onClose` makes the call
      throw before anything changes. */
  function CloseWebView(s: Provider): (r: (Provider, seq<Event>))
    ensures s.params == None ==> r == (s.(visible := false), [])
    ensures s.params.Some? && s.params.value.onClose.Some? ==>
              r == (s.(visible := false), [CloseCalled(s.params.value.onClose.value, Null)])
    ensures r.0.params == s.params
  {
    match s.params
    case None => (s.(visible := false), [])
    case Some(request) =>
      match request.onClose
      case Some(h) => (s.(visible := false), [CloseCalled(h, Null)])
      case None => (s, [])
  }

  /** The modal's `onRequestClose` (the system back action): hide the window
      and nothing else. */
  function RequestClose(s: Provider): (r: Provider)
    ensures !r.visible && r.params == s.params && r.toast == s.toast
  {
    s.(visible := false)
  }

  /** The page the window loads: a placeholder with no request, otherwise the
      checkout document for the stored parameters and the provider's key,
      which opens with the fixed prefix followed by that request's
      configuration and is never the placeholder. */
  function GenerateHtml(s: Provider, apiKey: string, json: Document.Serializer): (page: string)
    ensures s.params == None ==> page == "<html></html>"
    ensures s.params.Some? ==>
              var config := Document.Config(Document.GeneratorInput(s.params.value.checkoutParams, apiKey), json);
              && |Document.Prefix| + |config| <= |page|
              && page[..|Document.Prefix|] == Document.Prefix
              && page[|Document.Prefix| .. |Document.Prefix| + |config|] == config
              && page != "<html></html>"
  {
    match s.params
    case None => "<html></html>"
    case Some(request) =>
      var g := Document.GeneratorInput(request.checkoutParams, apiKey);
      Document.HtmlFrame(g, json);
      assert |Document.Html(g, json)| >= |Document.Prefix| > |"<html></html>"|;
      Document.Html(g, json)
  }

  /** Everything that can happen to the provider. */
  datatype Input =
    | OpenInput(request: Request, position: Option<Toast.Position>)
    | MessageInput(message: Message)
    | ClosePressed
    | BackRequested
    | ToastInput(event: ToastEvent)

  /** What can reach the provider's toast other than `open`: the toast's
      reference is private to the provider, so only a tap, a timer firing and
      unmounting can. */
  datatype ToastEvent = Tapped | TimerFired(id: nat) | Unmounted

  /** The toast input each of those events amounts to. */
  function ToastInputOf(e: ToastEvent): (t: Toast.Input)
    ensures !t.ShowInput? && !t.HideInput?
  {
    match e
    case Tapped => Toast.TapInput
    case TimerFired(id) => Toast.ExpireInput(id)
    case Unmounted => Toast.UnmountInput
  }

  /** One input. It calls at most one callback, never `onError`, and keeps
      the toast's bookkeeping sound; only `open` can bring the toast up. */
  function Step(s: Provider, i: Input): (r: (Provider, seq<Event>))
    requires Toast.Inv(s.toast)
    ensures Toast.Inv(r.0.toast)
    ensures |r.1| <= 1
    ensures forall e | e in r.1 :: !e.ErrorCalled?
    ensures r.0.toast.visible && !s.toast.visible ==> i.OpenInput?
  {
    match i
    case OpenInput(request, position) => (Open(s, request, position), [])
    case MessageInput(m) => Relay(s, m)
    case ClosePressed => CloseWebView(s)
    case BackRequested => (RequestClose(s), [])
    case ToastInput(e) => (s.(toast := Toast.Step(s.toast, ToastInputOf(e))), [])
  }

  /** A run of inputs: the final state and every callback invoked, in order. */
  function Run(s: Provider, inputs: seq<Input>): (Provider, seq<Event>)
    requires Toast.Inv(s.toast)
    decreases |inputs|
  {
    if |inputs| == 0 then (s, [])
    else
      var (next, events) := Step(s, inputs[0]);
      var (last, later) := Run(next, inputs[1..]);
      (last, events + later)
  }

  /** Every step keeps the provider's invariant. */
  lemma StepKeepsValid(s: Provider, i: Input)
    requires Valid(s)
    ensures Valid(Step(s, i).0)
  {
  }

  /** Every run keeps the provider's invariant: in particular the window is
      never shown without a stored request. */
  lemma {:induction false} RunKeepsValid(s: Provider, inputs: seq<Input>)
    requires Valid(s)
    ensures Valid(Run(s, inputs).0)
    decreases |inputs|
  {
    if |inputs| > 0 {
      StepKeepsValid(s, inputs[0]);
      RunKeepsValid(Step(s, inputs[0]).0, inputs[1..]);
    }
  }

  /** No run ever calls `onError`. */
  lemma {:induction false} NeverCallsOnError(s: Provider, inputs: seq<Input>)
    requires Toast.Inv(s.toast)
    ensures forall e | e in Run(s, inputs).1 :: !e.ErrorCalled?
    decreases |inputs|
  {
    if |inputs| > 0 {
      NeverCallsOnError(Step(s, inputs[0]).0, inputs[1..]);
    }
  }

  /** How many `onSuccess` calls a list of events holds. */
  function Successes(events: seq<Event>): (n: nat)
    ensures n <= |events|
    decreases |events|
  {
    if |events| == 0 then 0
    else (if events[0].SuccessCalled? then 1 else 0) + Successes(events[1..])
  }

  lemma {:induction false} SuccessesAppend(a: seq<Event>, b: seq<Event>)
    ensures Successes(a + b) == Successes(a) + Successes(b)
    decreases |a|
  {
    if |a| == 0 {
      assert a + b == b;
    } else {
      assert (a + b)[1..] == a[1..] + b;
      SuccessesAppend(a[1..], b);
    }
  }

  /** How many of the inputs open a request that passes validation. */
  function AcceptedOpens(inputs: seq<Input>): (n: nat)
    ensures n <= |inputs|
    decreases |inputs|
  {
    if |inputs| == 0 then 0
    else
      (if inputs[0].OpenInput? && Validation.Validate(inputs[0].request) == None then 1 else 0)
      + AcceptedOpens(inputs[1..])
  }

  function Stored(s: Provider): nat {
    if s.params.Some? then 1 else 0
  }

  /** `onSuccess` is called at most once per accepted `open`: completing a
      checkout forgets its request, so a second completion finds nothing to
      call until the next accepted `open`. */
  lemma {:induction false} SuccessAtMostOncePerOpen(s: Provider, inputs: seq<Input>)
    requires Toast.Inv(s.toast)
    ensures var (last, events) := Run(s, inputs);
            Successes(events) + Stored(last) <= AcceptedOpens(inputs) + Stored(s)
    decreases |inputs|
  {
    if |inputs| > 0 {
      var (next, events) := Step(s, inputs[0]);
      SuccessAtMostOncePerOpen(next, inputs[1..]);
      var (last, later) := Run(next, inputs[1..]);
      SuccessesAppend(events, later);
      assert Successes(events) + Stored(next)
          <= (if inputs[0].OpenInput? && Validation.Validate(inputs[0].request) == None then 1 else 0) + Stored(s);
    }
  }

  /** A rejected `open` changes nothing but the toast, which then shows the
      validator's message as an error at the caller's position (at the bottom
      when none is given) for the default three seconds. */
  lemma RejectedOpenShowsErrorToast(s: Provider, request: Request, position: Option<Toast.Position>)
    requires Valid(s) && Validation.Validate(request).Some?
    ensures var (next, events) := Step(s, OpenInput(request, position));
            && events == []
            && next.params == s.params && next.visible == s.visible
            && next.toast.visible && next.toast.message == Validation.Validate(request).value
            && next.toast.kind == Toast.Error
            && next.toast.position == (if position.Some? then position.value else Toast.Bottom)
            && next.toast.duration == Toast.DefaultDuration
  {
  }

  /** An invalid amount is reported with the amount message whatever else is
      wrong with the request. */
  lemma InvalidAmountToast(s: Provider, request: Request, position: Option<Toast.Position>)
    requires Valid(s) && Validation.AmountRejected(request.checkoutParams.amount)
    ensures Step(s, OpenInput(request, position)).0.toast.message == Validation.AmountMessage
    ensures Step(s, OpenInput(request, position)).0.params == s.params
  {
  }

  /** An accepted `open` replaces the stored request even while a checkout is
      showing, without calling the replaced request's callbacks. */
  lemma AcceptedOpenReplaces(s: Provider, request: Request, position: Option<Toast.Position>)
    requires Valid(s) && Validation.Validate(request) == None
    ensures var (next, events) := Step(s, OpenInput(request, position));
            events == [] && next.params == Some(request) && next.visible && next.toast == s.toast
  {
  }

  /** Completing a checkout calls the stored request's `onSuccess` once with
      the message's data, and never its `onClose`. */
  lemma CompletionCallsOnSuccess(s: Provider, data: Datum)
    requires Valid(s) && s.params.Some?
    ensures var (next, events) := Step(s, MessageInput(Message("onComplete", data)));
            && events == [SuccessCalled(s.params.value.onSuccess.value, data)]
            && next.params == None && !next.visible
  {
    Validation.MessagesDistinct();
    assert Validation.Passes(s.params.value, 6);
  }

  /** A close message calls the stored request's `onClose` with the message's
      data and forgets the request. */
  lemma CloseMessageCallsOnClose(s: Provider, data: Datum)
    requires Valid(s) && s.params.Some?
    ensures var (next, events) := Step(s, MessageInput(Message("onClose", data)));
            && events == [CloseCalled(s.params.value.onClose.value, data)]
            && next.params == None && !next.visible
  {
    assert Validation.Passes(s.params.value, 5);
  }

  /** The page's load notifications, like every tag other than `onComplete`
      and `onClose`, change nothing and call nothing. */
  lemma LoadNotificationsIgnored(s: Provider, data: Datum)
    ensures Relay(s, Message(Document.PostedTag(Document.OnLoadStartKey), data)) == (s, [])
    ensures Relay(s, Message(Document.PostedTag(Document.OnLoadCompleteKey), data)) == (s, [])
  {
  }

  /** Pressing Close and then receiving the page's own close message calls
      `onClose` twice: once with `null`, once with the page's data. */
  lemma CloseCanBeCalledTwice(s: Provider, data: Datum)
    requires Valid(s) && s.params.Some?
    ensures var h := s.params.value.onClose.value;
            Run(s, [ClosePressed, MessageInput(Message("onClose", data))]).1
              == [CloseCalled(h, Null), CloseCalled(h, data)]
  {
    assert Validation.Passes(s.params.value, 5);
    var (next, events) := Step(s, ClosePressed);
    assert Run(next, [MessageInput(Message("onClose", data))]).1 == [CloseCalled(s.params.value.onClose.value, data)];
    assert [ClosePressed, MessageInput(Message("onClose", data))][1..] == [MessageInput(Message("onClose", data))];
  }

  /** While the window is shown it holds the checkout document of the stored
      request, never the placeholder. */
  lemma VisibleWindowShowsCheckout(s: Provider, apiKey: string, json: Document.Serializer)
    requires Valid(s) && s.visible
    ensures var page := GenerateHtml(s, apiKey, json);
            && page == Document.Html(Document.GeneratorInput(s.params.value.checkoutParams, apiKey), json)
            && page != "<html></html>"
  {
  }
}
