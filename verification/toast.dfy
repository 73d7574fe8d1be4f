/** The toast (src/Dev/Toast.tsx) as a state machine: `show` replaces the
    message and options and arms a dismissal timer, `hide` and a tap dismiss it
    at once, a timer that fires dismisses it, and unmounting cancels the timer.
    Timers are identified by the handles the scheduler hands out; `pending`
    holds the ones that have been armed and have neither fired nor been
    cancelled, each with the delay it was armed with. */
module Toast {
  import opened Wrappers

  datatype ToastType = Success | Error | Info | Warning

  datatype Position = Top | Center | Bottom

  /** `ToastOptions`: every field may be left out. */
  datatype Options = Options(kind: Option<ToastType>, duration: Option<int>, position: Option<Position>)

  /** How long a toast stays up when no duration is given, in milliseconds. */
  const DefaultDuration: int := 3000

  datatype ToastState = ToastState(
    visible: bool,
    message: string,
    kind: ToastType,
    position: Position,
    duration: int,
    timerRef: Option<nat>,
    pending: map<nat, int>,
    nextTimer: nat)

  /** The state of a freshly mounted toast. Timer handles start at 1, so every
      handle the scheduler gives out is truthy. */
  function Initial(): (t: ToastState)
    ensures !t.visible && t.pending == map[] && t.timerRef == None
    ensures t.kind == Info && t.position == Bottom && t.duration == DefaultDuration
  {
    ToastState(false, "", Info, Bottom, DefaultDuration, None, map[], 1)
  }

  /** The toast's bookkeeping invariant: at most the timer the toast remembers
      is pending, it was armed with the current duration, and every handle
      given out so far lies below the next one. */
  predicate Inv(t: ToastState) {
    && (forall id | id in t.pending :: t.timerRef == Some(id) && t.pending[id] == t.duration)
    && (t.timerRef.Some? ==> 0 < t.timerRef.value < t.nextTimer)
    && 0 < t.nextTimer
  }

  /** `clearTimer`: cancel the remembered timer, if any, and forget it. */
  function ClearTimer(t: ToastState): (r: ToastState)
    ensures r.timerRef == None
    ensures forall id :: id in r.pending <==> id in t.pending && t.timerRef != Some(id)
    ensures r.(timerRef := t.timerRef, pending := t.pending) == t
  {
    match t.timerRef
    case None => t
    case Some(id) => t.(timerRef := None, pending := t.pending - {id})
  }

  /** `show`: cancel the previous timer first, take the message and the options
      (an absent option falls back to its default, an explicit `0` duration is
      kept), become visible, and arm a new timer with the chosen duration. */
  function Show(t: ToastState, message: string, options: Options): (r: ToastState)
    requires Inv(t)
    ensures r.visible && r.message == message
    ensures r.kind == (if options.kind.Some? then options.kind.value else Info)
    ensures r.position == (if options.position.Some? then options.position.value else Bottom)
    ensures r.duration == (if options.duration.Some? then options.duration.value else DefaultDuration)
    ensures r.timerRef == Some(t.nextTimer) && r.pending == map[t.nextTimer := r.duration]
    ensures t.nextTimer < r.nextTimer
  {
    var cleared := ClearTimer(t);
    var duration := options.duration.GetOr(DefaultDuration);
    cleared.(
      visible := true,
      message := message,
      kind := options.kind.GetOr(Info),
      position := options.position.GetOr(Bottom),
      duration := duration,
      timerRef := Some(t.nextTimer),
      pending := cleared.pending[t.nextTimer := duration],
      nextTimer := t.nextTimer + 1)
  }

  /** `hide`: cancel the timer and dismiss the toast. */
  function Hide(t: ToastState): (r: ToastState)
    requires Inv(t)
    ensures !r.visible && r.pending == map[] && r.timerRef == None
    ensures r.message == t.message && r.kind == t.kind && r.position == t.position
    ensures r == t.(visible := false, timerRef := None, pending := map[])
  {
    ClearTimer(t).(visible := false)
  }

  /** Timer `id` fires: a pending timer dismisses the toast and is no longer
      pending, though the toast still remembers its handle; any other handle
      does nothing. */
  function Expire(t: ToastState, id: nat): (r: ToastState)
    requires Inv(t)
    ensures id in t.pending ==> !r.visible && r.pending == map[] && r.timerRef == t.timerRef
    ensures id in t.pending ==> r == t.(visible := false, pending := map[])
    ensures id !in t.pending ==> r == t
  {
    if id in t.pending then t.(visible := false, pending := t.pending - {id}) else t
  }

  /** What can happen to a mounted toast. A tap on the toast calls `hide`. */
  datatype Input =
    | ShowInput(message: string, options: Options)
    | HideInput
    | TapInput
    | ExpireInput(id: nat)
    | UnmountInput

  /** One input; `Unmount` cancels the timer and changes nothing else. */
  function Step(t: ToastState, i: Input): (r: ToastState)
    requires Inv(t)
    ensures Inv(r)
    ensures t.nextTimer <= r.nextTimer
  {
    match i
    case ShowInput(message, options) => Show(t, message, options)
    case HideInput => Hide(t)
    case TapInput => Hide(t)
    case ExpireInput(id) => Expire(t, id)
    case UnmountInput => ClearTimer(t)
  }

  function Run(t: ToastState, inputs: seq<Input>): ToastState
    requires Inv(t)
    decreases |inputs|
  {
    if |inputs| == 0 then t else Run(Step(t, inputs[0]), inputs[1..])
  }

  /** Every run from a state that keeps the invariant keeps it. */
  lemma {:induction false} RunKeepsInv(t: ToastState, inputs: seq<Input>)
    requires Inv(t)
    ensures Inv(Run(t, inputs))
    ensures t.nextTimer <= Run(t, inputs).nextTimer
    decreases |inputs|
  {
    if |inputs| > 0 {
      RunKeepsInv(Step(t, inputs[0]), inputs[1..]);
    }
  }

  /** At most one dismissal timer is ever pending. */
  lemma AtMostOnePending(t: ToastState)
    requires Inv(t)
    ensures |t.pending| <= 1
    ensures t.timerRef == None ==> t.pending == map[]
  {
    if t.timerRef.Some? && t.timerRef.value in t.pending {
      assert t.pending.Keys == {t.timerRef.value};
    } else {
      assert t.pending.Keys == {};
    }
  }

  /** A timer that is no longer pending (it fired or was cancelled) never
      becomes pending again, whatever happens afterwards: handles are never
      reused. In particular the timer of a toast that `show` replaced can
      never dismiss the new one. */
  lemma {:induction false} DeadTimerStaysDead(t: ToastState, inputs: seq<Input>, id: nat)
    requires Inv(t) && id < t.nextTimer && id !in t.pending
    ensures id !in Run(t, inputs).pending
    decreases |inputs|
  {
    if |inputs| > 0 {
      var next := Step(t, inputs[0]);
      assert id !in next.pending;
      DeadTimerStaysDead(next, inputs[1..], id);
    }
  }

  /** Showing again cancels the earlier timer: if it fires afterwards, nothing
      happens. */
  lemma ReplacedTimerIsHarmless(t: ToastState, message: string, options: Options)
    requires Inv(t) && t.timerRef.Some?
    ensures var shown := Show(t, message, options);
            Expire(shown, t.timerRef.value) == shown
  {
  }

  /** Firing the pending timer, hiding and tapping all leave the toast
      dismissed with no timer pending. */
  lemma DismissalLeavesNothingPending(t: ToastState)
    requires Inv(t) && t.timerRef.Some? && t.timerRef.value in t.pending
    ensures var fired := Expire(t, t.timerRef.value);
            !fired.visible && fired.pending == map[]
    ensures !Step(t, HideInput).visible && Step(t, HideInput).pending == map[]
    ensures Step(t, TapInput) == Step(t, HideInput)
  {
  }

  /** Unmounting cancels the pending timer, so nothing can fire afterwards,
      and changes nothing else. */
  lemma UnmountCancels(t: ToastState)
    requires Inv(t)
    ensures Step(t, UnmountInput).pending == map[]
    ensures Step(t, UnmountInput) == t.(timerRef := None, pending := map[])
  {
  }

  /** `??` keeps an explicit zero duration, which a `||` default would not. */
  lemma ZeroDurationKept(t: ToastState, message: string)
    requires Inv(t)
    ensures Show(t, message, Options(None, Some(0), None)).duration == 0
    ensures Show(t, message, Options(None, None, None)).duration == DefaultDuration
  {
  }

  /** The background colour for each toast type, as a `#rrggbb` code. */
  function BackgroundColour(kind: ToastType): (c: string)
    ensures |c| == 7 && c[0] == '#'
    ensures forall i | 1 <= i < 7 :: c[i] in "0123456789abcdef"
  {
    match kind
    case Success => "#10b981"
    case Error => "#ef4444"
    case Warning => "#f59e0b"
    case Info => "#3b82f6"
  }

  /** Each type has a colour of its own. */
  lemma ColoursDistinct(a: ToastType, b: ToastType)
    requires a != b
    ensures BackgroundColour(a) != BackgroundColour(b)
  {
  }

  /** Where the toast starts its entrance, relative to its resting place: from
      above when it sits at the top, from below at the bottom. */
  function EntranceOffset(position: Position): (d: int)
    ensures position == Top <==> d < 0
    ensures position == Bottom <==> d > 0
    ensures position == Center <==> d == 0
  {
    match position
    case Top => -20
    case Bottom => 20
    case Center => 0
  }

  /** Where the toast ends its exit, relative to its resting place. */
  function ExitOffset(position: Position): (d: int)
    ensures position == Top <==> d < 0
    ensures position == Bottom <==> d > 0
    ensures position == Center <==> d == 0
  {
    match position
    case Top => -10
    case Bottom => 10
    case Center => 0
  }

  /** The exit travels half the entrance's distance, in the same direction. */
  lemma ExitIsHalfTheEntrance(position: Position)
    ensures EntranceOffset(position) == 2 * ExitOffset(position)
  {
  }

  /** The toast takes touches exactly while it is visible. */
  function PointerEvents(visible: bool): (mode: string)
    ensures mode == "auto" <==> visible
    ensures mode == "none" <==> !visible
  {
    if visible then "auto" else "none"
  }
}
