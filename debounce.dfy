/** The `useDebounce` hook of src/App.tsx as a state machine.

    The hook keeps the debounced value in component state. After EVERY render
    (its effect has no dependency list) the cleanup of the previous effect
    clears the timer that effect scheduled; then, when debouncing is enabled,
    a timer is scheduled that will set the debounced value to the value of
    this render, and otherwise the debounced value is set at once. A timer
    firing is a separate event. Time itself is not modelled: the delay is
    recorded on each timer, and an expiry is the event `Fire`. */
module Debounce {
  import opened Js

  /** The default delay of `useDebounce`, in milliseconds. */
  const DefaultDelay: nat := 1000

  /** The hook's options `{ delay?, debounce? }`. */
  datatype Options = Options(delay: Option<nat>, debounce: Option<bool>)

  /** The destructuring defaults `{ delay = 1000, debounce = true }`. */
  function DelayOf(opts: Options): nat { opts.delay.OrElse(DefaultDelay) }
  function EnabledOf(opts: Options): bool { opts.debounce.OrElse(true) }

  /** A scheduled, not yet fired and not cleared timer: its handle, the value
      its callback will store, and its delay. */
  datatype Timer<T> = Timer(handle: nat, value: T, delay: nat)

  /** The hook's state: the debounced value; the timers still scheduled; the
      handle the cleanup of the latest effect will clear (None when that
      effect set the value directly and `handler` stayed undefined); the
      next fresh timer handle. */
  datatype State<T> = State(debounced: T, scheduled: seq<Timer<T>>,
                            cleanup: Option<nat>, nextHandle: nat)

  /** The state right after `useState(value)` on mount, before any effect. */
  function Mount<T>(value: T): State<T> {
    State(value, [], None, 0)
  }

  /** `clearTimeout(handle)`: removes the timer with that handle, if any;
      clearing `undefined` or a timer that already fired does nothing. */
  function Clear<T>(timers: seq<Timer<T>>, handle: Option<nat>): (r: seq<Timer<T>>)
    ensures |r| <= |timers|
    ensures forall i :: 0 <= i < |r| ==> r[i] in timers && Some(r[i].handle) != handle
    ensures forall i :: 0 <= i < |timers| && Some(timers[i].handle) != handle ==> timers[i] in r
    ensures handle.None? ==> r == timers
  {
    if timers == [] then []
    else if Some(timers[0].handle) == handle then Clear(timers[1..], handle)
    else [timers[0]] + Clear(timers[1..], handle)
  }

  /** The effect run after a render with input `value`: the previous effect's
      cleanup, then scheduling (enabled) or an immediate update (disabled). */
  function EffectStep<T>(s: State<T>, value: T, opts: Options): State<T> {
    var remaining := Clear(s.scheduled, s.cleanup);
    if EnabledOf(opts) then
      State(s.debounced, remaining + [Timer(s.nextHandle, value, DelayOf(opts))],
            Some(s.nextHandle), s.nextHandle + 1)
    else
      State(value, remaining, None, s.nextHandle)
  }

  /** The earliest scheduled timer fires; with nothing scheduled the event
      changes nothing. `Inv` keeps at most one timer scheduled, so which one
      fires first never matters. */
  function FireStep<T>(s: State<T>): State<T> {
    if s.scheduled == [] then s
    else s.(debounced := s.scheduled[0].value, scheduled := s.scheduled[1..])
  }

  /** Unmounting runs the latest effect's cleanup and nothing more. */
  function UnmountStep<T>(s: State<T>): State<T> {
    s.(scheduled := Clear(s.scheduled, s.cleanup))
  }

  /** The value a pending propagation will store, if one is pending. */
  function Pending<T>(s: State<T>): Option<T> {
    if s.scheduled == [] then None else Some(s.scheduled[0].value)
  }

  /** What cancel-and-reschedule maintains: at most one timer is scheduled, it
      is the one the next cleanup clears, and every handle is already issued. */
  ghost predicate Inv<T>(s: State<T>) {
    && |s.scheduled| <= 1
    && (s.scheduled != [] ==> s.cleanup == Some(s.scheduled[0].handle))
    && (forall t :: t in s.scheduled ==> t.handle < s.nextHandle)
  }

  lemma MountInv<T>(value: T)
    ensures Inv(Mount(value)) && Pending(Mount(value)) == None
    ensures Mount(value).debounced == value
  {
  }

  /** An enabled effect replaces whatever was pending by exactly one new timer,
      carrying this render's value, with a handle never used before; the
      debounced value is untouched until that timer fires. */
  lemma EffectEnabled<T>(s: State<T>, value: T, opts: Options)
    requires Inv(s) && EnabledOf(opts)
    ensures var s' := EffectStep(s, value, opts);
            && Inv(s')
            && s'.debounced == s.debounced
            && s'.scheduled == [Timer(s.nextHandle, value, DelayOf(opts))]
            && (forall t :: t in s.scheduled ==> t.handle != s'.scheduled[0].handle)
            && Pending(s') == Some(value)
  {
    var remaining := Clear(s.scheduled, s.cleanup);
    assert remaining == [] by {
      if s.scheduled != [] {
        assert s.scheduled == [s.scheduled[0]];
      }
    }
  }

  /** A disabled effect stores the value at once and leaves nothing pending. */
  lemma EffectDisabled<T>(s: State<T>, value: T, opts: Options)
    requires Inv(s) && !EnabledOf(opts)
    ensures var s' := EffectStep(s, value, opts);
            Inv(s') && s'.debounced == value && s'.scheduled == [] && Pending(s') == None
  {
    var remaining := Clear(s.scheduled, s.cleanup);
    assert remaining == [] by {
      if s.scheduled != [] {
        assert s.scheduled == [s.scheduled[0]];
      }
    }
  }

  /** Firing stores the pending value, if any, and leaves nothing pending. */
  lemma FireStoresPending<T>(s: State<T>)
    requires Inv(s)
    ensures var s' := FireStep(s);
            && Inv(s') && s'.scheduled == [] && Pending(s') == None
            && s'.debounced == (if Pending(s).Some? then Pending(s).value else s.debounced)
  {
  }

  /** Unmounting cancels the pending propagation: no value is stored later. */
  lemma UnmountCancels<T>(s: State<T>)
    requires Inv(s)
    ensures UnmountStep(s).scheduled == [] && UnmountStep(s).debounced == s.debounced
    ensures FireStep(UnmountStep(s)) == UnmountStep(s)
  {
    if s.scheduled != [] {
      assert s.scheduled == [s.scheduled[0]];
    }
  }

  /** The events the hook sees: a render with its input and options, or the
      expiry of the earliest scheduled timer. */
  datatype Event<T> = Render(value: T, opts: Options) | Expire

  function Step<T>(s: State<T>, e: Event<T>): State<T> {
    match e
    case Render(value, opts) => EffectStep(s, value, opts)
    case Expire => FireStep(s)
  }

  function Run<T>(s: State<T>, events: seq<Event<T>>): State<T>
    decreases |events|
  {
    if events == [] then s else Run(Step(s, events[0]), events[1..])
  }

  lemma {:induction false} RunInv<T>(s: State<T>, events: seq<Event<T>>)
    requires Inv(s)
    ensures Inv(Run(s, events))
    decreases |events|
  {
    if events != [] {
      match events[0] {
        case Render(value, opts) =>
          if EnabledOf(opts) { EffectEnabled(s, value, opts); } else { EffectDisabled(s, value, opts); }
        case Expire => FireStoresPending(s);
      }
      RunInv(Step(s, events[0]), events[1..]);
    }
  }

  /** Whatever happened, at most one propagation is pending. */
  lemma AtMostOnePending<T>(events: seq<Event<T>>, value: T)
    ensures |Run(Mount(value), events).scheduled| <= 1
  {
    MountInv(value);
    RunInv(Mount(value), events);
  }

  /** The latest render of an event sequence, if any. */
  function LastRender<T>(events: seq<Event<T>>): (r: Option<Event<T>>)
    ensures r.Some? ==> r.value.Render?
    decreases |events|
  {
    if events == [] then None
    else if events[|events| - 1].Render? then Some(events[|events| - 1])
    else LastRender(events[..|events| - 1])
  }

  lemma RunSnoc<T>(s: State<T>, events: seq<Event<T>>, e: Event<T>)
    ensures Run(s, events + [e]) == Step(Run(s, events), e)
    decreases |events|
  {
    if events != [] {
      assert (events + [e])[1..] == events[1..] + [e];
      RunSnoc(Step(s, events[0]), events[1..], e);
    }
  }

  /** A pending propagation always carries the input of the most recent render:
      every render cancels the previous propagation before scheduling its own,
      so an older input can never be stored after a newer render. */
  lemma {:induction false} PendingIsLatest<T>(s: State<T>, events: seq<Event<T>>)
    requires Inv(s) && LastRender(events).Some?
    ensures var s' := Run(s, events);
            Pending(s').Some? ==>
              Pending(s').value == LastRender(events).value.value
              && EnabledOf(LastRender(events).value.opts)
    decreases |events|
  {
    var n := |events|;
    var init, e := events[..n - 1], events[n - 1];
    assert events == init + [e];
    RunSnoc(s, init, e);
    RunInv(s, init);
    var mid := Run(s, init);
    match e
    case Render(value, opts) =>
      if EnabledOf(opts) { EffectEnabled(mid, value, opts); } else { EffectDisabled(mid, value, opts); }
    case Expire =>
      FireStoresPending(mid);
  }

  /** The debounced value only ever takes the input of the most recent render:
      after a timer fires, it equals the last render's input or was left as it
      was. */
  lemma FiredValueIsLatest<T>(s: State<T>, events: seq<Event<T>>)
    requires Inv(s) && LastRender(events).Some?
    ensures var s' := Run(s, events);
            FireStep(s').debounced == s'.debounced
            || FireStep(s').debounced == LastRender(events).value.value
  {
    PendingIsLatest(s, events);
    RunInv(s, events);
  }

  /** A burst of enabled renders propagates nothing while it lasts; the expiry
      after the pause stores exactly the last input of the burst. */
  lemma {:induction false} BurstThenPause<T>(s: State<T>, values: seq<T>, opts: Options)
    requires Inv(s) && EnabledOf(opts) && values != []
    ensures var s' := Run(s, Renders(values, opts));
            && s'.debounced == s.debounced
            && Pending(s') == Some(values[|values| - 1])
            && FireStep(s').debounced == values[|values| - 1]
    decreases |values|
  {
    EffectEnabled(s, values[0], opts);
    var s1 := EffectStep(s, values[0], opts);
    if |values| > 1 {
      BurstThenPause(s1, values[1..], opts);
    }
  }

  /** Renders with the given inputs, all with the same options. */
  function Renders<T>(values: seq<T>, opts: Options): (r: seq<Event<T>>)
    ensures |r| == |values|
    ensures forall i :: 0 <= i < |values| ==> r[i] == Render(values[i], opts)
  {
    if values == [] then [] else [Render(values[0], opts)] + Renders(values[1..], opts)
  }

  /** The hook's per-component state, updated in place by its effect and by
      its timer callback. */
  class Debouncer<T(==)> {
    var debounced: T
    var scheduled: seq<Timer<T>>
    var cleanup: Option<nat>
    var nextHandle: nat

    function Model(): State<T>
      reads this
    {
      State(debounced, scheduled, cleanup, nextHandle)
    }

    ghost predicate Valid()
      reads this
    {
      Inv(Model())
    }

    /** `useState(value)` on mount. */
    constructor (value: T)
      ensures Valid() && Model() == Mount(value)
    {
      debounced, scheduled, cleanup, nextHandle := value, [], None, 0;
    }

    /** The effect after a render with input `value`; `changed` tells whether
        it stored a different value, which makes React render again. */
    method Effect(value: T, opts: Options) returns (changed: bool)
      requires Valid()
      modifies this
      ensures Valid() && Model() == EffectStep(old(Model()), value, opts)
      ensures changed <==> debounced != old(debounced)
    {
      if EnabledOf(opts) {
        EffectEnabled(Model(), value, opts);
      } else {
        EffectDisabled(Model(), value, opts);
      }
      var previous := debounced;
      scheduled := Clear(scheduled, cleanup);
      if EnabledOf(opts) {
        scheduled := scheduled + [Timer(nextHandle, value, DelayOf(opts))];
        cleanup := Some(nextHandle);
        nextHandle := nextHandle + 1;
      } else {
        debounced := value;
        cleanup := None;
      }
      changed := debounced != previous;
    }

    /** The cleanup of the latest effect, run on unmount. */
    method Unmount()
      requires Valid()
      modifies this
      ensures Valid() && Model() == UnmountStep(old(Model()))
    {
      UnmountCancels(Model());
      scheduled := Clear(scheduled, cleanup);
    }

    /** The earliest scheduled timer's callback `setDebouncedValue(value)`. */
    method Fire() returns (changed: bool)
      requires Valid()
      modifies this
      ensures Valid() && Model() == FireStep(old(Model()))
      ensures changed <==> debounced != old(debounced)
    {
      FireStoresPending(Model());
      var previous := debounced;
      if scheduled != [] {
        debounced := scheduled[0].value;
        scheduled := scheduled[1..];
      }
      changed := debounced != previous;
    }
  }
}
