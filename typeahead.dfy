/** The inline `TypeAhead` component of src/App.tsx: its input text, its
    confirmed selection and the debounced copy of the text, driven by the
    events typing, picking an option, a timer firing and a render caused by
    the parent.

    React is modelled as follows. A state setter called with the value the
    state already has does not render again. A render is followed by its
    effects in declaration order: first the debounce effect (which clears
    the timer its previous run scheduled), then the `onValueChange` effect,
    which runs when the debounced value differs from the one of the previous
    render. A state update made by an effect causes one more render. The
    calls of `onValueChange` and `onSelect` are recorded, in order, as the
    component's output. */
module TypeAheadInput {
  import opened Js
  import Debounce

  /** `value ?? ""`, the text that is debounced. */
  function Text(value: Option<string>): string {
    value.OrElse("")
  }

  /** Debouncing is on for a text longer than two UTF-16 code units. */
  predicate Long(text: string) {
    Utf16Length(text) > 2
  }

  /** The options the component passes: `debounce` is `Long(text)`, and the
      delay takes its default. */
  function DebounceOptions(text: string): Debounce.Options {
    Debounce.Options(None, Some(Long(text)))
  }

  /** The component's state, as seen between events. */
  datatype View = View(
    options: seq<string>,       // the `options` prop
    value: Option<string>,      // `value`: the typed text, null after a pick
    selectedValue: string,      // `selectedValue`: the last option picked
    deb: Debounce.State<string>,// the `useDebounce` hook of `value ?? ""`
    rendered: string,           // the debounced value of the latest render
    valueChanges: seq<string>,  // the arguments of the `onValueChange` calls
    selections: seq<string>)    // the arguments of the `onSelect` calls

  /** The input shows `value ?? selectedValue`. */
  function Displayed(v: View): string {
    v.value.OrElse(v.selectedValue)
  }

  /** The option list is rendered while `value` is exactly the debounced text (never after a pick, when `value` is null). */
  predicate ListboxShown(v: View) {
    v.value == Some(v.deb.debounced)
  }

  /** An option can be clicked only while the list shows it. */
  predicate CanPick(v: View, option: string) {
    ListboxShown(v) && option in v.options
  }

  /** No two consecutive `onValueChange` calls pass the same value. */
  ghost predicate NoRepeats(s: seq<string>) {
    forall i :: 0 < i < |s| ==> s[i] != s[i - 1]
  }

  /** What holds at the start of every render. */
  ghost predicate Ready(v: View) {
    && Debounce.Inv(v.deb)
    && v.valueChanges != []
    && v.valueChanges[|v.valueChanges| - 1] == v.rendered
    && NoRepeats(v.valueChanges)
  }

  /** After a render: a long text has at most its own propagation pending
      (with the default delay), and once nothing is pending it is the
      debounced value; a short text is the debounced value at once, with no
      timer and no handle left to clear. */
  ghost predicate Settled(v: View) {
    var text := Text(v.value);
    if Long(text) then
      && (forall t :: t in v.deb.scheduled ==> t.value == text && t.delay == Debounce.DefaultDelay)
      && (v.deb.scheduled == [] ==> v.deb.debounced == text)
    else
      v.deb.scheduled == [] && v.deb.debounced == text && v.deb.cleanup == None
  }

  /** The invariant between events. */
  ghost predicate Inv(v: View) {
    Ready(v) && v.rendered == v.deb.debounced && Settled(v)
  }

  /** `[d]` when the render shows a debounced value `d` that differs from the
      previous render's `prev`, so that the `onValueChange` effect runs. */
  function Notified(prev: string, d: string): seq<string> {
    if d != prev then [d] else []
  }

  /** One render and its effects. */
  function AfterCommit(v: View): View {
    var text := Text(v.value);
    var d := v.deb.debounced;
    v.(deb := Debounce.EffectStep(v.deb, text, DebounceOptions(text)),
       rendered := d,
       valueChanges := v.valueChanges + Notified(v.rendered, d))
  }

  /** A render, and the second render that the debounce effect causes when it
      stores a new value at once. */
  function AfterRender(v: View): View {
    var first := AfterCommit(v);
    if first.deb.debounced == v.deb.debounced then first else AfterCommit(first)
  }

  /** The mounted component: `value` and `selectedValue` start as "", the
      debounced value as "", and the first commit always calls
      `onValueChange("")`. */
  function Mount(options: seq<string>): View {
    AfterCommit(View(options, Some(""), "", Debounce.Mount(""), "", [""], []))
  }

  /** `onChange`: `setValue(text)`. */
  function AfterType(v: View, text: string): View {
    if v.value == Some(text) then v else AfterRender(v.(value := Some(text)))
  }

  /** A click on `option`: `onSelect(option)`, `setSelectedValue(option)`,
      `setValue(null)`, batched into one render. */
  function AfterPick(v: View, option: string): View {
    var w := v.(selections := v.selections + [option], selectedValue := option, value := None);
    if v.selectedValue == option && v.value == None then w else AfterRender(w)
  }

  /** The pending timer fires: `setDebouncedValue(value)`. */
  function AfterFire(v: View): View {
    var w := v.(deb := Debounce.FireStep(v.deb));
    if w.deb.debounced == v.deb.debounced then w else AfterRender(w)
  }

  /** The parent renders again, passing `options`. */
  function AfterRerender(v: View, options: seq<string>): View {
    AfterRender(v.(options := options))
  }

  lemma NotifiedKeepsReady(v: View, d: string)
    requires v.valueChanges != [] && v.valueChanges[|v.valueChanges| - 1] == v.rendered
    requires NoRepeats(v.valueChanges)
    ensures var s := v.valueChanges + Notified(v.rendered, d);
            s != [] && s[|s| - 1] == d && NoRepeats(s)
  {
  }

  /** One commit: the debounce effect as the hook defines it, and a call of
      `onValueChange` exactly when the rendered debounced value is new. */
  lemma CommitSpec(v: View)
    requires Ready(v)
    ensures var c := AfterCommit(v);
            var text := Text(v.value);
            && Ready(c)
            && c.rendered == v.deb.debounced
            && c.valueChanges == v.valueChanges + Notified(v.rendered, v.deb.debounced)
            && c.(deb := v.deb, rendered := v.rendered, valueChanges := v.valueChanges) == v
            && (Long(text) ==>
                  && c.deb.debounced == v.deb.debounced
                  && c.deb.scheduled == [Debounce.Timer(v.deb.nextHandle, text, Debounce.DefaultDelay)]
                  && c.deb.nextHandle == v.deb.nextHandle + 1)
            && (!Long(text) ==>
                  && c.deb.debounced == text && c.deb.scheduled == [] && c.deb.cleanup == None
                  && c.deb.nextHandle == v.deb.nextHandle)
  {
    var text := Text(v.value);
    if Long(text) {
      Debounce.EffectEnabled(v.deb, text, DebounceOptions(text));
    } else {
      Debounce.EffectDisabled(v.deb, text, DebounceOptions(text));
    }
    NotifiedKeepsReady(v, v.deb.debounced);
  }

  /** A full render restarts the timer of a long text (a fresh handle, this
      text, the default delay) without touching the debounced value; it
      stores a short text at once; and it calls `onValueChange` with each
      debounced value it shows that is new. Nothing else changes. */
  lemma RenderSpec(v: View)
    requires Ready(v)
    ensures var r := AfterRender(v);
            var text := Text(v.value);
            && Inv(r)
            && r.(deb := v.deb, rendered := v.rendered, valueChanges := v.valueChanges) == v
            && r.valueChanges == v.valueChanges + Notified(v.rendered, v.deb.debounced)
                                 + Notified(v.deb.debounced, r.deb.debounced)
            && (Long(text) ==>
                  && r.deb.debounced == v.deb.debounced
                  && r.deb.scheduled == [Debounce.Timer(v.deb.nextHandle, text, Debounce.DefaultDelay)])
            && (!Long(text) ==> r.deb.debounced == text && r.deb.scheduled == [])
            // the render that follows stores nothing new, so no third render
            && AfterCommit(r).deb.debounced == r.deb.debounced
  {
    var text := Text(v.value);
    CommitSpec(v);
    var first := AfterCommit(v);
    if first.deb.debounced != v.deb.debounced {
      CommitSpec(first);
    }
    CommitSpec(AfterRender(v));
  }

  lemma MountSpec(options: seq<string>)
    ensures var v := Mount(options);
            && Inv(v)
            && v.value == Some("") && v.selectedValue == "" && v.deb.debounced == ""
            && v.valueChanges == [""] && v.selections == [] && v.options == options
            && Displayed(v) == "" && ListboxShown(v) && v.deb.scheduled == []
  {
    var v0 := View(options, Some(""), "", Debounce.Mount(""), "", [""], []);
    Debounce.MountInv("");
    CommitSpec(v0);
  }

  /** Typing sets `value` and keeps `selectedValue`; the input shows the text.
      A text of at most two UTF-16 code units is propagated at once and shows
      the list; a longer new text only schedules its propagation, and the list is
      hidden until the debounced value equals it. */
  lemma TypeSpec(v: View, text: string)
    requires Inv(v)
    ensures var r := AfterType(v, text);
            && Inv(r)
            && r.value == Some(text) && Displayed(r) == text
            && r.selectedValue == v.selectedValue && r.selections == v.selections
            && r.options == v.options
            && (!Long(text) ==>
                  && r.deb.debounced == text && r.deb.scheduled == [] && ListboxShown(r)
                  && r.valueChanges == v.valueChanges + Notified(v.deb.debounced, text))
            && (Long(text) && v.value != Some(text) ==>
                  && r.deb.debounced == v.deb.debounced
                  && Debounce.Pending(r.deb) == Some(text)
                  && r.valueChanges == v.valueChanges
                  && (ListboxShown(r) <==> v.deb.debounced == text))
  {
    if v.value != Some(text) {
      RenderSpec(v.(value := Some(text)));
    }
  }

  /** JavaScript counts a character outside the Basic Multilingual Plane as
      two code units: "a" followed by an emoji is long enough to be
      debounced, so typing it only schedules its propagation. */
  lemma AstralCharacterCountsTwice(v: View)
    requires Inv(v) && v.value != Some("a\U{1F600}")
    ensures Long("a\U{1F600}") && |"a\U{1F600}"| == 2
    ensures var r := AfterType(v, "a\U{1F600}");
            r.deb.debounced == v.deb.debounced
            && Debounce.Pending(r.deb) == Some("a\U{1F600}")
            && r.valueChanges == v.valueChanges
  {
    assert Utf16Length("a\U{1F600}") == 3 by {
      assert "a\U{1F600}"[1..] == "\U{1F600}";
      assert "\U{1F600}"[1..] == "";
    }
    TypeSpec(v, "a\U{1F600}");
  }

  /** Picking an option reports it through `onSelect`, makes it the displayed
      text, hides the list, and, the text now being "", stores "" at once,
      calling `onValueChange("")` unless "" was already the debounced value. */
  lemma PickSpec(v: View, option: string)
    requires Inv(v) && CanPick(v, option)
    ensures var r := AfterPick(v, option);
            && Inv(r)
            && r.selections == v.selections + [option]
            && r.selectedValue == option && r.value == None
            && Displayed(r) == option && !ListboxShown(r)
            && r.deb.debounced == "" && r.deb.scheduled == []
            && r.valueChanges == v.valueChanges + Notified(v.deb.debounced, "")
            && r.options == v.options
  {
    var w := v.(selections := v.selections + [option], selectedValue := option, value := None);
    RenderSpec(w);
  }

  /** A timer firing stores the current text as the debounced value, calls
      `onValueChange` with it when it is new, and shows the list if a text is
      typed. When the stored value is new, the render it causes schedules
      the same text once more: the effect has no dependency list. */
  lemma FireSpec(v: View)
    requires Inv(v) && v.deb.scheduled != []
    ensures var r := AfterFire(v);
            var text := Text(v.value);
            && Inv(r)
            && r.deb.debounced == text
            && r.valueChanges == v.valueChanges + Notified(v.deb.debounced, text)
            && r.value == v.value && r.selectedValue == v.selectedValue
            && r.selections == v.selections && r.options == v.options
            && (v.value.Some? ==> ListboxShown(r))
            && (text != v.deb.debounced ==> Debounce.Pending(r.deb) == Some(text))
            && (text == v.deb.debounced ==> r.deb.scheduled == [])
  {
    var w := v.(deb := Debounce.FireStep(v.deb));
    Debounce.FireStoresPending(v.deb);
    assert v.deb.scheduled[0] in v.deb.scheduled;
    if w.deb.debounced != v.deb.debounced {
      RenderSpec(w);
    }
  }

  /** A firing with nothing pending changes nothing. */
  lemma FireIdle(v: View)
    requires Inv(v) && v.deb.scheduled == []
    ensures AfterFire(v) == v
  {
  }

  /** A render caused by the parent restarts the propagation of a long text
      even when the text is unchanged; for a short text it changes nothing
      but the options. */
  lemma RerenderSpec(v: View, options: seq<string>)
    requires Inv(v)
    ensures var r := AfterRerender(v, options);
            var text := Text(v.value);
            && Inv(r)
            && r.options == options
            && r.valueChanges == v.valueChanges && r.deb.debounced == v.deb.debounced
            && r.value == v.value && r.selectedValue == v.selectedValue
            && r.selections == v.selections
            && (Long(text) ==>
                  r.deb.scheduled == [Debounce.Timer(v.deb.nextHandle, text, Debounce.DefaultDelay)]
                  && forall t :: t in v.deb.scheduled ==> t.handle != r.deb.scheduled[0].handle)
            && (!Long(text) ==> r == v.(options := options))
  {
    var w := v.(options := options);
    RenderSpec(w);
    var text := Text(v.value);
    if !Long(text) {
      CommitSpec(w);
      assert AfterRender(w).deb == w.deb;
    }
  }

  /** The events the component reacts to. */
  datatype Event = Typed(text: string) | Picked(option: string) | TimerFired
                 | ParentRendered(options: seq<string>)

  /** A click on an option that is not shown cannot happen and changes nothing. */
  function Step(v: View, e: Event): View {
    match e
    case Typed(text) => AfterType(v, text)
    case Picked(option) => if CanPick(v, option) then AfterPick(v, option) else v
    case TimerFired => AfterFire(v)
    case ParentRendered(options) => AfterRerender(v, options)
  }

  function Run(v: View, events: seq<Event>): View
    decreases |events|
  {
    if events == [] then v else Run(Step(v, events[0]), events[1..])
  }

  lemma StepInv(v: View, e: Event)
    requires Inv(v)
    ensures Inv(Step(v, e))
  {
    match e
    case Typed(text) => TypeSpec(v, text);
    case Picked(option) => if CanPick(v, option) { PickSpec(v, option); }
    case TimerFired => if v.deb.scheduled != [] { FireSpec(v); }
    case ParentRendered(options) => RerenderSpec(v, options);
  }

  lemma {:induction false} RunInv(v: View, events: seq<Event>)
    requires Inv(v)
    ensures Inv(Run(v, events))
    decreases |events|
  {
    if events != [] {
      StepInv(v, events[0]);
      RunInv(Step(v, events[0]), events[1..]);
    }
  }

  /** After any sequence of events from mount: at most one propagation is
      pending and it carries the current text; the last `onValueChange` call
      passed the debounced value and no call repeats the previous one; the
      list is hidden while a change of the debounced value is pending. */
  lemma Reachable(options: seq<string>, events: seq<Event>)
    ensures var v := Run(Mount(options), events);
            && |v.deb.scheduled| <= 1
            && (Debounce.Pending(v.deb).Some? ==> Debounce.Pending(v.deb).value == Text(v.value))
            && v.valueChanges != [] && v.valueChanges[|v.valueChanges| - 1] == v.deb.debounced
            && NoRepeats(v.valueChanges)
            && (Debounce.Pending(v.deb).Some? && Debounce.Pending(v.deb).value != v.deb.debounced
                ==> !ListboxShown(v))
  {
    MountSpec(options);
    var v := Run(Mount(options), events);
    RunInv(Mount(options), events);
    if v.deb.scheduled != [] {
      assert v.deb.scheduled[0] in v.deb.scheduled;
    }
  }

  /** Typing "b", "bu", "bul", the timer firing, the parent passing the
      matches, and a click on "bulbasaur": the two short prefixes are passed
      to `onValueChange` at once, "bul" only when its timer fires, and the
      pick passes "" and shows the option in the input. */
  lemma ScenarioLengths()
    ensures !Long("b") && !Long("bu") && Long("bul")
  {
    assert "bul"[1..] == "ul" && "ul"[1..] == "l" && "l"[1..] == "";
  }

  lemma ScenarioPick()
    ensures var v := Run(Mount([]), [Typed("b"), Typed("bu"), Typed("bul"), TimerFired,
                                     ParentRendered(["bulbasaur"]), Picked("bulbasaur")]);
            && v.valueChanges == ["", "b", "bu", "bul", ""]
            && v.selections == ["bulbasaur"]
            && Displayed(v) == "bulbasaur" && !ListboxShown(v)
  {
    MountSpec([]);
    ScenarioFrom(Mount([]));
  }

  /** The same events from any state with the values of a fresh mount. */
  lemma ScenarioFrom(v0: View)
    requires Inv(v0) && v0.value == Some("") && v0.deb.debounced == ""
    requires v0.valueChanges == [""] && v0.selections == []
    ensures var v := Run(v0, [Typed("b"), Typed("bu"), Typed("bul"), TimerFired,
                              ParentRendered(["bulbasaur"]), Picked("bulbasaur")]);
            && v.valueChanges == ["", "b", "bu", "bul", ""]
            && v.selections == ["bulbasaur"]
            && Displayed(v) == "bulbasaur" && !ListboxShown(v)
  {
    ScenarioLengths();
    TypeSpec(v0, "b");
    var v1 := AfterType(v0, "b");
    TypeSpec(v1, "bu");
    var v2 := AfterType(v1, "bu");
    TypeSpec(v2, "bul");
    var v3 := AfterType(v2, "bul");
    FireSpec(v3);
    var v4 := AfterFire(v3);
    RerenderSpec(v4, ["bulbasaur"]);
    var v5 := AfterRerender(v4, ["bulbasaur"]);
    assert CanPick(v5, "bulbasaur");
    PickSpec(v5, "bulbasaur");
    var v6 := AfterPick(v5, "bulbasaur");
    var evs := [Typed("b"), Typed("bu"), Typed("bul"), TimerFired,
                ParentRendered(["bulbasaur"]), Picked("bulbasaur")];
    assert Run(v5, evs[5..]) == v6;
    assert Run(v4, evs[4..]) == v6;
    assert Run(v3, evs[3..]) == v6;
    assert Run(v2, evs[2..]) == v6;
    assert Run(v1, evs[1..]) == v6;
  }

  /** The component's state, updated in place by its event handlers. */
  class TypeAhead {
    var options: seq<string>
    var value: Option<string>
    var selectedValue: string
    const debouncer: Debounce.Debouncer<string>
    var rendered: string
    var valueChanges: seq<string>
    var selections: seq<string>

    function Model(): View
      reads this, debouncer
    {
      View(options, value, selectedValue, debouncer.Model(), rendered, valueChanges, selections)
    }

    ghost predicate Valid()
      reads this, debouncer
    {
      Inv(Model())
    }

    /** Mounting: the initial state and the first commit. */
    constructor (options: seq<string>)
      ensures Valid() && Model() == Mount(options) && fresh(debouncer)
    {
      this.options := options;
      value := Some("");
      selectedValue := "";
      debouncer := new Debounce.Debouncer("");
      rendered := "";
      valueChanges := [""];
      selections := [];
      new;
      Debounce.MountInv("");
      var _ := Commit();
      MountSpec(options);
    }

    /** One render and its effects; `changed` tells whether the debounce
        effect stored a new value, which renders again. */
    method Commit() returns (changed: bool)
      requires Ready(Model())
      modifies this, debouncer
      ensures Ready(Model()) && Model() == AfterCommit(old(Model()))
      ensures changed <==> debouncer.debounced != old(debouncer.debounced)
    {
      CommitSpec(Model());
      var text := value.OrElse("");
      var d := debouncer.debounced;
      changed := debouncer.Effect(text, DebounceOptions(text));
      if d != rendered {
        valueChanges := valueChanges + [d];
      }
      rendered := d;
    }

    method Render()
      requires Ready(Model())
      modifies this, debouncer
      ensures Valid() && Model() == AfterRender(old(Model()))
    {
      RenderSpec(Model());
      var changed := Commit();
      if changed {
        changed := Commit();
        assert !changed;
      }
    }

    /** `onChange` of the input. */
    method Type(text: string)
      requires Valid()
      modifies this, debouncer
      ensures Valid() && Model() == AfterType(old(Model()), text)
    {
      if value != Some(text) {
        value := Some(text);
        Render();
      }
    }

    /** `onClick` of a shown option. */
    method Pick(option: string)
      requires Valid() && CanPick(Model(), option)
      modifies this, debouncer
      ensures Valid() && Model() == AfterPick(old(Model()), option)
    {
      PickSpec(Model(), option);
      var changed := selectedValue != option || value != None;
      selections := selections + [option];
      selectedValue := option;
      value := None;
      if changed {
        Render();
      }
    }

    /** Expiry of the pending timer. */
    method Fire()
      requires Valid()
      modifies this, debouncer
      ensures Valid() && Model() == AfterFire(old(Model()))
    {
      if debouncer.scheduled != [] {
        FireSpec(Model());
      }
      var changed := debouncer.Fire();
      if changed {
        Render();
      }
    }

    /** Unmounting: the debounce effect's cleanup clears the pending timer,
        so no propagation and no `onValueChange` call happens afterwards. */
    method Unmount()
      requires Valid()
      modifies debouncer
      ensures Model() == old(Model()).(deb := Debounce.UnmountStep(old(Model()).deb))
      ensures debouncer.scheduled == []
    {
      Debounce.UnmountCancels(debouncer.Model());
      debouncer.Unmount();
    }

    /** A render caused by the parent with new `options`. */
    method Rerender(options: seq<string>)
      requires Valid()
      modifies this, debouncer
      ensures Valid() && Model() == AfterRerender(old(Model()), options)
    {
      this.options := options;
      Render();
    }
  }
}
