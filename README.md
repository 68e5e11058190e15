# Typeahead search input: a Dafny model

This project models the core of a small React client that looks up Pokémon
by name. All of that logic sits in `src/App.tsx`:

- `getErrorMsg` and its `isServerError` guard turn a lookup error into the
  text shown to the user;
- the `useDebounce` hook delays the input text. After every render it
  cancels the timer it scheduled before and schedules a new one, or it
  stores the value at once when debouncing is off;
- the inline `TypeAhead` component holds the typed text (`value`, null after
  a pick), the picked option (`selectedValue`) and the debounced copy of
  `value ?? ""`. Debouncing is on only for texts longer than two UTF-16
  code units (JavaScript's `length`).
  The input shows `value ?? selectedValue`, and the option list is shown
  while `value === debouncedValue`;
- `App` shows "...loading", then the error message, then the detail view,
  in that order of priority.

Modules:

- `Js`: nullable values (`Option`), JavaScript values, truthiness,
  property reads and the UTF-16 `length` of a string.
- `ErrorMessages`: `GetErrorMsg`, `IsServerError`, `ErrMsg`. `JSON.stringify`
  is passed in as the parameter `stringify` and is never interpreted.
- `Debounce`: the hook's state as a datatype (`State`), with pure
  transitions `EffectStep`, `FireStep` and `UnmountStep`. `Run` folds event
  sequences. The class `Debouncer` keeps the same state in fields and
  updates it in place.
- `TypeAheadInput`: the component's state `View` and its transitions on
  typing, picking, a timer firing and a render caused by the parent. The
  class `TypeAhead` keeps the state in fields and holds its `Debouncer`.
- `AppPanel`: `ShowPanel`, the panel priority.

How React is modelled:

- A setter called with the value the state already has does not render.
- After a render, the effects run in declaration order. First comes the
  debounce effect, which runs its previous cleanup first. Then comes the
  `onValueChange` effect, which runs only when the debounced value
  differs from the previous render's.
- A state update made by an effect causes one more render. `RenderSpec`
  proves that this second render stores nothing new, so no third render
  follows.
- The calls to `onValueChange` and `onSelect` are recorded in order, as
  `valueChanges` and `selections`. In App these calls start the match
  lookup and the detail lookup.

The code does not do the following, though a reader may expect it:

- Texts of one or two characters are propagated at once and reach
  `onValueChange`; no lookup is skipped for short queries (`TypeSpec`).
- There is no pagination, no accumulation of result pages and no
  suppression of stale responses.
- The rendering effect has no dependency list. So every render restarts
  the timer, including a render caused only by new options
  (`RerenderSpec`), and the render that follows a timer firing with a new
  value (`FireSpec`).
- Typing after a pick never clears the detail record. The detail view is
  hidden only while the match lookup that typing starts is loading or has
  failed (`ShowPanel`). Otherwise it shows whatever the detail lookup last
  returned.

## Model

| member | source | states |
|---|---|---|
| `ErrorMessages.IsServerErrorShape` | src/App.tsx:44-45 | the guard holds exactly for an object whose `message` is a string, even the empty string; truthy primitives never pass |
| `ErrorMessages.GetErrorMsg` | src/App.tsx:43-59 | always a string, decided in a fixed order: `status` with `error` gives `error.error`; `status` with a string `data.message` gives that message, even when empty; any other `status` error gives its serialisation; without `status`, a non-empty `message` gives it; otherwise "An error occurred" |
| `ErrorMessages.FetchErrorMessageComesFromError` | src/App.tsx:47-54 | for an error with a `status`, the text is its `error`, its server `message` or its serialisation, never the default text |
| `ErrorMessages.EmptyMessagesDiffer` | src/App.tsx:50-51 | an empty server `message` is returned as it is, while an empty serialized `message` gives the default text |
| `ErrorMessages.PrimitiveBodyIsSerialised` | src/App.tsx:50-53 | a string response body is not a server payload, so the error is serialised |
| `ErrorMessages.ErrMsg` | src/App.tsx:77 | null exactly when there is no error; otherwise the result of `getErrorMsg` |
| `Debounce.Clear` | src/App.tsx:32 | `clearTimeout` keeps exactly the timers with another handle, and clearing `undefined` keeps all |
| `Debounce.MountInv` | src/App.tsx:21 | on mount the debounced value is the initial input, the invariant holds and nothing is pending |
| `Debounce.EffectEnabled` | src/App.tsx:23-28 | with debouncing on, a render replaces any pending timer by exactly one new timer with a fresh handle, this render's input and the delay; the debounced value is unchanged |
| `Debounce.EffectDisabled` | src/App.tsx:29-32 | with debouncing off, the debounced value equals the input right after the render and no timer is pending |
| `Debounce.FireStoresPending` | src/App.tsx:26-27 | a timer firing stores its value, or changes nothing if none is pending; afterwards nothing is pending |
| `Debounce.UnmountCancels` | src/App.tsx:32 | the cleanup on unmount leaves nothing pending, so a later expiry stores nothing |
| `Debounce.RunInv` | src/App.tsx:23-33 | cancel-and-reschedule keeps its invariant over any event sequence: at most one timer pending, and it is the one the next cleanup clears |
| `Debounce.AtMostOnePending` | src/App.tsx:23-33 | after any sequence of renders and expiries from mount, at most one propagation is pending |
| `Debounce.PendingIsLatest` | src/App.tsx:23-33 | a pending propagation always carries the input of the most recent render, which had debouncing on |
| `Debounce.FiredValueIsLatest` | src/App.tsx:26-27 | an expiry either changes nothing or stores the input of the most recent render |
| `Debounce.BurstThenPause` | src/App.tsx:23-33 | during a burst of renders with debouncing on, the debounced value does not change; the expiry after the burst stores exactly its last input |
| `Debounce.Debouncer.constructor` | src/App.tsx:21 | the in-place state starts as in `Mount` |
| `Debounce.Debouncer.Effect` | src/App.tsx:23-33 | the in-place effect performs `EffectStep` and reports whether the stored value changed |
| `Debounce.Debouncer.Fire` | src/App.tsx:26-28 | the in-place timer callback performs `FireStep` and reports whether the stored value changed |
| `Debounce.Debouncer.Unmount` | src/App.tsx:32 | the in-place cleanup performs `UnmountStep` |
| `Js.Utf16Length` | src/App.tsx:129 | a string's `length` counts UTF-16 code units: at least its number of characters and at most twice that, and exactly that when every character is in the Basic Multilingual Plane |
| `TypeAheadInput.CommitSpec` | src/App.tsx:127-134 | one render debounces `value ?? ""` with debouncing on exactly when its `length` is more than 2, and calls `onValueChange` exactly when the rendered debounced value is new |
| `TypeAheadInput.RenderSpec` | src/App.tsx:127-134 | a full render restarts the timer of a long text with a fresh handle and the 1000 ms default; it stores a short text at once; it calls `onValueChange` with each new debounced value it shows; the render after it stores nothing new; nothing else changes |
| `TypeAheadInput.MountSpec` | src/App.tsx:125-134 | initially `value`, `selectedValue` and the debounced value are all ""; `onValueChange("")` is called once; the list is shown and nothing is pending |
| `TypeAheadInput.TypeSpec` | src/App.tsx:141-144 | typing sets `value` and keeps `selectedValue`, and the input shows the text; a text of at most 2 UTF-16 code units is propagated at once and shows the list; a new longer text is only scheduled, and the list is hidden until the debounced value equals it |
| `TypeAheadInput.AstralCharacterCountsTwice` | src/App.tsx:127-130 | "a" followed by an emoji has `length` 3 though it is two characters, so typing it only schedules its propagation and calls no `onValueChange` yet |
| `TypeAheadInput.PickSpec` | src/App.tsx:152-156 | picking `o` calls `onSelect(o)`, sets `selectedValue` to `o` and `value` to null; the input shows `o` and the list is hidden; "" is stored at once, with `onValueChange("")` unless "" was already the debounced value |
| `TypeAheadInput.FireSpec` | src/App.tsx:26-27 | an expiry stores the current text, calls `onValueChange` with it when new, and shows the list when a text is typed; a new value causes a render that schedules the same text again |
| `TypeAheadInput.FireIdle` | src/App.tsx:26-27 | an expiry with nothing pending changes nothing |
| `TypeAheadInput.RerenderSpec` | src/App.tsx:23-33 | a render caused by the parent restarts a long text's timer with a fresh handle even when nothing changed, records no `onValueChange` or `onSelect` call and keeps the text, selection and debounced value; with a short text it changes only the options |
| `TypeAheadInput.StepInv` | src/App.tsx:118-165 | every event preserves the component invariant |
| `TypeAheadInput.RunInv` | src/App.tsx:118-165 | the component invariant holds after any event sequence |
| `TypeAheadInput.Reachable` | src/App.tsx:127-146 | from mount, after any events: at most one timer is pending and it carries the current text; the last `onValueChange` call passed the debounced value; no call repeats the one before; the list is hidden while a change is pending |
| `TypeAheadInput.ScenarioPick` | src/App.tsx:125-156 | typing "b", "bu", "bul", an expiry, new options and a pick call `onValueChange` with "", "b", "bu", "bul", "" and `onSelect` with the option, which the input then shows |
| `TypeAheadInput.ScenarioFrom` | src/App.tsx:125-156 | the same events as `ScenarioPick`, from any state with the values of a fresh mount |
| `TypeAheadInput.TypeAhead.constructor` | src/App.tsx:125-134 | the in-place component starts in the `Mount` state |
| `TypeAheadInput.TypeAhead.Commit` | src/App.tsx:127-134 | one in-place render performs `AfterCommit` |
| `TypeAheadInput.TypeAhead.Render` | src/App.tsx:127-134 | an in-place render, including the extra render an effect's update causes, performs `AfterRender` |
| `TypeAheadInput.TypeAhead.Type` | src/App.tsx:142-144 | the in-place `onChange` performs `AfterType` |
| `TypeAheadInput.TypeAhead.Pick` | src/App.tsx:152-156 | the in-place option click performs `AfterPick` |
| `TypeAheadInput.TypeAhead.Fire` | src/App.tsx:26-27 | the in-place expiry performs `AfterFire` |
| `TypeAheadInput.TypeAhead.Rerender` | src/App.tsx:82-88 | the in-place render with new options from the parent performs `AfterRerender` |
| `TypeAheadInput.TypeAhead.Unmount` | src/App.tsx:32 | unmounting clears the pending timer and changes nothing else |
| `AppPanel.ShowPanel` | src/App.tsx:89-104 | loading wins, then the error paragraph with `errMsg` (null without an error object), then the detail view with the entity's name and, when `front_default` is non-empty, its sprite |
| `AppPanel.DetailIgnoresError` | src/App.tsx:89-104 | when neither loading nor in error, the panel does not depend on the error object |

## Left out

- JSX, CSS classes and DOM events: only state, transitions and the derived
  text and list visibility are modelled.
- The lookups (RTK Query hooks, caching, the `preferCacheValue` argument of
  `getPokemonMatches(value, true)`, the network). The calls that start
  them are recorded as `valueChanges` and `selections`. `ShowPanel` takes
  the lookups' flags, error and detail record as parameters.
- Time. A timer's delay is recorded on the timer, and its expiry is an
  explicit event. Timers fire in the order they were scheduled, which never
  matters here because at most one is pending.
- `JSON.stringify` is the parameter `stringify`; its output format is not
  modelled.
- JavaScript numbers are integers in `Js.Value`: NaN and fractions are not
  modelled.
- Strings are sequences of Unicode scalar values. The debounce threshold
  counts UTF-16 code units with `Js.Utf16Length`, as JavaScript's `length`
  does. A JavaScript string holding a lone surrogate cannot be represented.
- React's concurrent rendering, strict-mode double effects, and the extra
  render React may perform before bailing out of an unchanged state update.
- The detail record is reduced to its name and `sprites.front_default`.
  src/features/entities/types.ts declares only types.
- src/TypeAhead.tsx is a stateless view component and is not part of this
  model. src/features/entities/pokemonApi.ts configures the lookup endpoints
  and is not part of this model either.
- `TypeAheadInput.TypeAhead.Pick` requires that the option is shown, since a
  click can only reach a rendered option. The pure `Step` ignores a pick of
  an option that is not shown.
