# saber-emitter in Dafny

A model of the three event emitters of saber-emitter, with proofs about them.

- **The base emitter** (`src/emitter.js`) keeps a registry from event name to an ordered list of listeners.
  - `on` appends a listener.
  - `once` registers a wrapper that removes itself when it fires, and records the wrapper on the callback as `_off`.
  - `off` takes zero, one or two arguments.
  - `emit` walks a snapshot of the list.
  - `listeners` reads a list.
- **The short-circuiting aspect layer** (`src/aop.js`) patches `on`, `off` and `emit`.
  - A name that ends in an aspect suffix is filed in a side table `_aops` from base name to tag to list. The capacity guard counts only the `before` and `after` lists.
  - `emit` runs the `before` aspects, then the main listeners, then the `after` aspects.
  - A `before` or `after` aspect that returns `false` ends its phase and every phase after it.
- **The sequential aspect emitter** (`src/aspect.js`) keeps `foo:before` and `foo:after` as ordinary names of the base registry.
  - `emit('foo')` fires the three lists in turn and never stops early.
  - `emit` of a suffixed name fires that list alone.

Modules:

- `Listeners` (listeners.dfy) holds listener identities and the list operations shared by every emitter.
  - A listener is a caller's callback, or a `once` wrapper with a serial number that makes it a distinct function.
  - An emission is recorded as the trace of callbacks it invokes.
  - Which callbacks return `false` is a parameter (a set of callbacks). A wrapper never returns `false`: it has no `return` statement.
- `BaseEmitter` (emitter.dfy) is the class `Emitter`.
  - Its fields are the registry and the `_off` back-links.
  - Its methods are proved against the functions `AfterOff` and `AfterEmit`.
- `Suffix` (suffix.dfy) is the suffix test shared by `rpseudo` and `regSuffix`.
  - `/(?:\:[before|after]+)$/` is a character class, not a choice between two words.
  - A name is suffixed when the text after its last `:` is a non-empty run of the characters `b e f o r | a t`. So `foo:bar` is suffixed and `foo:baz` is not.
- `Aop` (aop.dfy) is the class `AopEmitter`.
  - It composes a base `Emitter` and holds the `_aops` table and the capacity ceiling.
  - Its `emit` is proved against the reference function `Dispatch`.
  - It keeps two invariants (`Valid`):
    - no suffixed name is a key of the plain registry;
    - with a positive ceiling, no base name exceeds the ceiling.
- `Aspect` (aspect.dfy) is the class `AspectEmitter`, which also composes a base `Emitter`.
  - Its `emit` is proved against the folds `TraceAll` and `StateAll` over the three phase keys.
  - It is then related to a flat reading of the three lists and to the short-circuiting layer.
- `Scenarios` (scenarios.dfy) holds the example runs of `test/aop.spec.js` and `test/aspect.spec.js`, plus runs for the quirks below.
  - Each is stated as its exact trace or outcome.
  - Each holds for every event name without a `:`.

The model does what the code does, including these quirks:

- **The suffix test is wider than the two words.** It accepts any tag made of the class's characters, not only `before` and `after`.
- **`off('foo:before', fn)` removes nothing.** The loop at `src/aop.js:110` runs to `aops.length`, the `length` of the tag map, which is undefined.
- **`off()` keeps the aspects.** With no argument it deletes only the key `"undefined"` from `_aops`, so every aspect survives.
- **A `once` wrapper clears the aspects of its name.** When it fires among the main listeners, it removes itself through the patched `off(name, wrapper)`. That call deletes every aspect of `name`, so the `after` phase of that same emission finds no list.
- **`once` on a suffixed name makes an aspect.** The wrapper goes through the patched `on`, so it lands in an aspect list or is refused by the capacity guard. Once there it never removes itself, because of the `off('foo:before', fn)` quirk.
- **Creating an entry is a change.** `_getAops` creates an empty entry for a base name on lookup, so `on` and `off` of a suffixed name can add an empty entry even when no list changes. `emit` adds one through `aopCall` only for a name that has a plain list: a suffixed name never has one, and `emit` returns before any lookup. This is the `WithEntry` in the contracts.

## Model

| member | source | states |
|---|---|---|
| Listeners.ReturnsFalse | src/aop.js:134 | The `false ===` test: a listener returns `false` exactly when it is a plain callback among those that do. A `once` wrapper (src/emitter.js:66-69) has no `return`, so it never does. |
| Listeners.ListOf | src/emitter.js:149 | `events[e]`, or `[]` when `e` has no list. Its uses are proved through `BaseEmitter.Emitter.Listeners`. |
| Listeners.Resolve | src/emitter.js:110 | `listener._off`, or else `listener`: a callback that `once` wrapped stands for its latest wrapper, anything else for itself. |
| Listeners.IndexOf | src/emitter.js:110 | `indexOf`: -1 exactly when the listener is absent. Otherwise the first position holding it. |
| Listeners.RemoveFirst | src/emitter.js:110-113 | `indexOf` then `splice(index, 1)`. What it removes is stated by `RemoveFirstTakesOne`, `RemoveFirstAfter` and `BaseEmitter.OffListenerRemovesFirst`. |
| Listeners.RemoveFirstTakesOne | src/emitter.js:110-113 | `indexOf` plus `splice` removes exactly one occurrence of a present listener: one shorter, same multiset minus that listener. An absent listener leaves the list unchanged. |
| Listeners.RemoveFirstAfter | src/emitter.js:110-113 | When the prefix before an occurrence does not hold the listener, removal takes out that occurrence and keeps the order of everything else. |
| Listeners.Plains | src/emitter.js:66-67 | What is left of a list once its wrappers have removed themselves: no longer than the list, and only plain listeners. The full contents are stated by `PlainsCounts`. |
| Listeners.PlainsCounts | src/emitter.js:66-67 | Every plain listener of the list stays, as often as it occurred, and no wrapper does. |
| Listeners.SelfRemovalStep | src/emitter.js:66-67 | One listener of an emission: a wrapper's `off(event, on)` turns the live list "plain prefix passed + rest of snapshot" into the same one step further. A plain listener leaves it unchanged. |
| Listeners.PlainsKeepsList | src/emitter.js:131-134 | A list without wrappers is left as it was by an emission. |
| BaseEmitter.AfterOff | src/emitter.js:89-115 | `off` never adds an event name. |
| BaseEmitter.AfterEmit | src/emitter.js:125-138 | The registry after an emission has the same names. Every list other than the emitted one is untouched. |
| BaseEmitter.Emitter.constructor | src/emitter.js:30-36 | A new emitter has an empty registry and no `_off` links. |
| BaseEmitter.Emitter.Listeners | src/emitter.js:147-150 | `listeners(e)` is `e`'s current list, or the empty list for an unknown `e`. |
| BaseEmitter.Emitter.Register | src/emitter.js:47-50 | The list is created if absent and the listener appended. Nothing else changes. |
| BaseEmitter.Emitter.On | src/emitter.js:46-53 | `on(e, f)` puts `f` at the end of `e`'s list, duplicates kept. No other list and no `_off` link changes. |
| BaseEmitter.Emitter.Wrap | src/emitter.js:64-71 | `once` makes a fresh wrapper of `f` and records it as `f._off`. |
| BaseEmitter.Emitter.Once | src/emitter.js:63-76 | `once(e, f)` appends a fresh wrapper to `e`'s list and links `f` to it. |
| BaseEmitter.Emitter.Off | src/emitter.js:89-115 | Each arity of `off` leaves the registry `AfterOff` describes. The `_off` links are untouched. |
| BaseEmitter.Emitter.Emit | src/emitter.js:125-138 | `emit(e)` invokes exactly the listeners of `e` present when it starts, in order, each once. An unknown `e` invokes nothing. Afterwards every wrapper of `e`'s list is gone and every plain listener stays. |
| BaseEmitter.EmitStep | src/emitter.js:131-134 | The loop invariant of `emit` is preserved by one listener, wrapper or plain. The self-removal changes the live list, never the snapshot. |
| BaseEmitter.OffAllEmpties | src/emitter.js:93-96 | `off()` leaves no event registered. |
| BaseEmitter.OffEventDropsList | src/emitter.js:98-107 | `off(e)` removes `e`'s entry and nothing else. On an unknown `e` it changes nothing. |
| BaseEmitter.OffListenerRemovesFirst | src/emitter.js:98-114 | `off(e, f)` on an event with no list changes nothing. Otherwise it removes the first occurrence of `f._off` if set, else of `f`. The rest keeps its order, and other lists are untouched. A missing listener changes nothing. |
| BaseEmitter.EmitDropsWrappers | src/emitter.js:63-76 | After one emission a `once` wrapper is no longer in the list. An emission of a list without wrappers changes nothing. |
| Suffix.IsTagChar | src/aop.js:12 | A character of the pattern's bracket class: one of `b e f o r a t`, or the bar character. The same class is at src/aspect.js:18. |
| Suffix.IsTag | src/aop.js:12 | The `+` of the class: one or more characters of the class. The pattern's tag must be of this form. |
| Suffix.IsSuffixed | src/aop.js:40 | `type.match(rpseudo)`, and `event.match(regSuffix)` at src/aspect.js:40. The text after the last `:` is a tag. Both directions are stated by `SuffixIff`. |
| Suffix.LastColon | src/aop.js:12 | The position of the last `:`, or -1 exactly when there is none. Only the last `:` can start the pattern. |
| Suffix.BaseOf | src/aop.js:42 | The base is a proper prefix of the name, followed in the name by `:`. |
| Suffix.TagOf | src/aop.js:43 | The tag is a non-empty run of the class characters (`b e f o r`, the bar, `a t`) with no `:`. |
| Suffix.SuffixRoundTrip | src/aop.js:40-43 | For a suffixed name, base + `:` + tag is the name. |
| Suffix.SuffixIff | src/aop.js:12 | A name splits into base `b` and tag `t` exactly when it is `b:t` and `t` is a tag of the class. Both directions are proved. |
| Suffix.SuffixComplete | src/aop.js:40-43 | Appending `:` and a tag gives a suffixed name that splits back into the same base and tag. |
| Suffix.NoColonNoSuffix | src/aspect.js:18 | A name without `:` is never suffixed. |
| Suffix.BeforeAfterTags | src/aop.js:10-12 | `foo:before` splits into (`foo`, `before`) and `foo:after` into (`foo`, `after`), for every `foo`. |
| Suffix.OtherTagsMatch | src/aop.js:12 | `foo:bar` matches with base `foo` and tag `bar`. `foo:baz` and `foo:` do not match. |
| Aop.AspectList | src/aop.js:48 | `aopListeners[tag]`, or `[]` when that list is absent, as read by the guard and by `aopCall` (src/aop.js:130). |
| Aop.AspectCount | src/aop.js:48 | The count the guard computes: the sizes of the `before` and `after` lists only. How it moves is stated by `AddAspectCount` and `RemoveAspectCount`. |
| Aop.CapacityExceeded | src/aop.js:46-49 | The guard fires when the ceiling is positive and the count has reached it. A non-positive ceiling disables it. |
| Aop.WithEntry | src/aop.js:22-35 | `_getAops(base)` adds only the key `base` and changes no list. |
| Aop.AddAspect | src/aop.js:56-57 | The push appends `l` to `_aops[base][tag]` and leaves every other (base, tag) list as it was. |
| Aop.RemoveAspect | src/aop.js:104-106 | `delete aops[tag]` empties that list only. |
| Aop.AddAspectCount | src/aop.js:48 | A push raises the guard's count by one exactly when the tag is `before` or `after` and the base is the one counted. |
| Aop.RemoveAspectCount | src/aop.js:105 | Deleting a tag's list never raises the guard's count. |
| Aop.AddAspectWithin | src/aop.js:45-57 | A push the guard lets through keeps every base name within a positive ceiling. Pushing after `_getAops` is the same as pushing directly. |
| Aop.WithinCeilingRemove | src/aop.js:123 | Deleting a base name keeps the table within the ceiling. |
| Aop.FirstHalt | src/aop.js:133-137 | The position of the first aspect that returns `false`, or the length. No aspect before it returns `false`. |
| Aop.Vetoed | src/aop.js:131-137 | What `aopCall` reports: `false` exactly when some listener of the list returns `false`. `RunAspects` is proved against it. |
| Aop.Reached | src/aop.js:131-137 | The listeners `aopCall` invokes: up to and including the first that returns `false`, or the whole list. `RunAspects` is proved against it. |
| Aop.Dispatch | src/aop.js:67-87 | The reference trace of one emission with a main list: the before phase up to its first `false`; unless that vetoed, every main listener and then the after phase up to its first `false`. `AopEmitter.Emit` is proved against it, and `DispatchNoVeto`, `BeforeVetoStops` and `AfterVetoKeepsMains` characterise it. |
| Aop.DispatchNoVeto | src/aop.js:67-87 | With no `false` among the aspects, the trace is every before, then every main, then every after listener. |
| Aop.BeforeVetoStops | src/aop.js:72-74 | A `before` aspect returning `false` ends the emission. The trace is the before list up to and including it: no main listener and no `after` aspect runs. |
| Aop.AfterVetoKeepsMains | src/aop.js:76-83 | An `after` aspect returning `false` cuts only the rest of the after list. The before list and every main listener have run. |
| Aop.FirstHaltAgrees | src/aop.js:133-137 | The first `false` depends only on what the aspects return. |
| Aop.MainResultsIgnored | src/aop.js:76-79 | What main listeners return never changes the trace. |
| Aop.RunAspects | src/aop.js:129-139 | `aopCall`'s loop reports a halt exactly when some aspect returns `false`. It invokes the aspects up to and including the first such one. |
| Aop.AopEmitter.constructor | src/aop.js:22-25 | A new aspect emitter has empty tables and keeps its invariant. |
| Aop.AopEmitter.Listeners | src/emitter.js:147-150 | `listeners(e)` reads the plain list and never an aspect list. |
| Aop.AopEmitter.GetAops | src/aop.js:22-35 | `_getAops(name)` creates the entry for `name` if absent and keeps the invariant. |
| Aop.AopEmitter.Route | src/aop.js:39-64 | An unsuffixed name goes to the base `on`. A suffixed name leaves the plain registry alone. Over the ceiling it fails with the count, after creating the entry; otherwise it appends to `_aops[base][tag]`. |
| Aop.AopEmitter.AddToAspect | src/aop.js:40-59 | The suffixed branch: the guard on the before+after count, then the push. |
| Aop.AopEmitter.On | src/aop.js:38-64 | The patched `on(name, f)` routes by suffix, with the capacity guard for suffixed names only. |
| Aop.AopEmitter.Once | src/emitter.js:63-76 | The base `once` under the patched `on`: `f._off` is set first. Then the wrapper is routed like any listener, so it may become an aspect or be refused. |
| Aop.AopEmitter.Off | src/aop.js:90-126 | For a suffixed name: one argument deletes that tag's list; a listener argument changes no list, though it may create the empty entry for the base name. For an unsuffixed name: `_aops[name]` is deleted, then the base `off` runs. `off()` empties the registry but deletes only `_aops["undefined"]`. |
| Aop.AopEmitter.OffPlain | src/aop.js:122-125 | `delete _aops[type]`, then the base `off`. |
| Aop.AopEmitter.OffAspect | src/aop.js:94-118 | The suffixed branch of `off`, including the loop at line 110 that never runs. |
| Aop.AopEmitter.AopCall | src/aop.js:129-139 | Runs a snapshot of `_aops[name][tag]`. Reports a halt exactly when it was vetoed. Creates the entry for `name`. |
| Aop.AopEmitter.Emit | src/aop.js:67-87 | Without a plain list (including every suffixed name) nothing runs and nothing changes. Otherwise the trace is `Dispatch` of the before, main and after lists, and the after list is empty when a main `once` wrapper cleared the aspects. The ensures also gives the exact new registry and table. |
| Aop.AopEmitter.EmitMains | src/aop.js:76-79 | The main phase invokes the snapshot in order and leaves `AfterEmit`. A wrapper among the mains deletes `_aops[name]`. |
| Aop.AopEmitter.MainStep | src/aop.js:78 | One main listener keeps the loop invariant. A wrapper's patched `off` deletes the aspects and its own first occurrence. |
| Aspect.Phases | src/aspect.js:47-49 | The keys an unsuffixed `emit(name)` fires, in order: `name:before`, `name`, `name:after`. |
| Aspect.TraceAll | src/aspect.js:47-49 | The callbacks invoked by emitting each key in turn, each phase seeing the registry the earlier ones left. `ThreePhaseOrder` reduces it to the three lists as registered. |
| Aspect.StateAll | src/aspect.js:47-49 | The registry after emitting each key in turn. `QuietPhases` shows it unchanged when there are no wrappers. |
| Aspect.AspectEmitter.constructor | src/aspect.js:26-28 | A new sequential emitter has an empty registry. |
| Aspect.AspectEmitter.Emit | src/aspect.js:37-68 | A suffixed name fires only its own list (the intended behaviour, see Findings). An unsuffixed name fires `name:before`, `name` and `name:after` in turn, each phase over a snapshot taken when it starts. |
| Aspect.PhaseSteps | src/aspect.js:47-49 | Three emissions in a row are the fold `TraceAll`/`StateAll` over the three phase keys. |
| Aspect.PhasesDistinct | src/aspect.js:47-49 | The three phase keys are three different names. |
| Aspect.FlatIgnoresOther | src/aspect.js:61-68 | Emitting one list leaves every other list as it stood. |
| Aspect.TraceAllIsFlat | src/aspect.js:44-49 | With different keys, no phase disturbs a later one. The trace is each list as it stood when `emit` began. |
| Aspect.ThreePhaseOrder | src/aspect.js:44-49 | `emit(name)` yields before list, then main list, then after list, each in registration order. An absent list contributes nothing. |
| Aspect.QuietPhases | src/aspect.js:61-68 | Emitting lists without wrappers leaves the registry unchanged. |
| Aspect.NothingHalts | src/aspect.js:61-68 | No return value halts anything: the trace is as long as the three lists together. |
| Aspect.AgreesWithAop | src/aspect.js:44-49 | Without a `false` aspect and without a main wrapper, both aspect policies invoke the same callbacks in the same order. |
| Aspect.EmitAsWritten | src/aspect.js:40-49 | As written, `emit` throws exactly on suffixed names. On every unsuffixed name it runs the before, main and after lists in turn, as `AspectEmitter.Emit` does. |
| Aspect.SuffixedEmitThrowsAsWritten | src/aspect.js:40-42 | With `foo:after` holding one listener, the code as written throws on `emit('foo:after')`. The intended reading runs that listener. |
| Scenarios.AopBeforeExample | test/aop.spec.js:7-40 | Trace B1 B2 ONE TWO B1 B2 ONE TWO; emitting `bar` runs nothing. |
| Scenarios.BeforeVetoExample | src/aop.js:72-74 | A vetoing first `before` aspect: trace B1 only. |
| Scenarios.AfterVetoExample | src/aop.js:76-83 | A main listener returning `false` is ignored. A vetoing first `after` aspect stops A2: trace ONE TWO A1. |
| Scenarios.CapacityExample | src/aop.js:46-54 | Ceiling 2 with two aspects: the third is refused with count 2 and the list is unchanged. A plain `on` succeeds. |
| Scenarios.OtherTagsUncounted | src/aop.js:48 | Lists under the tag `bar` are not counted by the guard. |
| Scenarios.OffTaggedListenerKeeps | src/aop.js:109-116 | `off('foo:before', B1)` leaves B1 running. |
| Scenarios.OffTaggedListDrops | src/aop.js:104-107 | `off('foo:before')` removes the before list. |
| Scenarios.OffEventClearsAspects | src/aop.js:122-125 | `off('foo')` removes the aspects with the listeners. |
| Scenarios.OffAllKeepsAspects | src/aop.js:122-123 | `off()` keeps the before aspect of `foo`. |
| Scenarios.SuffixedEmitRunsNothing | src/aop.js:67-69 | `emit('foo:before')` runs nothing: a suffixed name never has a plain list. |
| Scenarios.NoMainListNoAspects | src/aop.js:67-69 | Without a plain list for the name, aspects do not run. |
| Scenarios.OnceErasesAspects | src/aop.js:76-83 | A main `once` wrapper deletes the aspects mid-emission: trace B1 ONE, then nothing. |
| Scenarios.BaseOnceExample | src/emitter.js:63-76 | A `once` listener runs on the first emission only. |
| Scenarios.OffBeforeFireExample | src/emitter.js:110 | `off(e, f)` before firing removes `f`'s wrapper. |
| Scenarios.OffFirstOccurrenceExample | src/emitter.js:110-113 | Of ONE TWO ONE, `off(e, ONE)` removes the first ONE: trace TWO ONE. |
| Scenarios.AspectBeforeExample | test/aspect.spec.js:6-38 | Trace B1 B2 ONE TWO B1 B2 ONE TWO. |
| Scenarios.AspectAfterExample | test/aspect.spec.js:40-72 | Trace ONE TWO A1 A2 ONE TWO A1 A2. |
| Scenarios.AspectBothExample | test/aspect.spec.js:74-108 | Trace B1 ONE TWO A1 B1 ONE TWO A1. |
| Scenarios.AspectSuffixOnlyExample | test/aspect.spec.js:110-140 | Trace A1 B1: a suffixed name runs its own list only. |

## Left out

- AMD `define`/`require` module loading: it is plumbing, not logic.
- Prototype patching (`src/aop.js` replacing `Emitter.prototype.on`, `off` and `emit`) becomes a class `AopEmitter` that composes a base emitter. The base methods it calls by `oriOn`/`oriOff` are the base emitter's methods.
- `Emitter.mixin` and `_getMaxListeners` are not part of this model. The sequential emitter composes a base emitter, and the ceiling is the constant field `maxListeners`.
- Arguments passed to `emit`, the receiver `this` of a listener, and the `return this` of every operation are not modelled. A trace records which callback ran, not with what.
- Listener code other than the `once` wrapper's self-removal is not modelled: listeners that call `on`, `off` or `emit` again would need higher-order effects. The snapshot is still modelled, since each loop walks a copy while the wrapper changes the live list.
- Exceptions thrown by listeners are not modelled.
- What a listener returns is a parameter (`halting`), fixed for the whole emission.
- The text of the `RangeError` message is not modelled. `Outcome.RangeError` carries the count the message reports.
- The array returned by `listeners()` is a value in the model. In the code it is the live array, which a caller could mutate.
- A `once` wrapper cannot be registered again by a caller. `on` and `once` take callbacks only, so a wrapper stays in the list it was made for.
- `_off` is an instance map from callback to its latest wrapper. In the code it is a property of the function, shared by every emitter the function was registered with.
- Aop.AopEmitter.Route, Aop.AopEmitter.On, Aop.AopEmitter.Off, Aop.AopEmitter.AopCall and Aop.AopEmitter.Emit: an empty base name (as in `:before`) is treated as an ordinary key. In the code `_getAops('')` returns the whole table. So `emit('')` looks up `_aops['before']` through `aopCall`, which can be a base name's entry object, and `.slice` on it throws. The model creates the key `""` instead.
- BaseEmitter.Emitter.On, BaseEmitter.Emitter.Emit, BaseEmitter.Emitter.Listeners, Aop.AopEmitter.Route, Aop.AopEmitter.Emit and Aop.AopEmitter.AopCall: names inherited from `Object.prototype` are not modelled. `_events` and `_aops` are plain objects, so the code treats such names differently. For example, `on('constructor', f)` finds `Object` and fails on `push`, `emit('toString')` fails on `slice`, `listeners('toString')` returns a function, and `_getAops('constructor')` returns `Object`. The model treats every name as an ordinary key.
- Aspect.AspectEmitter.Emit: each phase is the base emitter's `emit` loop, which is the same loop as `emitListeners` over the same list.
- Scenarios: every example holds for every colon-free event name. The callbacks are fixed identities.
- The test files are evidence for the scenarios, not code to model.

## Findings

| source | as written | input that shows it | evidently intended | confidence | as-written member | corrected member |
|---|---|---|---|---|---|---|
| src/aspect.js:40-42 | `emit` of a suffixed name calls `Emitter.prototype.apply(event, arguments)`. The prototype has no `apply`, so this throws a TypeError before any listener runs. | `emit('foo:after')` with one listener on `foo:after`, as at test/aspect.spec.js:118-130 | Fire that name's list alone, as `Emitter.prototype.emit.apply(this, arguments)` would. | not executed | Aspect.SuffixedEmitThrowsAsWritten | Aspect.AspectEmitter.Emit |
