/**
 * The short-circuiting aspect layer of src/aop.js, as a class of its own
 * that composes the base emitter instead of patching its prototype.
 * Names with a suffix (see module Suffix) register into a side table
 * `_aops` from base name to tag to list; `emit` runs the `before` list,
 * the main listeners and the `after` list, and a `before` or `after`
 * listener that returns `false` ends its phase and every phase after it.
 */
module Aop {
  import opened Listeners
  import opened Suffix
  import BaseEmitter

  /** `_aops`: base name to tag to listener list. */
  type AopTable = map<EventName, map<string, seq<Listener>>>

  /** What `on` reports: success, or the `RangeError` of the capacity guard with the count it saw. */
  datatype Outcome = Ok | RangeError(count: nat)

  /** `_aops[base][tag] || []`. */
  function AspectList(aops: AopTable, base: EventName, tag: string): seq<Listener> {
    if base in aops && tag in aops[base] then aops[base][tag] else []
  }

  /** The count the capacity guard computes: only the `before` and `after` lists. */
  function AspectCount(aops: AopTable, base: EventName): nat {
    |AspectList(aops, base, BEFORE)| + |AspectList(aops, base, AFTER)|
  }

  /** Whether `on` with a suffix must fail: a positive ceiling that the count has reached. */
  predicate CapacityExceeded(aops: AopTable, base: EventName, maxListeners: int) {
    maxListeners > 0 && AspectCount(aops, base) >= maxListeners
  }

  /** `_getAops(base)`: the table with an (empty) entry for `base` created if there was none. */
  function WithEntry(aops: AopTable, base: EventName): (r: AopTable)
    ensures r.Keys == aops.Keys + {base}
    ensures forall b, t :: AspectList(r, b, t) == AspectList(aops, b, t)
  {
    if base in aops then aops else aops[base := map[]]
  }

  /** The table after `l` is pushed onto `_aops[base][tag]`. */
  function AddAspect(aops: AopTable, base: EventName, tag: string, l: Listener): (r: AopTable)
    ensures r.Keys == aops.Keys + {base}
    ensures AspectList(r, base, tag) == AspectList(aops, base, tag) + [l]
    ensures forall b, t :: (b, t) != (base, tag) ==> AspectList(r, b, t) == AspectList(aops, b, t)
  {
    var entry := if base in aops then aops[base] else map[];
    aops[base := entry[tag := AspectList(aops, base, tag) + [l]]]
  }

  /** The table after `delete _aops[base][tag]`, the entry for `base` created first. */
  function RemoveAspect(aops: AopTable, base: EventName, tag: string): (r: AopTable)
    ensures r.Keys == aops.Keys + {base}
    ensures AspectList(r, base, tag) == []
    ensures forall b, t :: (b, t) != (base, tag) ==> AspectList(r, b, t) == AspectList(aops, b, t)
  {
    var entry := if base in aops then aops[base] else map[];
    aops[base := entry - {tag}]
  }

  /** Pushing onto a list adds one to the guard's count exactly when the list is `before` or `after`. */
  lemma AddAspectCount(aops: AopTable, base: EventName, tag: string, l: Listener, b: EventName)
    ensures AspectCount(AddAspect(aops, base, tag, l), b)
         == AspectCount(aops, b) + (if b == base && (tag == BEFORE || tag == AFTER) then 1 else 0)
  {
    var r := AddAspect(aops, base, tag, l);
    assert AspectList(r, b, BEFORE) == AspectList(aops, b, BEFORE) + (if (b, BEFORE) == (base, tag) then [l] else []);
    assert AspectList(r, b, AFTER) == AspectList(aops, b, AFTER) + (if (b, AFTER) == (base, tag) then [l] else []);
  }

  /** Deleting a list never raises the guard's count. */
  lemma RemoveAspectCount(aops: AopTable, base: EventName, tag: string, b: EventName)
    ensures AspectCount(RemoveAspect(aops, base, tag), b) <= AspectCount(aops, b)
  {
  }

  /** No name of the plain registry carries a suffix. */
  predicate NoSuffixedKeys(events: map<EventName, seq<Listener>>) {
    forall k {:trigger IsSuffixed(k)} :: k in events ==> !IsSuffixed(k)
  }

  /** With a positive ceiling, no base name holds more `before` and `after` listeners than the ceiling. */
  predicate WithinCeiling(aops: AopTable, maxListeners: int) {
    maxListeners > 0 ==> forall b :: b in aops ==> AspectCount(aops, b) <= maxListeners
  }

  /** Deleting a key a second time changes nothing. */
  lemma RemoveKeyTwice(aops: AopTable, k: EventName)
    ensures aops - {k} - {k} == aops - {k}
  {
  }

  /**
   * A push the guard lets through keeps every base name within the ceiling,
   * and pushing after `_getAops` is the same as pushing straight away.
   */
  lemma AddAspectWithin(aops: AopTable, base: EventName, tag: string, l: Listener, maxListeners: int)
    requires WithinCeiling(aops, maxListeners) && !CapacityExceeded(aops, base, maxListeners)
    ensures WithinCeiling(AddAspect(aops, base, tag, l), maxListeners)
    ensures AddAspect(WithEntry(aops, base), base, tag, l) == AddAspect(aops, base, tag, l)
  {
    var r := AddAspect(aops, base, tag, l);
    forall b | b in r
      ensures maxListeners > 0 ==> AspectCount(r, b) <= maxListeners
    {
      AddAspectCount(aops, base, tag, l, b);
    }
  }

  /** A registry with the same names as one without suffixed names has none either. */
  lemma SameKeysNoSuffix(events: map<EventName, seq<Listener>>, events': map<EventName, seq<Listener>>)
    requires NoSuffixedKeys(events) && events'.Keys == events.Keys
    ensures NoSuffixedKeys(events')
  {
  }

  /** A registry whose names are among those of one without suffixed names has none either. */
  lemma FewerKeysNoSuffix(events: map<EventName, seq<Listener>>, events': map<EventName, seq<Listener>>)
    requires NoSuffixedKeys(events) && events'.Keys <= events.Keys
    ensures NoSuffixedKeys(events')
  {
  }

  /** Deleting a base name keeps the table within the ceiling. */
  lemma WithinCeilingRemove(aops: AopTable, k: EventName, maxListeners: int)
    requires WithinCeiling(aops, maxListeners)
    ensures WithinCeiling(aops - {k}, maxListeners)
  {
    forall b | b in aops - {k}
      ensures AspectCount(aops - {k}, b) == AspectCount(aops, b)
    {
    }
  }

  /** The position of the first listener of `s` that returns `false`, or `|s|` when none does. */
  function FirstHalt(s: seq<Listener>, halting: set<FnId>): (k: nat)
    ensures k <= |s|
    ensures forall j :: 0 <= j < k ==> !ReturnsFalse(s[j], halting)
    ensures k < |s| ==> ReturnsFalse(s[k], halting)
  {
    if s == [] then 0
    else if ReturnsFalse(s[0], halting) then 0
    else 1 + FirstHalt(s[1..], halting)
  }

  /** Whether some listener of `s` returns `false`, so that `aopCall` reports a halt. */
  predicate Vetoed(s: seq<Listener>, halting: set<FnId>) {
    FirstHalt(s, halting) < |s|
  }

  /** The listeners `aopCall` invokes: up to and including the first that returns `false`. */
  function Reached(s: seq<Listener>, halting: set<FnId>): seq<Listener> {
    if Vetoed(s, halting) then s[..FirstHalt(s, halting) + 1] else s
  }

  /**
   * The trace of one `emit` that finds a main list: the `before` phase; if
   * it was not vetoed, every main listener, whatever it returns; then the
   * `after` phase up to its first `false`.
   */
  function Dispatch(befores: seq<Listener>, mains: seq<Listener>, afters: seq<Listener>, halting: set<FnId>): seq<FnId> {
    if Vetoed(befores, halting) then TraceOf(Reached(befores, halting))
    else TraceOf(befores) + TraceOf(mains) + TraceOf(Reached(afters, halting))
  }

  // Properties of the short-circuiting dispatch.

  /** With no `false` among the aspects, every before, then every main, then every after listener runs. */
  lemma DispatchNoVeto(befores: seq<Listener>, mains: seq<Listener>, afters: seq<Listener>, halting: set<FnId>)
    requires forall i :: 0 <= i < |befores| ==> !ReturnsFalse(befores[i], halting)
    requires forall i :: 0 <= i < |afters| ==> !ReturnsFalse(afters[i], halting)
    ensures Dispatch(befores, mains, afters, halting) == TraceOf(befores) + TraceOf(mains) + TraceOf(afters)
  {
  }

  /**
   * A `before` listener at `k` that returns `false`, with none before it
   * doing so, ends the emission: the trace is the `before` list up to and
   * including `k`, and no main or `after` listener runs.
   */
  lemma BeforeVetoStops(befores: seq<Listener>, mains: seq<Listener>, afters: seq<Listener>, halting: set<FnId>, k: nat)
    requires k < |befores| && ReturnsFalse(befores[k], halting)
    requires forall j :: 0 <= j < k ==> !ReturnsFalse(befores[j], halting)
    ensures Dispatch(befores, mains, afters, halting) == TraceOf(befores[..k + 1])
  {
    assert FirstHalt(befores, halting) == k;
  }

  /**
   * An `after` listener at `k` that returns `false` cuts only the rest of
   * the `after` list: the `before` list and every main listener have run.
   */
  lemma AfterVetoKeepsMains(befores: seq<Listener>, mains: seq<Listener>, afters: seq<Listener>, halting: set<FnId>, k: nat)
    requires forall i :: 0 <= i < |befores| ==> !ReturnsFalse(befores[i], halting)
    requires k < |afters| && ReturnsFalse(afters[k], halting)
    requires forall j :: 0 <= j < k ==> !ReturnsFalse(afters[j], halting)
    ensures Dispatch(befores, mains, afters, halting) == TraceOf(befores) + TraceOf(mains) + TraceOf(afters[..k + 1])
  {
    assert FirstHalt(afters, halting) == k;
  }

  /** Where the aspects each return the same under two choices of halting callbacks, so does the position of the first `false`. */
  lemma {:induction false} FirstHaltAgrees(s: seq<Listener>, h1: set<FnId>, h2: set<FnId>)
    requires forall i :: 0 <= i < |s| ==> (ReturnsFalse(s[i], h1) <==> ReturnsFalse(s[i], h2))
    ensures FirstHalt(s, h1) == FirstHalt(s, h2)
  {
    if s != [] && !ReturnsFalse(s[0], h1) {
      FirstHaltAgrees(s[1..], h1, h2);
    }
  }

  /**
   * What the main listeners return never matters: two choices of halting
   * callbacks that agree on every aspect give the same trace, whatever
   * they say about the main listeners.
   */
  lemma MainResultsIgnored(befores: seq<Listener>, mains: seq<Listener>, afters: seq<Listener>, h1: set<FnId>, h2: set<FnId>)
    requires forall i :: 0 <= i < |befores| ==> (ReturnsFalse(befores[i], h1) <==> ReturnsFalse(befores[i], h2))
    requires forall i :: 0 <= i < |afters| ==> (ReturnsFalse(afters[i], h1) <==> ReturnsFalse(afters[i], h2))
    ensures Dispatch(befores, mains, afters, h1) == Dispatch(befores, mains, afters, h2)
  {
    FirstHaltAgrees(befores, h1, h2);
    FirstHaltAgrees(afters, h1, h2);
  }

  /**
   * The loop of `aopCall` over a snapshot: invoke each listener in turn and
   * stop at the first that returns `false`. A `once` wrapper among them calls
   * `off(name:tag, wrapper)`, which changes nothing (see AopEmitter.Off).
   */
  method RunAspects(s: seq<Listener>, halting: set<FnId>) returns (trace: seq<FnId>, halted: bool)
    ensures halted <==> exists i :: 0 <= i < |s| && ReturnsFalse(s[i], halting)
    ensures trace == TraceOf(Reached(s, halting))
  {
    trace := [];
    var i := 0;
    while i < |s|
      invariant 0 <= i <= |s|
      invariant trace == TraceOf(s[..i])
      invariant forall j :: 0 <= j < i ==> !ReturnsFalse(s[j], halting)
    {
      TraceOfSnoc(s, i);
      trace := trace + [s[i].fn];
      if ReturnsFalse(s[i], halting) {
        assert FirstHalt(s, halting) == i;
        return trace, true;
      }
      i := i + 1;
    }
    assert FirstHalt(s, halting) == |s|;
    assert s[..i] == s;
    halted := false;
  }

  class AopEmitter {
    /** The plain registry and the `_off` links, shared with the base emitter's operations. */
    const base: BaseEmitter.Emitter
    /** `_aops`. */
    var aops: AopTable
    /** The ceiling `_getMaxListeners()` supplies; zero or less disables the guard. */
    const maxListeners: int

    /**
     * No suffixed name is a key of the plain registry, since `on` sends
     * those to the side table; and with a positive ceiling no base name
     * holds more `before` and `after` listeners than the ceiling.
     */
    ghost predicate Valid()
      reads this, base
    {
      NoSuffixedKeys(base.events) && WithinCeiling(aops, maxListeners)
    }

    constructor (maxListeners: int)
      ensures Valid() && fresh(base)
      ensures base.events == map[] && base.offLinks == map[] && base.nextSerial == 0 && aops == map[]
      ensures this.maxListeners == maxListeners
    {
      base := new BaseEmitter.Emitter();
      aops := map[];
      this.maxListeners := maxListeners;
    }

    /** `listeners(e)`, inherited: the plain list of `e`, never an aspect list. */
    function Listeners(e: EventName): (r: seq<Listener>)
      reads base
      ensures r == ListOf(base.events, e)
    {
      base.Listeners(e)
    }

    /** `_getAops(name)`. */
    method GetAops(name: EventName)
      requires Valid()
      modifies this
      ensures Valid()
      ensures aops == WithEntry(old(aops), name)
    {
      if name !in aops {
        aops := aops[name := map[]];
      }
    }

    /**
     * The patched `on` for any listener `l`: a suffixed name goes to the
     * side table behind the capacity guard, any other name to the base `on`.
     */
    method Route(name: EventName, l: Listener) returns (r: Outcome)
      requires Valid()
      modifies this, base
      ensures Valid()
      ensures base.offLinks == old(base.offLinks) && base.nextSerial == old(base.nextSerial)
      ensures !IsSuffixed(name) ==>
        && r == Ok && aops == old(aops)
        && base.events == old(base.events)[name := ListOf(old(base.events), name) + [l]]
      ensures IsSuffixed(name) ==>
        && base.events == old(base.events)
        && (CapacityExceeded(old(aops), BaseOf(name), maxListeners) ==>
              r == RangeError(AspectCount(old(aops), BaseOf(name))) && aops == WithEntry(old(aops), BaseOf(name)))
        && (!CapacityExceeded(old(aops), BaseOf(name), maxListeners) ==>
              r == Ok && aops == AddAspect(old(aops), BaseOf(name), TagOf(name), l))
    {
      if IsSuffixed(name) {
        r := AddToAspect(name, l);
      } else {
        base.Register(name, l);
        r := Ok;
      }
    }

    /** The suffixed branch of `on`: the capacity guard, then the push onto `_aops[base][tag]`. */
    method AddToAspect(name: EventName, l: Listener) returns (r: Outcome)
      requires Valid() && IsSuffixed(name)
      modifies this
      ensures Valid()
      ensures CapacityExceeded(old(aops), BaseOf(name), maxListeners) ==>
        r == RangeError(AspectCount(old(aops), BaseOf(name))) && aops == WithEntry(old(aops), BaseOf(name))
      ensures !CapacityExceeded(old(aops), BaseOf(name), maxListeners) ==>
        r == Ok && aops == AddAspect(old(aops), BaseOf(name), TagOf(name), l)
    {
      var b, tag := BaseOf(name), TagOf(name);
      GetAops(b);
      var count := AspectCount(aops, b);
      if maxListeners > 0 && count >= maxListeners {
        return RangeError(count);
      }
      AddAspectWithin(old(aops), b, tag, l, maxListeners);
      aops := AddAspect(aops, b, tag, l);
      r := Ok;
    }

    /** `on(name, f)`. */
    method On(name: EventName, f: FnId) returns (r: Outcome)
      requires Valid()
      modifies this, base
      ensures Valid()
      ensures base.offLinks == old(base.offLinks) && base.nextSerial == old(base.nextSerial)
      ensures !IsSuffixed(name) ==>
        && r == Ok && aops == old(aops)
        && base.events == old(base.events)[name := ListOf(old(base.events), name) + [Plain(f)]]
      ensures IsSuffixed(name) ==>
        && base.events == old(base.events)
        && (CapacityExceeded(old(aops), BaseOf(name), maxListeners) ==>
              r == RangeError(AspectCount(old(aops), BaseOf(name))) && aops == WithEntry(old(aops), BaseOf(name)))
        && (!CapacityExceeded(old(aops), BaseOf(name), maxListeners) ==>
              r == Ok && aops == AddAspect(old(aops), BaseOf(name), TagOf(name), Plain(f)))
    {
      r := Route(name, Plain(f));
    }

    /**
     * The base `once` running against the patched methods: `f._off` is set
     * first, then the wrapper goes through the patched `on`, so it may land
     * in an aspect list or be refused by the capacity guard.
     */
    method Once(name: EventName, f: FnId) returns (r: Outcome)
      requires Valid()
      modifies this, base
      ensures Valid()
      ensures var w := Listener.Once(old(base.nextSerial), f);
        && base.offLinks == old(base.offLinks)[f := w]
        && (!IsSuffixed(name) ==>
              && r == Ok && aops == old(aops)
              && base.events == old(base.events)[name := ListOf(old(base.events), name) + [w]])
        && (IsSuffixed(name) ==>
              && base.events == old(base.events)
              && (CapacityExceeded(old(aops), BaseOf(name), maxListeners) ==>
                    r == RangeError(AspectCount(old(aops), BaseOf(name))) && aops == WithEntry(old(aops), BaseOf(name)))
              && (!CapacityExceeded(old(aops), BaseOf(name), maxListeners) ==>
                    r == Ok && aops == AddAspect(old(aops), BaseOf(name), TagOf(name), w)))
    {
      var w := base.Wrap(f);
      r := Route(name, w);
    }

    /**
     * The patched `off`. With a suffix: the entry for the base name is
     * created, then one argument deletes that tag's list, and a listener
     * argument changes nothing, because the removal loop runs over the tag
     * map's `length`, which is undefined. Otherwise: `delete _aops[name]` —
     * with no argument at all the key is the string "undefined" — and then
     * the base `off` with the same arguments.
     */
    method Off(call: OffCall)
      requires Valid()
      modifies this, base
      ensures Valid()
      ensures base.offLinks == old(base.offLinks) && base.nextSerial == old(base.nextSerial)
      ensures call.NoArgs? ==> aops == old(aops) - {"undefined"} && base.events == map[]
      ensures !call.NoArgs? && IsSuffixed(call.event) ==>
        && base.events == old(base.events)
        && (call.OneArg? ==> aops == RemoveAspect(old(aops), BaseOf(call.event), TagOf(call.event)))
        && (call.TwoArgs? ==> aops == WithEntry(old(aops), BaseOf(call.event)))
      ensures !call.NoArgs? && !IsSuffixed(call.event) ==>
        && aops == old(aops) - {call.event}
        && base.events == BaseEmitter.AfterOff(old(base.events), old(base.offLinks), call)
    {
      if !call.NoArgs? && IsSuffixed(call.event) {
        OffAspect(call.event, call.OneArg?);
        return;
      }
      OffPlain(call);
      FewerKeysNoSuffix(old(base.events), base.events);
      WithinCeilingRemove(old(aops), if call.NoArgs? then "undefined" else call.event, maxListeners);
    }

    /** The unsuffixed branch of `off`: `delete _aops[name]`, then the base `off`. */
    method OffPlain(call: OffCall)
      modifies this, base
      ensures base.offLinks == old(base.offLinks) && base.nextSerial == old(base.nextSerial)
      ensures aops == old(aops) - {if call.NoArgs? then "undefined" else call.event}
      ensures base.events == BaseEmitter.AfterOff(old(base.events), old(base.offLinks), call)
    {
      var key := if call.NoArgs? then "undefined" else call.event;
      aops := aops - {key};
      base.Off(call);
    }

    /**
     * The suffixed branch of `off`: create the entry for the base name; with
     * one argument delete the tag's list, with a listener change nothing.
     */
    method OffAspect(name: EventName, oneArg: bool)
      requires Valid() && IsSuffixed(name)
      modifies this
      ensures Valid()
      ensures oneArg ==> aops == RemoveAspect(old(aops), BaseOf(name), TagOf(name))
      ensures !oneArg ==> aops == WithEntry(old(aops), BaseOf(name))
    {
      var b, tag := BaseOf(name), TagOf(name);
      GetAops(b);
      if oneArg {
        ghost var entered := aops;
        aops := RemoveAspect(aops, b, tag);
        forall k | k in aops
          ensures maxListeners > 0 ==> AspectCount(aops, k) <= maxListeners
        {
          RemoveAspectCount(entered, b, tag, k);
        }
      }
    }

    /** `aopCall(tag, name)`: look up `_aops[name][tag]` (creating the entry) and run a snapshot of it. */
    method AopCall(tag: string, name: EventName, halting: set<FnId>) returns (trace: seq<FnId>, halted: bool)
      requires Valid()
      modifies this
      ensures Valid()
      ensures aops == WithEntry(old(aops), name)
      ensures halted == Vetoed(AspectList(old(aops), name, tag), halting)
      ensures trace == TraceOf(Reached(AspectList(old(aops), name, tag), halting))
    {
      GetAops(name);
      var entry := aops[name];
      var list := if tag in entry then entry[tag] else [];
      assert list == AspectList(old(aops), name, tag);
      trace, halted := RunAspects(list, halting);
    }

    /**
     * The patched `emit`. A name without a plain list (a suffixed name never
     * has one) invokes nothing. Otherwise the `before` phase runs; unless it
     * was vetoed, every main listener of a snapshot runs, and then the
     * `after` phase. A `once` wrapper among the main listeners removes itself
     * through the patched `off(name, wrapper)`, which also deletes every
     * aspect of `name`: the `after` phase of that same emission then finds
     * no list.
     */
    method Emit(name: EventName, halting: set<FnId>) returns (trace: seq<FnId>)
      requires Valid()
      modifies this, base
      ensures Valid()
      ensures base.offLinks == old(base.offLinks) && base.nextSerial == old(base.nextSerial)
      ensures IsSuffixed(name) ==> trace == []
      ensures name !in old(base.events) ==>
        trace == [] && aops == old(aops) && base.events == old(base.events)
      ensures name in old(base.events) ==>
        var befores := AspectList(old(aops), name, BEFORE);
        var mains := old(base.events)[name];
        var afters := if HasOnce(mains) then [] else AspectList(old(aops), name, AFTER);
        && trace == Dispatch(befores, mains, afters, halting)
        && (Vetoed(befores, halting) ==>
              base.events == old(base.events) && aops == WithEntry(old(aops), name))
        && (!Vetoed(befores, halting) ==>
              && base.events == BaseEmitter.AfterEmit(old(base.events), name)
              && aops == (if HasOnce(mains) then old(aops)[name := map[]] else WithEntry(old(aops), name)))
    {
      if name !in base.events {
        return [];
      }
      var befores := AspectList(aops, name, BEFORE);
      var halted;
      trace, halted := AopCall(BEFORE, name, halting);
      if halted {
        return;
      }
      var mains := EmitMains(name);
      var after, _ := AopCall(AFTER, name, halting);
      trace := trace + mains + after;
    }

    /**
     * The main phase of the patched `emit`: every listener of a snapshot of
     * `name`'s plain list, in order. A wrapper met on the way calls the
     * patched `off(name, wrapper)`, which deletes `_aops[name]` before the
     * base `off` removes the wrapper.
     */
    method EmitMains(name: EventName) returns (trace: seq<FnId>)
      requires Valid() && name in base.events
      modifies this, base
      ensures Valid()
      ensures base.offLinks == old(base.offLinks) && base.nextSerial == old(base.nextSerial)
      ensures trace == TraceOf(old(base.events)[name])
      ensures base.events == BaseEmitter.AfterEmit(old(base.events), name)
      ensures aops == if HasOnce(old(base.events)[name]) then old(aops) - {name} else old(aops)
    {
      trace := [];
      var snapshot := base.events[name];
      assert Plains(snapshot[..0]) + snapshot[0..] == snapshot;
      assert base.events == old(base.events)[name := snapshot];
      var i := 0;
      while i < |snapshot|
        invariant 0 <= i <= |snapshot|
        invariant trace == TraceOf(snapshot[..i])
        invariant base.events == old(base.events)[name := Plains(snapshot[..i]) + snapshot[i..]]
        invariant aops == if HasOnce(snapshot[..i]) then old(aops) - {name} else old(aops)
        invariant base.offLinks == old(base.offLinks) && base.nextSerial == old(base.nextSerial)
      {
        TraceOfSnoc(snapshot, i);
        trace := trace + [snapshot[i].fn];
        MainStep(old(base.events), old(aops), name, snapshot, i);
        i := i + 1;
      }
      assert snapshot[..i] == snapshot && snapshot[i..] == [];
      assert Plains(snapshot[..i]) + snapshot[i..] == Plains(snapshot);
      SameKeysNoSuffix(old(base.events), base.events);
      WithinCeilingRemove(old(aops), name, maxListeners);
    }

    /**
     * One listener of the main phase: a wrapper calls the patched
     * `off(name, wrapper)`, deleting `_aops[name]` and its own first
     * occurrence in the live list; a plain listener changes nothing.
     */
    method MainStep(ghost events0: map<EventName, seq<Listener>>, ghost aops0: AopTable, name: EventName, snapshot: seq<Listener>, i: nat)
      requires i < |snapshot|
      requires base.events == events0[name := Plains(snapshot[..i]) + snapshot[i..]]
      requires aops == if HasOnce(snapshot[..i]) then aops0 - {name} else aops0
      modifies this, base
      ensures base.events == events0[name := Plains(snapshot[..i + 1]) + snapshot[i + 1..]]
      ensures aops == if HasOnce(snapshot[..i + 1]) then aops0 - {name} else aops0
      ensures base.offLinks == old(base.offLinks) && base.nextSerial == old(base.nextSerial)
    {
      HasOnceSnoc(snapshot, i);
      BaseEmitter.EmitStep(events0, base.offLinks, name, snapshot, i);
      if snapshot[i].Once? {
        RemoveKeyTwice(aops0, name);
        OffPlain(TwoArgs(name, snapshot[i]));
      }
    }
  }
}
