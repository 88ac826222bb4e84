/**
 * The sequential aspect emitter of src/aspect.js. Its `on`, `once`, `off`
 * and `listeners` are the base emitter's, copied in by `Emitter.mixin`, so
 * `foo:before` and `foo:after` lists live in the plain registry under those
 * literal names. Only `emit` differs: an unsuffixed name fires three phases
 * in turn, `name:before`, `name` and `name:after`, each over a snapshot of
 * its list taken when that phase starts, and no return value stops anything.
 */
module Aspect {
  import opened Listeners
  import opened Suffix
  import BaseEmitter
  import Aop

  /** The registry keys `emit(name)` fires for an unsuffixed name, in order: `name + ':before'`, `name`, `name + ':after'`. */
  function Phases(name: EventName): seq<EventName> {
    [name + ":" + BEFORE, name, name + ":" + AFTER]
  }

  /** The callbacks invoked by emitting each key of `keys` in turn, every phase seeing what the earlier ones left. */
  function TraceAll(events: map<EventName, seq<Listener>>, keys: seq<EventName>): seq<FnId>
    decreases |keys|
  {
    if keys == [] then []
    else TraceOf(ListOf(events, keys[0])) + TraceAll(BaseEmitter.AfterEmit(events, keys[0]), keys[1..])
  }

  /** The registry after emitting each key of `keys` in turn. */
  function StateAll(events: map<EventName, seq<Listener>>, keys: seq<EventName>): map<EventName, seq<Listener>>
    decreases |keys|
  {
    if keys == [] then events
    else StateAll(BaseEmitter.AfterEmit(events, keys[0]), keys[1..])
  }

  /** The lists of `keys` as they stand in `events`, traced one after another. */
  function Flat(events: map<EventName, seq<Listener>>, keys: seq<EventName>): seq<FnId>
    decreases |keys|
  {
    if keys == [] then [] else TraceOf(ListOf(events, keys[0])) + Flat(events, keys[1..])
  }

  /** No name occurs twice in `keys`. */
  predicate Distinct(keys: seq<EventName>) {
    forall i, j :: 0 <= i < j < |keys| ==> keys[i] != keys[j]
  }

  class AspectEmitter {
    /** The registry and `_off` links the mixed-in base methods work on. */
    const base: BaseEmitter.Emitter

    constructor ()
      ensures fresh(base) && base.events == map[] && base.offLinks == map[] && base.nextSerial == 0
    {
      base := new BaseEmitter.Emitter();
    }

    /**
     * `emit(name)`. A suffixed name fires its own list only. Otherwise each
     * phase is `emitListeners(events[key])`, the loop of the base `emit`: a
     * snapshot, every listener in order, each `once` wrapper taking itself
     * out of the live list through the base `off`.
     */
    method Emit(name: EventName) returns (trace: seq<FnId>)
      modifies base
      ensures IsSuffixed(name) ==>
        trace == TraceOf(ListOf(old(base.events), name)) && base.events == BaseEmitter.AfterEmit(old(base.events), name)
      ensures !IsSuffixed(name) ==>
        trace == TraceAll(old(base.events), Phases(name)) && base.events == StateAll(old(base.events), Phases(name))
      ensures base.offLinks == old(base.offLinks) && base.nextSerial == old(base.nextSerial)
    {
      if IsSuffixed(name) {
        trace := base.Emit(name);
        return;
      }
      var befores := base.Emit(name + ":" + BEFORE);
      ghost var e1 := base.events;
      var mains := base.Emit(name);
      ghost var e2 := base.events;
      var afters := base.Emit(name + ":" + AFTER);
      PhaseSteps(old(base.events), e1, e2, base.events, name, befores, mains, afters);
      trace := befores + mains + afters;
    }
  }

  /** How a call ended: with an exception before any listener ran, or normally with a trace. */
  datatype Attempt = Threw | Ran(trace: seq<FnId>)

  /**
   * `emit(name)` as src/aspect.js:40-42 is written: for a suffixed name it
   * calls `Emitter.prototype.apply`, a property the prototype object does
   * not have, so the call throws a TypeError before any listener runs.
   */
  function EmitAsWritten(events: map<EventName, seq<Listener>>, name: EventName): (r: Attempt)
    ensures IsSuffixed(name) <==> r.Threw?
    ensures r.Ran? ==>
              r.trace == TraceOf(ListOf(events, name + ":" + BEFORE)) + TraceOf(ListOf(events, name)) + TraceOf(ListOf(events, name + ":" + AFTER))
  {
    if IsSuffixed(name) then Threw
    else
      ThreePhaseOrder(events, name);
      Ran(TraceAll(events, Phases(name)))
  }

  /**
   * The discrepancy: with `foo:after` holding one listener, as in the last
   * example of test/aspect.spec.js, the code as written throws on
   * `emit('foo:after')`, where the example expects that listener to run.
   * This holds for every base name `foo`.
   */
  lemma SuffixedEmitThrowsAsWritten(foo: EventName, f: FnId)
    ensures var events := map[foo + ":" + AFTER := [Plain(f)]];
      EmitAsWritten(events, foo + ":" + AFTER) == Threw && TraceOf(ListOf(events, foo + ":" + AFTER)) == [f]
  {
    BeforeAfterTags(foo);
  }

  // Properties of the three-phase dispatch.

  /** The tails of the phase keys, spelled out. */
  lemma RestOfPhases(name: EventName)
    ensures Phases(name)[1..] == [name, name + ":" + AFTER]
    ensures Phases(name)[1..][1..] == Phases(name)[2..] == [name + ":" + AFTER]
    ensures Phases(name)[2..][1..] == []
  {
  }

  /** Three emissions in a row, one per phase key, make up `TraceAll` and `StateAll` of the phase keys. */
  lemma PhaseSteps(e0: map<EventName, seq<Listener>>, e1: map<EventName, seq<Listener>>, e2: map<EventName, seq<Listener>>,
                   e3: map<EventName, seq<Listener>>, name: EventName, t1: seq<FnId>, t2: seq<FnId>, t3: seq<FnId>)
    requires e1 == BaseEmitter.AfterEmit(e0, name + ":" + BEFORE) && t1 == TraceOf(ListOf(e0, name + ":" + BEFORE))
    requires e2 == BaseEmitter.AfterEmit(e1, name) && t2 == TraceOf(ListOf(e1, name))
    requires e3 == BaseEmitter.AfterEmit(e2, name + ":" + AFTER) && t3 == TraceOf(ListOf(e2, name + ":" + AFTER))
    ensures TraceAll(e0, Phases(name)) == t1 + t2 + t3 && StateAll(e0, Phases(name)) == e3
  {
    var a, b, c := name + ":" + BEFORE, name, name + ":" + AFTER;
    assert Phases(name) == [a] + ([b] + ([c] + []));
    FoldCons(e2, c, []);
    FoldCons(e1, b, [c] + []);
    FoldCons(e0, a, [b] + ([c] + []));
  }

  /** One step of the folds: the first key is emitted, then the rest from the registry it leaves. */
  lemma FoldCons(events: map<EventName, seq<Listener>>, k: EventName, rest: seq<EventName>)
    ensures TraceAll(events, [k] + rest) == TraceOf(ListOf(events, k)) + TraceAll(BaseEmitter.AfterEmit(events, k), rest)
    ensures StateAll(events, [k] + rest) == StateAll(BaseEmitter.AfterEmit(events, k), rest)
  {
    assert ([k] + rest)[0] == k && ([k] + rest)[1..] == rest;
  }

  /** The three phase keys are different names. */
  lemma PhasesDistinct(name: EventName)
    ensures Distinct(Phases(name))
  {
    var b, a := name + ":" + BEFORE, name + ":" + AFTER;
    assert |b| > |name| && |a| > |name|;
    assert b[|name| + 1] == 'b' && a[|name| + 1] == 'a';
  }

  /** Emitting a key leaves every other key's list as it was. */
  lemma {:induction false} FlatIgnoresOther(events: map<EventName, seq<Listener>>, k: EventName, keys: seq<EventName>)
    requires k !in keys
    ensures Flat(BaseEmitter.AfterEmit(events, k), keys) == Flat(events, keys)
  {
    if keys != [] {
      assert ListOf(BaseEmitter.AfterEmit(events, k), keys[0]) == ListOf(events, keys[0]);
      FlatIgnoresOther(events, k, keys[1..]);
    }
  }

  /**
   * When the keys are different names, no phase disturbs a later one: the
   * trace is each key's list as it stood when `emit` began, in key order.
   */
  lemma {:induction false} TraceAllIsFlat(events: map<EventName, seq<Listener>>, keys: seq<EventName>)
    requires Distinct(keys)
    ensures TraceAll(events, keys) == Flat(events, keys)
  {
    if keys != [] {
      var rest := keys[1..];
      assert keys[0] !in rest by {
        forall j | 0 <= j < |rest| ensures rest[j] != keys[0] {
          assert rest[j] == keys[j + 1];
        }
      }
      assert Distinct(rest) by {
        forall i, j | 0 <= i < j < |rest| ensures rest[i] != rest[j] {
          assert rest[i] == keys[i + 1] && rest[j] == keys[j + 1];
        }
      }
      TraceAllIsFlat(BaseEmitter.AfterEmit(events, keys[0]), rest);
      FlatIgnoresOther(events, keys[0], rest);
    }
  }

  /**
   * `emit(name)` on an unsuffixed name invokes the `name:before` list, then
   * the `name` list, then the `name:after` list, each as registered; an
   * absent list contributes nothing.
   */
  lemma ThreePhaseOrder(events: map<EventName, seq<Listener>>, name: EventName)
    ensures TraceAll(events, Phases(name))
         == TraceOf(ListOf(events, name + ":" + BEFORE)) + TraceOf(ListOf(events, name)) + TraceOf(ListOf(events, name + ":" + AFTER))
  {
    PhasesDistinct(name);
    TraceAllIsFlat(events, Phases(name));
    RestOfPhases(name);
    var keys := Phases(name);
    assert Flat(events, keys[2..]) == TraceOf(ListOf(events, name + ":" + AFTER));
    assert Flat(events, keys[1..]) == TraceOf(ListOf(events, name)) + TraceOf(ListOf(events, name + ":" + AFTER));
  }

  /** Emitting lists that hold no `once` wrapper leaves the registry exactly as it was. */
  lemma {:induction false} QuietPhases(events: map<EventName, seq<Listener>>, keys: seq<EventName>)
    requires forall k :: k in events ==> !HasOnce(events[k])
    ensures StateAll(events, keys) == events
  {
    if keys != [] {
      if keys[0] in events {
        BaseEmitter.EmitDropsWrappers(events, keys[0], Listener.Once(0, 0));
      }
      QuietPhases(events, keys[1..]);
    }
  }

  /** Every listener of every phase runs: the trace is as long as the three lists together. */
  lemma NothingHalts(events: map<EventName, seq<Listener>>, name: EventName)
    ensures |TraceAll(events, Phases(name))|
         == |ListOf(events, name + ":" + BEFORE)| + |ListOf(events, name)| + |ListOf(events, name + ":" + AFTER)|
  {
    ThreePhaseOrder(events, name);
  }

  /**
   * Where no aspect returns `false` and the main list holds no `once`
   * wrapper, the sequential emitter and the short-circuiting layer invoke
   * the same callbacks in the same order for the same three lists.
   */
  lemma AgreesWithAop(events: map<EventName, seq<Listener>>, aops: Aop.AopTable, name: EventName, halting: set<FnId>)
    requires !IsSuffixed(name) && name in events && !HasOnce(events[name])
    requires ListOf(events, name + ":" + BEFORE) == Aop.AspectList(aops, name, BEFORE)
    requires ListOf(events, name + ":" + AFTER) == Aop.AspectList(aops, name, AFTER)
    requires forall i :: 0 <= i < |Aop.AspectList(aops, name, BEFORE)| ==> !ReturnsFalse(Aop.AspectList(aops, name, BEFORE)[i], halting)
    requires forall i :: 0 <= i < |Aop.AspectList(aops, name, AFTER)| ==> !ReturnsFalse(Aop.AspectList(aops, name, AFTER)[i], halting)
    ensures TraceAll(events, Phases(name))
         == Aop.Dispatch(Aop.AspectList(aops, name, BEFORE), events[name], Aop.AspectList(aops, name, AFTER), halting)
  {
    ThreePhaseOrder(events, name);
  }
}
