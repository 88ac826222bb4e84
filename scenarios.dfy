/**
 * The example runs of test/aop.spec.js and test/aspect.spec.js, and a few
 * more runs that pin down edge cases of the three emitters, each stated as
 * the exact sequence of callbacks invoked. The event names of the examples
 * (`foo`, `bar`) are parameters: each run holds for every name without a
 * `:`. Arguments passed to `emit` are not modelled, so a trace records which
 * callback ran, not with what value.
 */
module Scenarios {
  import opened Listeners
  import opened Suffix
  import BaseEmitter
  import Aop
  import Aspect

  // Callbacks of the examples, named after what they push onto `result`.
  const ONE: FnId := 1
  const TWO: FnId := 2
  const B1: FnId := 3
  const B2: FnId := 4
  const A1: FnId := 5
  const A2: FnId := 6

  /** A name without `:` has no suffix, and with `:before` or `:after` appended it splits back into itself and the tag. */
  lemma Names(foo: EventName)
    requires ':' !in foo
    ensures !IsSuffixed(foo)
    ensures IsSuffixed(foo + ":" + BEFORE) && BaseOf(foo + ":" + BEFORE) == foo && TagOf(foo + ":" + BEFORE) == BEFORE
    ensures IsSuffixed(foo + ":" + AFTER) && BaseOf(foo + ":" + AFTER) == foo && TagOf(foo + ":" + AFTER) == AFTER
  {
    NoColonNoSuffix(foo);
    BeforeAfterTags(foo);
  }

  /** Names made from two different colon-free names are different, and none of them is the other plain name. */
  lemma DistinctBases(foo: EventName, bar: EventName, x: string, y: string)
    requires ':' !in foo && ':' !in bar && foo != bar
    ensures foo + ":" + x != bar + ":" + y
    ensures foo != bar + ":" + y
  {
    var s, t := foo + ":" + x, bar + ":" + y;
    assert s[|foo|] == ':' && t[|bar|] == ':';
    assert forall i :: 0 <= i < |foo| ==> s[i] == foo[i];
    assert forall i :: 0 <= i < |bar| ==> t[i] == bar[i];
  }

  /** The three phase keys of a name are three different names. */
  lemma PhaseNamesDiffer(foo: EventName)
    ensures foo + ":" + BEFORE != foo && foo + ":" + AFTER != foo && foo + ":" + BEFORE != foo + ":" + AFTER
  {
    Aspect.PhasesDistinct(foo);
    assert Aspect.Phases(foo)[0] != Aspect.Phases(foo)[1] && Aspect.Phases(foo)[1] != Aspect.Phases(foo)[2];
    assert Aspect.Phases(foo)[0] != Aspect.Phases(foo)[2];
  }

  /** The traces of the short lists the examples build. */
  lemma Traces(f: FnId, g: FnId)
    ensures TraceOf([]) == [] && TraceOf([Plain(f)]) == [f] && TraceOf([Plain(f), Plain(g)]) == [f, g]
  {
  }

  /** Plain lists whose callbacks are all outside `halting`: no veto, and the trace is every callback. */
  lemma NoVeto(s: seq<Listener>, halting: set<FnId>)
    requires forall i :: 0 <= i < |s| ==> s[i].Plain? && s[i].fn !in halting
    ensures !Aop.Vetoed(s, halting) && Aop.Reached(s, halting) == s && !HasOnce(s)
  {
  }

  /**
   * An emission of the short-circuiting layer where no aspect vetoes and
   * the main list holds no `once` wrapper: every listener runs, and nothing
   * any later `listeners` or `emit` could observe has changed.
   */
  method EmitUnvetoed(em: Aop.AopEmitter, name: EventName, halting: set<FnId>) returns (trace: seq<FnId>)
    requires em.Valid() && name in em.base.events
    requires forall i :: 0 <= i < |em.base.events[name]| ==> em.base.events[name][i].Plain?
    requires forall i :: 0 <= i < |Aop.AspectList(em.aops, name, BEFORE)| ==> !ReturnsFalse(Aop.AspectList(em.aops, name, BEFORE)[i], halting)
    requires forall i :: 0 <= i < |Aop.AspectList(em.aops, name, AFTER)| ==> !ReturnsFalse(Aop.AspectList(em.aops, name, AFTER)[i], halting)
    modifies em, em.base
    ensures em.Valid()
    ensures trace == TraceOf(Aop.AspectList(old(em.aops), name, BEFORE)) + TraceOf(old(em.base.events)[name]) + TraceOf(Aop.AspectList(old(em.aops), name, AFTER))
    ensures em.base.events == old(em.base.events)
    ensures forall b, t :: Aop.AspectList(em.aops, b, t) == Aop.AspectList(old(em.aops), b, t)
  {
    PlainsKeepsList(em.base.events[name]);
    Aop.DispatchNoVeto(Aop.AspectList(em.aops, name, BEFORE), em.base.events[name], Aop.AspectList(em.aops, name, AFTER), halting);
    assert !Aop.Vetoed(Aop.AspectList(em.aops, name, BEFORE), halting);
    trace := em.Emit(name, halting);
    assert em.base.events == old(em.base.events)[name := old(em.base.events)[name]];
  }

  /** `on(name, f)` of the short-circuiting layer for an unsuffixed name: `f` joins the plain list. */
  method OnPlain(em: Aop.AopEmitter, name: EventName, f: FnId)
    requires em.Valid() && !IsSuffixed(name)
    modifies em, em.base
    ensures em.Valid() && em.aops == old(em.aops)
    ensures em.base.events == old(em.base.events)[name := ListOf(old(em.base.events), name) + [Plain(f)]]
    ensures em.base.offLinks == old(em.base.offLinks) && em.base.nextSerial == old(em.base.nextSerial)
  {
    var r := em.On(name, f);
  }

  /** `on(name, f)` of the short-circuiting layer for a suffixed name the guard lets through: `f` joins that aspect list only. */
  method OnAspect(em: Aop.AopEmitter, name: EventName, f: FnId)
    requires em.Valid() && IsSuffixed(name) && !Aop.CapacityExceeded(em.aops, BaseOf(name), em.maxListeners)
    modifies em
    ensures em.Valid() && em.base.events == old(em.base.events)
    ensures Aop.AspectList(em.aops, BaseOf(name), TagOf(name)) == Aop.AspectList(old(em.aops), BaseOf(name), TagOf(name)) + [Plain(f)]
    ensures forall b, t :: (b, t) != (BaseOf(name), TagOf(name)) ==> Aop.AspectList(em.aops, b, t) == Aop.AspectList(old(em.aops), b, t)
  {
    var r := em.AddToAspect(name, Plain(f));
  }

  /** The registrations of test/aop.spec.js: `foo` gets ONE and TWO, `foo:before` gets B1 and B2. */
  method AopBeforeSetup(foo: EventName) returns (em: Aop.AopEmitter)
    requires ':' !in foo
    ensures fresh(em) && fresh(em.base) && em.Valid()
    ensures em.base.events.Keys == {foo} && em.base.events[foo] == [Plain(ONE), Plain(TWO)]
    ensures Aop.AspectList(em.aops, foo, BEFORE) == [Plain(B1), Plain(B2)]
    ensures Aop.AspectList(em.aops, foo, AFTER) == []
  {
    Names(foo);
    em := new Aop.AopEmitter(0);
    OnPlain(em, foo, ONE);
    OnPlain(em, foo, TWO);
    OnAspect(em, foo + ":" + BEFORE, B1);
    OnAspect(em, foo + ":" + BEFORE, B2);
  }

  /**
   * test/aop.spec.js, `.on( aop, fn )`: two `before` aspects run ahead of
   * the two main listeners, on every emission of `foo`; emitting `bar`
   * runs nothing.
   */
  method AopBeforeExample(foo: EventName, bar: EventName) returns (trace: seq<FnId>)
    requires ':' !in foo && bar != foo
    ensures trace == [B1, B2, ONE, TWO, B1, B2, ONE, TWO]
  {
    var em := AopBeforeSetup(foo);
    Traces(B1, B2);
    Traces(ONE, TWO);
    var t1 := EmitUnvetoed(em, foo, {});
    var t2 := EmitUnvetoed(em, foo, {});
    var t3 := em.Emit(bar, {});
    trace := t1 + t2 + t3;
  }

  /** `foo` gets ONE, `foo:before` gets B1 and B2, `foo:after` gets A1. */
  method VetoSetup(foo: EventName) returns (em: Aop.AopEmitter)
    requires ':' !in foo
    ensures fresh(em) && fresh(em.base) && em.Valid()
    ensures em.base.events.Keys == {foo} && em.base.events[foo] == [Plain(ONE)]
    ensures Aop.AspectList(em.aops, foo, BEFORE) == [Plain(B1), Plain(B2)]
    ensures Aop.AspectList(em.aops, foo, AFTER) == [Plain(A1)]
  {
    Names(foo);
    em := new Aop.AopEmitter(0);
    OnPlain(em, foo, ONE);
    OnAspect(em, foo + ":" + BEFORE, B1);
    OnAspect(em, foo + ":" + BEFORE, B2);
    OnAspect(em, foo + ":" + AFTER, A1);
  }

  /** A `before` aspect that returns `false` ends the emission at once: no later aspect and no main listener runs. */
  method BeforeVetoExample(foo: EventName) returns (trace: seq<FnId>)
    requires ':' !in foo
    ensures trace == [B1]
  {
    var em := VetoSetup(foo);
    Aop.BeforeVetoStops([Plain(B1), Plain(B2)], [Plain(ONE)], [Plain(A1)], {B1}, 0);
    trace := em.Emit(foo, {B1});
  }

  /** `foo` gets ONE and TWO, `foo:after` gets A1 and A2. */
  method AfterSetup(foo: EventName) returns (em: Aop.AopEmitter)
    requires ':' !in foo
    ensures fresh(em) && fresh(em.base) && em.Valid()
    ensures foo in em.base.events && em.base.events[foo] == [Plain(ONE), Plain(TWO)]
    ensures Aop.AspectList(em.aops, foo, BEFORE) == []
    ensures Aop.AspectList(em.aops, foo, AFTER) == [Plain(A1), Plain(A2)]
  {
    Names(foo);
    em := new Aop.AopEmitter(0);
    OnPlain(em, foo, ONE);
    OnPlain(em, foo, TWO);
    OnAspect(em, foo + ":" + AFTER, A1);
    OnAspect(em, foo + ":" + AFTER, A2);
  }

  /** An `after` aspect that returns `false` cuts the rest of the `after` list only; a main listener's `false` is ignored. */
  method AfterVetoExample(foo: EventName) returns (trace: seq<FnId>)
    requires ':' !in foo
    ensures trace == [ONE, TWO, A1]
  {
    var em := AfterSetup(foo);
    Aop.AfterVetoKeepsMains([], [Plain(ONE), Plain(TWO)], [Plain(A1), Plain(A2)], {ONE, A1}, 0);
    NoVeto([], {ONE, A1});
    PlainsKeepsList([Plain(ONE), Plain(TWO)]);
    trace := em.Emit(foo, {ONE, A1});
  }

  /** A ceiling of 2, with `foo:before` holding B1 and `foo:after` holding A1. */
  method CapacitySetup(foo: EventName) returns (em: Aop.AopEmitter)
    requires ':' !in foo
    ensures fresh(em) && fresh(em.base) && em.Valid() && em.maxListeners == 2
    ensures em.base.events == map[]
    ensures Aop.AspectList(em.aops, foo, BEFORE) == [Plain(B1)]
    ensures Aop.AspectList(em.aops, foo, AFTER) == [Plain(A1)]
  {
    Names(foo);
    em := new Aop.AopEmitter(2);
    OnAspect(em, foo + ":" + BEFORE, B1);
    OnAspect(em, foo + ":" + AFTER, A1);
  }

  /**
   * With a ceiling of 2 and two aspects of `foo` registered, a third is
   * refused with the count 2 and the `before` list stays as it was; a
   * plain `on` is never counted.
   */
  method CapacityExample(foo: EventName) returns (third: Aop.Outcome, plain: Aop.Outcome, befores: seq<Listener>)
    requires ':' !in foo
    ensures third == Aop.RangeError(2) && plain == Aop.Ok
    ensures befores == [Plain(B1)]
  {
    var em := CapacitySetup(foo);
    Names(foo);
    third := em.On(foo + ":" + BEFORE, B2);
    plain := em.On(foo, ONE);
    befores := Aop.AspectList(em.aops, foo, BEFORE);
  }

  /** Lists under a tag other than `before` and `after` are not counted: with a ceiling of 1, `foo:bar` takes any number of listeners. */
  method OtherTagsUncounted(foo: EventName) returns (first: Aop.Outcome, second: Aop.Outcome)
    ensures first == Aop.Ok && second == Aop.Ok
  {
    assert IsTag("bar");
    SuffixComplete(foo, "bar");
    var em := new Aop.AopEmitter(1);
    first := em.On(foo + ":" + "bar", B1);
    second := em.On(foo + ":" + "bar", B2);
  }

  /** `foo` gets ONE, `foo:before` gets B1. */
  method OneBeforeSetup(foo: EventName) returns (em: Aop.AopEmitter)
    requires ':' !in foo
    ensures fresh(em) && fresh(em.base) && em.Valid()
    ensures em.base.events.Keys == {foo} && em.base.events[foo] == [Plain(ONE)]
    ensures Aop.AspectList(em.aops, foo, BEFORE) == [Plain(B1)]
    ensures Aop.AspectList(em.aops, foo, AFTER) == []
  {
    Names(foo);
    em := new Aop.AopEmitter(0);
    OnPlain(em, foo, ONE);
    OnAspect(em, foo + ":" + BEFORE, B1);
  }

  /** `off('foo:before', fn)` leaves the aspect in place, so it still runs. */
  method OffTaggedListenerKeeps(foo: EventName) returns (trace: seq<FnId>)
    requires ':' !in foo
    ensures trace == [B1, ONE]
  {
    var em := OneBeforeSetup(foo);
    Names(foo);
    Traces(B1, ONE);
    em.Off(TwoArgs(foo + ":" + BEFORE, Plain(B1)));
    trace := EmitUnvetoed(em, foo, {});
  }

  /** `off('foo:before')` deletes the whole `before` list of `foo`. */
  method OffTaggedListDrops(foo: EventName) returns (trace: seq<FnId>)
    requires ':' !in foo
    ensures trace == [ONE]
  {
    var em := OneBeforeSetup(foo);
    Names(foo);
    Traces(ONE, ONE);
    em.Off(OneArg(foo + ":" + BEFORE));
    trace := EmitUnvetoed(em, foo, {});
  }

  /** `off('foo')` also deletes every aspect of `foo`: a listener registered afterwards runs alone. */
  method OffEventClearsAspects(foo: EventName) returns (trace: seq<FnId>)
    requires ':' !in foo
    ensures trace == [TWO]
  {
    var em := OneBeforeSetup(foo);
    Names(foo);
    Traces(TWO, TWO);
    em.Off(OneArg(foo));
    OnPlain(em, foo, TWO);
    trace := EmitUnvetoed(em, foo, {});
  }

  /** `off()` empties the plain registry but deletes only the aspects filed under the name "undefined": the `before` aspect of `foo` survives. */
  method OffAllKeepsAspects(foo: EventName) returns (trace: seq<FnId>)
    requires ':' !in foo && foo != "undefined"
    ensures trace == [B1, TWO]
  {
    var em := OneBeforeSetup(foo);
    Names(foo);
    Traces(B1, TWO);
    em.Off(NoArgs);
    assert Aop.AspectList(em.aops, foo, BEFORE) == [Plain(B1)] && Aop.AspectList(em.aops, foo, AFTER) == [];
    OnPlain(em, foo, TWO);
    trace := EmitUnvetoed(em, foo, {});
  }

  /** Emitting a suffixed name finds no plain list, so nothing runs, not even the aspect list of that name. */
  method SuffixedEmitRunsNothing(foo: EventName) returns (trace: seq<FnId>)
    requires ':' !in foo
    ensures trace == []
  {
    var em := OneBeforeSetup(foo);
    Names(foo);
    trace := em.Emit(foo + ":" + BEFORE, {});
  }

  /** Without a plain list, aspects do not run. */
  method NoMainListNoAspects(foo: EventName) returns (trace: seq<FnId>)
    requires ':' !in foo
    ensures trace == []
  {
    Names(foo);
    var em := new Aop.AopEmitter(0);
    OnAspect(em, foo + ":" + BEFORE, B1);
    trace := em.Emit(foo, {});
  }

  /** `foo` gets a `once` wrapper of ONE, `foo:before` gets B1 and `foo:after` gets A1. */
  method OnceSetup(foo: EventName) returns (em: Aop.AopEmitter)
    requires ':' !in foo
    ensures fresh(em) && fresh(em.base) && em.Valid()
    ensures em.base.events.Keys == {foo} && em.base.events[foo] == [Listener.Once(0, ONE)]
    ensures Aop.AspectList(em.aops, foo, BEFORE) == [Plain(B1)]
    ensures Aop.AspectList(em.aops, foo, AFTER) == [Plain(A1)]
  {
    Names(foo);
    em := new Aop.AopEmitter(0);
    var r := em.Once(foo, ONE);
    OnAspect(em, foo + ":" + BEFORE, B1);
    OnAspect(em, foo + ":" + AFTER, A1);
  }

  /** A wrapper alone in a list: the list holds a wrapper, and nothing is left of it after an emission. */
  lemma LoneWrapper(w: Listener)
    requires w.Once?
    ensures HasOnce([w]) && Plains([w]) == []
  {
    assert [w][0].Once?;
    assert [w][..0] == [];
  }

  /**
   * A `once` wrapper among the main listeners removes itself through the
   * patched `off('foo', wrapper)`, which deletes every aspect of `foo`: the
   * `after` aspect does not run, and the next emission runs nothing.
   */
  method OnceErasesAspects(foo: EventName) returns (first: seq<FnId>, second: seq<FnId>)
    requires ':' !in foo
    ensures first == [B1, ONE] && second == []
  {
    var em := OnceSetup(foo);
    NoVeto([Plain(B1)], {});
    NoVeto([], {});
    LoneWrapper(Listener.Once(0, ONE));
    Aop.DispatchNoVeto([Plain(B1)], [Listener.Once(0, ONE)], [], {});
    first := em.Emit(foo, {});
    second := em.Emit(foo, {});
  }

  // The base emitter.

  /** A `once` listener runs on the first emission only; a plain one on every emission. */
  method BaseOnceExample(foo: EventName) returns (first: seq<FnId>, second: seq<FnId>)
    ensures first == [ONE, TWO] && second == [ONE]
  {
    var em := new BaseEmitter.Emitter();
    em.On(foo, ONE);
    em.Once(foo, TWO);
    assert em.events[foo] == [Plain(ONE), Listener.Once(0, TWO)];
    first := em.Emit(foo);
    assert Plains([Plain(ONE), Listener.Once(0, TWO)]) == [Plain(ONE)] by {
      assert [Plain(ONE), Listener.Once(0, TWO)][..1] == [Plain(ONE)];
      assert [Plain(ONE)][..0] == [];
    }
    second := em.Emit(foo);
  }

  /** `off(e, f)` with the callback a `once` wrapped removes the wrapper through the `_off` link, so it never runs. */
  method OffBeforeFireExample(foo: EventName) returns (trace: seq<FnId>)
    ensures trace == []
  {
    var em := new BaseEmitter.Emitter();
    em.Once(foo, ONE);
    em.Off(TwoArgs(foo, Plain(ONE)));
    trace := em.Emit(foo);
  }

  /** A registry with one name is the map of that name alone. */
  lemma OneName(m: map<EventName, seq<Listener>>, k: EventName)
    requires m.Keys == {k}
    ensures m == map[k := m[k]]
  {
    assert forall j :: j in m <==> j in map[k := m[k]];
  }

  /** `foo` gets ONE, TWO and ONE again. */
  method DuplicateSetup(foo: EventName) returns (em: BaseEmitter.Emitter)
    ensures fresh(em) && em.offLinks == map[]
    ensures em.events == map[foo := [Plain(ONE), Plain(TWO), Plain(ONE)]]
  {
    em := new BaseEmitter.Emitter();
    em.On(foo, ONE);
    em.On(foo, TWO);
    em.On(foo, ONE);
    assert em.events.Keys == {foo} && em.events[foo] == [Plain(ONE), Plain(TWO), Plain(ONE)];
    OneName(em.events, foo);
  }

  /** The removal in the example below: the first `f` goes, the second stays. */
  lemma DropFirstOne(foo: EventName, f: FnId, g: FnId)
    ensures BaseEmitter.AfterOff(map[foo := [Plain(f), Plain(g), Plain(f)]], map[], TwoArgs(foo, Plain(f)))
         == map[foo := [Plain(g), Plain(f)]]
  {
    var s := [Plain(f), Plain(g), Plain(f)];
    var m := map[foo := s];
    RemoveFirstAfter([], Plain(f), [Plain(g), Plain(f)]);
    assert [] + [Plain(f)] + [Plain(g), Plain(f)] == s;
    assert RemoveFirst(s, Plain(f)) == [Plain(g), Plain(f)];
    assert Resolve(map[], Plain(f)) == Plain(f);
    assert BaseEmitter.AfterOff(m, map[], TwoArgs(foo, Plain(f))) == m[foo := [Plain(g), Plain(f)]];
    Overwrite(foo, s, [Plain(g), Plain(f)]);
  }

  /** Updating a one-name map gives the map of the new value. */
  lemma Overwrite(k: EventName, a: seq<Listener>, b: seq<Listener>)
    ensures map[k := a][k := b] == map[k := b]
  {
  }

  /** The emission in the example below runs `g` then `f` and changes nothing. */
  lemma QuietPair(foo: EventName, g: FnId, f: FnId)
    ensures BaseEmitter.AfterEmit(map[foo := [Plain(g), Plain(f)]], foo) == map[foo := [Plain(g), Plain(f)]]
    ensures TraceOf(ListOf(map[foo := [Plain(g), Plain(f)]], foo)) == [g, f]
  {
    PlainsKeepsList([Plain(g), Plain(f)]);
  }

  /** Duplicates are kept, and `off(e, f)` removes only the first occurrence of `f`. */
  method OffFirstOccurrenceExample(foo: EventName) returns (trace: seq<FnId>)
    ensures trace == [TWO, ONE]
  {
    var em := DuplicateSetup(foo);
    DropFirstOne(foo, ONE, TWO);
    QuietPair(foo, TWO, ONE);
    em.Off(TwoArgs(foo, Plain(ONE)));
    trace := em.Emit(foo);
  }

  // The sequential aspect emitter.

  /**
   * An emission of the sequential emitter over lists without `once`
   * wrappers: the three phases in order, and the registry unchanged.
   */
  method EmitSequential(a: Aspect.AspectEmitter, name: EventName) returns (trace: seq<FnId>)
    requires !IsSuffixed(name)
    requires forall k :: k in a.base.events ==> !HasOnce(a.base.events[k])
    modifies a.base
    ensures trace == TraceOf(ListOf(old(a.base.events), name + ":" + BEFORE)) + TraceOf(ListOf(old(a.base.events), name))
                     + TraceOf(ListOf(old(a.base.events), name + ":" + AFTER))
    ensures a.base.events == old(a.base.events)
  {
    Aspect.ThreePhaseOrder(a.base.events, name);
    Aspect.QuietPhases(a.base.events, Aspect.Phases(name));
    trace := a.Emit(name);
  }

  /** Appending a plain listener keeps every list of the registry free of `once` wrappers. */
  lemma QuietOn(events: map<EventName, seq<Listener>>, e: EventName, f: FnId)
    requires forall k :: k in events ==> !HasOnce(events[k])
    ensures var r := events[e := ListOf(events, e) + [Plain(f)]];
      forall k :: k in r ==> !HasOnce(r[k])
  {
    var l := ListOf(events, e) + [Plain(f)];
    forall i | 0 <= i < |l| ensures !l[i].Once? {
      if i < |l| - 1 {
        assert l[i] == ListOf(events, e)[i];
      }
    }
  }

  /**
   * The registrations of test/aspect.spec.js: `foo` gets ONE, then the
   * first aspect, then TWO, then the second aspect, through the base `on`.
   */
  method AspectSetup(foo: EventName, first: EventName, f1: FnId, second: EventName, f2: FnId) returns (a: Aspect.AspectEmitter)
    requires first != foo && second != foo
    ensures fresh(a) && fresh(a.base)
    ensures a.base.events.Keys == {foo, first, second}
    ensures forall k :: k in a.base.events ==> !HasOnce(a.base.events[k])
    ensures a.base.events[foo] == [Plain(ONE), Plain(TWO)]
    ensures first == second ==> a.base.events[first] == [Plain(f1), Plain(f2)]
    ensures first != second ==> a.base.events[first] == [Plain(f1)] && a.base.events[second] == [Plain(f2)]
  {
    a := new Aspect.AspectEmitter();
    QuietOn(a.base.events, foo, ONE);
    a.base.On(foo, ONE);
    QuietOn(a.base.events, first, f1);
    a.base.On(first, f1);
    QuietOn(a.base.events, foo, TWO);
    a.base.On(foo, TWO);
    QuietOn(a.base.events, second, f2);
    a.base.On(second, f2);
  }

  /** Each example emits `foo` twice and then `bar`. */
  method EmitFooFooBar(a: Aspect.AspectEmitter, foo: EventName, bar: EventName) returns (trace: seq<FnId>)
    requires ':' !in foo && ':' !in bar
    requires forall k :: k in a.base.events ==> !HasOnce(a.base.events[k])
    modifies a.base
    ensures var ev := old(a.base.events);
      var once := TraceOf(ListOf(ev, foo + ":" + BEFORE)) + TraceOf(ListOf(ev, foo)) + TraceOf(ListOf(ev, foo + ":" + AFTER));
      var rest := TraceOf(ListOf(ev, bar + ":" + BEFORE)) + TraceOf(ListOf(ev, bar)) + TraceOf(ListOf(ev, bar + ":" + AFTER));
      trace == once + once + rest
  {
    NoColonNoSuffix(foo);
    NoColonNoSuffix(bar);
    var t1 := EmitSequential(a, foo);
    var t2 := EmitSequential(a, foo);
    var t3 := EmitSequential(a, bar);
    trace := t1 + t2 + t3;
  }

  /** No phase key of `bar` is a key of the examples' registry. */
  lemma BarUnregistered(foo: EventName, bar: EventName, events: map<EventName, seq<Listener>>)
    requires ':' !in foo && ':' !in bar && foo != bar
    requires events.Keys <= {foo, foo + ":" + BEFORE, foo + ":" + AFTER}
    ensures bar + ":" + BEFORE !in events && bar !in events && bar + ":" + AFTER !in events
  {
    DistinctBases(bar, foo, BEFORE, BEFORE);
    DistinctBases(bar, foo, BEFORE, AFTER);
    DistinctBases(bar, foo, AFTER, BEFORE);
    DistinctBases(bar, foo, AFTER, AFTER);
    DistinctBases(foo, bar, BEFORE, BEFORE);
    DistinctBases(foo, bar, AFTER, AFTER);
  }

  /** test/aspect.spec.js, `with :before`: the `foo:before` listeners run ahead of the `foo` listeners, on every emission. */
  method AspectBeforeExample(foo: EventName, bar: EventName) returns (trace: seq<FnId>)
    requires ':' !in foo && ':' !in bar && foo != bar
    ensures trace == [B1, B2, ONE, TWO, B1, B2, ONE, TWO]
  {
    Names(foo);
    PhaseNamesDiffer(foo);
    Traces(B1, B2);
    Traces(ONE, TWO);
    var a := AspectSetup(foo, foo + ":" + BEFORE, B1, foo + ":" + BEFORE, B2);
    BarUnregistered(foo, bar, a.base.events);
    trace := EmitFooFooBar(a, foo, bar);
  }

  /** test/aspect.spec.js, `with :after`: the `foo:after` listeners run behind the `foo` listeners, on every emission. */
  method AspectAfterExample(foo: EventName, bar: EventName) returns (trace: seq<FnId>)
    requires ':' !in foo && ':' !in bar && foo != bar
    ensures trace == [ONE, TWO, A1, A2, ONE, TWO, A1, A2]
  {
    Names(foo);
    PhaseNamesDiffer(foo);
    Traces(A1, A2);
    Traces(ONE, TWO);
    var a := AspectSetup(foo, foo + ":" + AFTER, A1, foo + ":" + AFTER, A2);
    BarUnregistered(foo, bar, a.base.events);
    trace := EmitFooFooBar(a, foo, bar);
  }

  /** test/aspect.spec.js, `with :before and :after`: before, main, after, whatever the order of registration. */
  method AspectBothExample(foo: EventName, bar: EventName) returns (trace: seq<FnId>)
    requires ':' !in foo && ':' !in bar && foo != bar
    ensures trace == [B1, ONE, TWO, A1, B1, ONE, TWO, A1]
  {
    Names(foo);
    PhaseNamesDiffer(foo);
    Traces(A1, B1);
    Traces(ONE, TWO);
    var a := AspectSetup(foo, foo + ":" + AFTER, A1, foo + ":" + BEFORE, B1);
    BarUnregistered(foo, bar, a.base.events);
    trace := EmitFooFooBar(a, foo, bar);
  }

  /** An emission of a suffixed name over lists without `once` wrappers: that list only, and the registry unchanged. */
  method EmitSuffixed(a: Aspect.AspectEmitter, name: EventName) returns (trace: seq<FnId>)
    requires IsSuffixed(name)
    requires forall k :: k in a.base.events ==> !HasOnce(a.base.events[k])
    modifies a.base
    ensures trace == TraceOf(ListOf(old(a.base.events), name))
    ensures a.base.events == old(a.base.events)
  {
    if name in a.base.events {
      BaseEmitter.EmitDropsWrappers(a.base.events, name, Listener.Once(0, 0));
    }
    trace := a.Emit(name);
  }

  /** test/aspect.spec.js, `emit :before/:after only`: a suffixed name runs its own list and no other phase. */
  method AspectSuffixOnlyExample(foo: EventName, bar: EventName) returns (trace: seq<FnId>)
    requires ':' !in foo && ':' !in bar && foo != bar
    ensures trace == [A1, B1]
  {
    Names(foo);
    PhaseNamesDiffer(foo);
    Traces(A1, B1);
    NoColonNoSuffix(bar);
    var a := AspectSetup(foo, foo + ":" + AFTER, A1, foo + ":" + BEFORE, B1);
    BarUnregistered(foo, bar, a.base.events);
    var t1 := EmitSuffixed(a, foo + ":" + AFTER);
    var t2 := EmitSuffixed(a, foo + ":" + BEFORE);
    var t3 := EmitSequential(a, bar);
    trace := t1 + t2 + t3;
  }
}
