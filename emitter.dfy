/**
 * The base emitter of src/emitter.js: a registry from event name to an
 * ordered listener list, with `on`, `once`, the three arities of `off`,
 * `emit` over a snapshot of the list, and `listeners`.
 */
module BaseEmitter {
  import opened Listeners

  /** The registry after `off` is called with the given arguments. */
  function AfterOff(events: map<EventName, seq<Listener>>, offLinks: map<FnId, Listener>, call: OffCall): (r: map<EventName, seq<Listener>>)
    ensures r.Keys <= events.Keys
  {
    match call
    case NoArgs => map[]
    case OneArg(e) => events - {e}
    case TwoArgs(e, l) =>
      if e in events then events[e := RemoveFirst(events[e], Resolve(offLinks, l))] else events
  }

  /** The registry after an emission of `e`: each `once` wrapper of `e`'s list has removed itself. */
  function AfterEmit(events: map<EventName, seq<Listener>>, e: EventName): (r: map<EventName, seq<Listener>>)
    ensures r.Keys == events.Keys
    ensures forall k :: k in events && k != e ==> r[k] == events[k]
  {
    if e in events then events[e := Plains(events[e])] else events
  }

  class Emitter {
    /** `_events`: event name to listener list. A name with an empty list is still present. */
    var events: map<EventName, seq<Listener>>
    /** The `_off` back-links: the latest wrapper `once` made for a callback. */
    var offLinks: map<FnId, Listener>
    /** Serial number for the next wrapper; every wrapper is a distinct function. */
    var nextSerial: nat

    /** A fresh emitter; `_getEvents` creates the empty registry on first use, which no caller can tell apart. */
    constructor ()
      ensures events == map[] && offLinks == map[] && nextSerial == 0
    {
      events := map[];
      offLinks := map[];
      nextSerial := 0;
    }

    /** `listeners(e)`: the current list of `e`, or the empty list. */
    function Listeners(e: EventName): (r: seq<Listener>)
      reads this
      ensures e in events ==> r == events[e]
      ensures e !in events ==> r == []
    {
      ListOf(events, e)
    }

    /** The body of `on`: append `l` to `e`'s list, creating the list if absent. */
    method Register(e: EventName, l: Listener)
      modifies this
      ensures events == old(events)[e := ListOf(old(events), e) + [l]]
      ensures offLinks == old(offLinks) && nextSerial == old(nextSerial)
    {
      events := events[e := ListOf(events, e) + [l]];
    }

    /** `on(e, f)`: `f` goes at the end of `e`'s list, duplicates allowed. */
    method On(e: EventName, f: FnId)
      modifies this
      ensures events == old(events)[e := ListOf(old(events), e) + [Plain(f)]]
      ensures offLinks == old(offLinks) && nextSerial == old(nextSerial)
    {
      Register(e, Plain(f));
    }

    /** The wrapper `once` builds for `f`, recorded as `f._off`. */
    method Wrap(f: FnId) returns (w: Listener)
      modifies this
      ensures w == Listener.Once(old(nextSerial), f) && nextSerial == old(nextSerial) + 1
      ensures offLinks == old(offLinks)[f := w] && events == old(events)
    {
      w := Listener.Once(nextSerial, f);
      nextSerial := nextSerial + 1;
      offLinks := offLinks[f := w];
    }

    /** `once(e, f)`: register a fresh wrapper of `f` and link `f` to it. */
    method Once(e: EventName, f: FnId)
      modifies this
      ensures var w := Listener.Once(old(nextSerial), f);
        && events == old(events)[e := ListOf(old(events), e) + [w]]
        && offLinks == old(offLinks)[f := w]
      ensures nextSerial == old(nextSerial) + 1
    {
      var w := Wrap(f);
      Register(e, w);
    }

    /** `off()`, `off(e)` and `off(e, l)`. */
    method Off(call: OffCall)
      modifies this
      ensures events == AfterOff(old(events), old(offLinks), call)
      ensures offLinks == old(offLinks) && nextSerial == old(nextSerial)
    {
      if call.NoArgs? {
        events := map[];
        return;
      }
      if call.event !in events {
        return;
      }
      if call.OneArg? {
        events := events - {call.event};
        return;
      }
      var list := events[call.event];
      var index := IndexOf(list, Resolve(offLinks, call.listener));
      if index != -1 {
        events := events[call.event := list[..index] + list[index + 1..]];
      }
    }

    /**
     * `emit(e)`: invoke, in order, every listener of `e` as the list stood
     * when the call began. A wrapper met on the way calls `off(e, wrapper)`,
     * which changes the live list but not the snapshot being walked.
     */
    method Emit(e: EventName) returns (trace: seq<FnId>)
      modifies this
      ensures trace == TraceOf(ListOf(old(events), e))
      ensures events == AfterEmit(old(events), e)
      ensures offLinks == old(offLinks) && nextSerial == old(nextSerial)
    {
      trace := [];
      if e in events {
        var snapshot := events[e];
        var i := 0;
        assert Plains(snapshot[..0]) + snapshot[0..] == snapshot;
        assert events == old(events)[e := snapshot];
        while i < |snapshot|
          invariant 0 <= i <= |snapshot|
          invariant trace == TraceOf(snapshot[..i])
          invariant events == old(events)[e := Plains(snapshot[..i]) + snapshot[i..]]
          invariant offLinks == old(offLinks) && nextSerial == old(nextSerial)
        {
          var l := snapshot[i];
          TraceOfSnoc(snapshot, i);
          EmitStep(old(events), offLinks, e, snapshot, i);
          trace := trace + [l.fn];
          if l.Once? {
            Off(TwoArgs(e, l));
          }
          i := i + 1;
        }
        assert snapshot[..i] == snapshot && snapshot[i..] == [];
        assert Plains(snapshot[..i]) + snapshot[i..] == Plains(snapshot);
      }
    }
  }

  /** One step of `emit`: the registry before and after the listener at `i` runs. */
  lemma EmitStep(events: map<EventName, seq<Listener>>, offLinks: map<FnId, Listener>, e: EventName, snapshot: seq<Listener>, i: nat)
    requires i < |snapshot|
    ensures var live := events[e := Plains(snapshot[..i]) + snapshot[i..]];
      var next := events[e := Plains(snapshot[..i + 1]) + snapshot[i + 1..]];
      && (snapshot[i].Once? ==> AfterOff(live, offLinks, TwoArgs(e, snapshot[i])) == next)
      && (snapshot[i].Plain? ==> live == next)
  {
    SelfRemovalStep(snapshot, i);
  }

  // Properties of the registry operations.

  /** `off()` leaves no event registered. */
  lemma OffAllEmpties(events: map<EventName, seq<Listener>>, offLinks: map<FnId, Listener>)
    ensures AfterOff(events, offLinks, NoArgs) == map[]
  {
  }

  /** `off(e)` drops `e`'s whole list and nothing else; on an unknown event it changes nothing. */
  lemma OffEventDropsList(events: map<EventName, seq<Listener>>, offLinks: map<FnId, Listener>, e: EventName)
    ensures var r := AfterOff(events, offLinks, OneArg(e));
      && e !in r
      && (forall k :: k in events && k != e ==> k in r && r[k] == events[k])
      && (e !in events ==> r == events)
  {
  }

  /**
   * `off(e, f)` takes one occurrence of `f`'s latest wrapper, or of `f`
   * itself when `once` never wrapped it, out of `e`'s list; the rest of
   * that list keeps its order and every other list is untouched. On an
   * event with no list it changes nothing.
   */
  lemma OffListenerRemovesFirst(events: map<EventName, seq<Listener>>, offLinks: map<FnId, Listener>, e: EventName, f: FnId)
    ensures var r := AfterOff(events, offLinks, TwoArgs(e, Plain(f)));
      forall k :: k in events && k != e ==> k in r && r[k] == events[k]
    ensures e !in events ==> AfterOff(events, offLinks, TwoArgs(e, Plain(f))) == events
    ensures var target := if f in offLinks then offLinks[f] else Plain(f);
      e in events && target !in events[e] ==> AfterOff(events, offLinks, TwoArgs(e, Plain(f))) == events
    ensures var target := if f in offLinks then offLinks[f] else Plain(f);
      e in events && target in events[e] ==>
        exists i :: 0 <= i < |events[e]| && events[e][i] == target && target !in events[e][..i]
                 && AfterOff(events, offLinks, TwoArgs(e, Plain(f)))[e] == events[e][..i] + events[e][i + 1..]
  {
    if e in events {
      var target := if f in offLinks then offLinks[f] else Plain(f);
      var s := events[e];
      var r := events[e := RemoveFirst(s, target)];
      assert AfterOff(events, offLinks, TwoArgs(e, Plain(f))) == r;
      var i := IndexOf(s, target);
      if i != -1 {
        assert s[i] == target && target !in s[..i] && r[e] == s[..i] + s[i + 1..];
      } else {
        assert r == events;
      }
    }
  }

  /** After an emission no `once` wrapper is left in the emitted list, and a list without wrappers is left as it was. */
  lemma {:induction false} EmitDropsWrappers(events: map<EventName, seq<Listener>>, e: EventName, w: Listener)
    requires e in events && w.Once?
    ensures w !in AfterEmit(events, e)[e]
    ensures !HasOnce(events[e]) ==> AfterEmit(events, e) == events
  {
    PlainsKeepsList(events[e]);
    assert events[e := events[e]] == events;
  }
}
