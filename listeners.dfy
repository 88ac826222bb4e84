/**
 * Listener identities, listener lists and the list operations shared by all
 * three emitters: lookup with a default, removal of the first occurrence
 * (`indexOf` followed by `splice`), and what is left of a list once every
 * `once` wrapper in it has removed itself.
 */
module Listeners {

  /** Identity of a callback supplied by a caller. */
  type FnId = nat

  type EventName = string

  /**
   * A registered listener: the caller's own callback, or the wrapper that
   * `once` registers in its place. Every wrapper is a fresh function, so it
   * carries a serial number that tells two wrappers of one callback apart.
   * Invoking either kind invokes the callback `fn`.
   */
  datatype Listener = Plain(fn: FnId) | Once(serial: nat, fn: FnId)

  /** The arities of `off`: no argument, an event name, or a name and a listener. */
  datatype OffCall = NoArgs | OneArg(event: EventName) | TwoArgs(event: EventName, listener: Listener)

  /**
   * Whether invoking `l` returns the value `false` when the callbacks in
   * `halting` return `false`. A `once` wrapper has no return statement, so
   * it never returns `false`, whatever its callback returns.
   */
  predicate ReturnsFalse(l: Listener, halting: set<FnId>) {
    l.Plain? && l.fn in halting
  }

  /** The callbacks invoked, in order, by invoking every listener of `s`. */
  function TraceOf(s: seq<Listener>): seq<FnId> {
    seq(|s|, i requires 0 <= i < |s| => s[i].fn)
  }

  /** `events[e] || []`: the list registered under `e`, or the empty list. */
  function ListOf(events: map<EventName, seq<Listener>>, e: EventName): seq<Listener> {
    if e in events then events[e] else []
  }

  /** `Array.prototype.indexOf`: the first position of `x` in `s`, or -1. */
  function IndexOf(s: seq<Listener>, x: Listener): (i: int)
    ensures -1 <= i < |s|
    ensures i == -1 <==> x !in s
    ensures 0 <= i ==> s[i] == x && x !in s[..i]
  {
    if s == [] then -1
    else if s[0] == x then 0
    else
      var j := IndexOf(s[1..], x);
      assert j >= 0 ==> s[..j + 1] == [s[0]] + s[1..][..j];
      if j == -1 then -1 else j + 1
  }

  /**
   * `indexOf` followed by `splice(index, 1)`: the first occurrence of `x` is
   * taken out and every other element keeps its place in the order.
   */
  function RemoveFirst(s: seq<Listener>, x: Listener): seq<Listener> {
    var i := IndexOf(s, x);
    if i == -1 then s else s[..i] + s[i + 1..]
  }

  /** Removal takes out one occurrence of `x` when there is one, and changes nothing otherwise. */
  lemma RemoveFirstTakesOne(s: seq<Listener>, x: Listener)
    ensures x !in s ==> RemoveFirst(s, x) == s
    ensures x in s ==> |RemoveFirst(s, x)| == |s| - 1 && multiset(RemoveFirst(s, x)) == multiset(s) - multiset{x}
  {
    var i := IndexOf(s, x);
    if i != -1 {
      assert s == s[..i] + [s[i]] + s[i + 1..];
    }
  }

  /** The plain listeners of `s`, in their order: all that remains once each wrapper of `s` has removed itself. */
  function Plains(s: seq<Listener>): (r: seq<Listener>)
    ensures |r| <= |s|
    ensures forall i :: 0 <= i < |r| ==> r[i].Plain?
  {
    if s == [] then []
    else Plains(s[..|s| - 1]) + (if s[|s| - 1].Plain? then [s[|s| - 1]] else [])
  }

  /** Every plain listener of `s` stays, as often as it occurs there, and no wrapper does. */
  lemma {:induction false} PlainsCounts(s: seq<Listener>)
    ensures forall x :: multiset(Plains(s))[x] == if x.Plain? then multiset(s)[x] else 0
  {
    if s != [] {
      var init, last := s[..|s| - 1], s[|s| - 1];
      PlainsCounts(init);
      assert s == init + [last];
    }
  }

  /** Whether some listener of `s` is a `once` wrapper. */
  predicate HasOnce(s: seq<Listener>) {
    exists i :: 0 <= i < |s| && s[i].Once?
  }

  /** `listener._off || listener`: a callback that `once` wrapped stands for its latest wrapper. */
  function Resolve(offLinks: map<FnId, Listener>, l: Listener): Listener {
    if l.Plain? && l.fn in offLinks then offLinks[l.fn] else l
  }

  /** The trace of a longer prefix is the trace of the shorter one followed by one more callback. */
  lemma TraceOfSnoc(s: seq<Listener>, i: nat)
    requires i < |s|
    ensures TraceOf(s[..i + 1]) == TraceOf(s[..i]) + [s[i].fn]
  {
  }

  /** A longer prefix holds a wrapper when the shorter one does or the added listener is one. */
  lemma HasOnceSnoc(s: seq<Listener>, i: nat)
    requires i < |s|
    ensures HasOnce(s[..i + 1]) <==> HasOnce(s[..i]) || s[i].Once?
  {
    if HasOnce(s[..i]) {
      var j :| 0 <= j < i && s[..i][j].Once?;
      assert s[..i + 1][j].Once?;
    }
    if s[i].Once? {
      assert s[..i + 1][i].Once?;
    }
    if HasOnce(s[..i + 1]) && !s[i].Once? {
      var j :| 0 <= j < i + 1 && s[..i + 1][j].Once?;
      assert s[..i][j].Once?;
    }
  }

  /** Appending one listener to a list extends its plain part by that listener when it is plain, and by nothing otherwise. */
  lemma PlainsSnoc(s: seq<Listener>, x: Listener)
    ensures Plains(s + [x]) == Plains(s) + (if x.Plain? then [x] else [])
  {
    assert (s + [x])[..|s|] == s;
  }

  /** Removing what is first found behind a wrapper-free prefix removes exactly that element. */
  lemma RemoveFirstAfter(p: seq<Listener>, x: Listener, t: seq<Listener>)
    requires x !in p
    ensures RemoveFirst(p + [x] + t, x) == p + t
  {
    var s := p + [x] + t;
    var i := IndexOf(s, x);
    assert s[..|p|] == p && s[|p|] == x && s[|p| + 1..] == t;
    assert forall j :: 0 <= j < |p| ==> s[j] == p[j];
    assert i <= |p| by {
      assert x in s[..|p| + 1];
    }
  }

  /**
   * One emission of `s` leaves `Plains(s)`: each wrapper met in the snapshot
   * removes its own first occurrence from the live list, which at that point
   * is the plain prefix already passed followed by the rest of the snapshot.
   */
  lemma {:induction false} SelfRemovalStep(s: seq<Listener>, i: nat)
    requires i < |s|
    ensures s[i].Once? ==> RemoveFirst(Plains(s[..i]) + s[i..], s[i]) == Plains(s[..i + 1]) + s[i + 1..]
    ensures s[i].Plain? ==> Plains(s[..i]) + s[i..] == Plains(s[..i + 1]) + s[i + 1..]
  {
    assert s[..i + 1] == s[..i] + [s[i]];
    PlainsSnoc(s[..i], s[i]);
    assert s[i..] == [s[i]] + s[i + 1..];
    if s[i].Once? {
      var p := Plains(s[..i]);
      assert s[i] !in p;
      assert p + s[i..] == p + [s[i]] + s[i + 1..];
      RemoveFirstAfter(p, s[i], s[i + 1..]);
    }
  }

  /** A list with no wrapper is its own plain part. */
  lemma {:induction false} PlainsKeepsList(s: seq<Listener>)
    ensures !HasOnce(s) ==> Plains(s) == s
  {
    if s != [] && !HasOnce(s) {
      var init := s[..|s| - 1];
      forall j | 0 <= j < |init| ensures init[j].Plain? {
        assert init[j] == s[j];
      }
      PlainsKeepsList(init);
      assert s[|s| - 1].Plain?;
      assert s == init + [s[|s| - 1]];
    }
  }
}
