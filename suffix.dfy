/**
 * The aspect suffix of an event name, as recognised by the pattern
 * `/(?:\:[before|after]+)$/` that src/aop.js (`rpseudo`) and src/aspect.js
 * (`regSuffix`) share. The brackets make a character class, not a choice
 * between two words: a name carries a suffix when it ends in `:` followed
 * by one or more of the characters `b e f o r | a t`. Since `:` is not
 * among them, only the last `:` of a name can start a match.
 */
module Suffix {

  const BEFORE: string := "before"
  const AFTER: string := "after"

  /** A character of the class `[before|after]`. */
  predicate IsTagChar(c: char) {
    c == 'b' || c == 'e' || c == 'f' || c == 'o' || c == 'r' || c == '|' || c == 'a' || c == 't'
  }

  /** A tag the pattern accepts: one or more characters of the class. */
  predicate IsTag(t: string) {
    |t| > 0 && forall i :: 0 <= i < |t| ==> IsTagChar(t[i])
  }

  /** The position of the last `:` of `s`, or -1. */
  function LastColon(s: string): (i: int)
    ensures -1 <= i < |s|
    ensures i == -1 <==> ':' !in s
    ensures 0 <= i ==> s[i] == ':' && ':' !in s[i + 1..]
  {
    if s == [] then -1
    else if s[|s| - 1] == ':' then |s| - 1
    else
      var j := LastColon(s[..|s| - 1]);
      assert s == s[..|s| - 1] + [s[|s| - 1]];
      assert 0 <= j ==> s[j + 1..] == s[..|s| - 1][j + 1..] + [s[|s| - 1]];
      j
  }

  /** `name.match(rpseudo)` succeeds: the text after the last `:` of `name` is a tag. */
  predicate IsSuffixed(name: string) {
    var i := LastColon(name);
    i >= 0 && IsTag(name[i + 1..])
  }

  /** `name.substr(0, name.length - match.length)`: the name without its suffix. */
  function BaseOf(name: string): (b: string)
    requires IsSuffixed(name)
    ensures |b| < |name| && b == name[..|b|] && name[|b|] == ':'
  {
    name[..LastColon(name)]
  }

  /** `match.substr(1)`: the suffix without its `:`. */
  function TagOf(name: string): (t: string)
    requires IsSuffixed(name)
    ensures IsTag(t) && ':' !in t
  {
    name[LastColon(name) + 1..]
  }

  /** Round trip: a name that matches is its base, then `:`, then its tag. */
  lemma SuffixRoundTrip(name: string)
    requires IsSuffixed(name)
    ensures name == BaseOf(name) + ":" + TagOf(name)
  {
    var i := LastColon(name);
    assert name == name[..i] + ":" + name[i + 1..];
  }

  /**
   * The split is the only one: a name matches with base `base` and tag
   * `tag` exactly when it is `base`, then `:`, then a tag of the class.
   */
  lemma SuffixIff(name: string, base: string, tag: string)
    ensures (IsSuffixed(name) && BaseOf(name) == base && TagOf(name) == tag) <==> (name == base + ":" + tag && IsTag(tag))
  {
    if name == base + ":" + tag && IsTag(tag) {
      SuffixComplete(base, tag);
    }
    if IsSuffixed(name) && BaseOf(name) == base && TagOf(name) == tag {
      SuffixRoundTrip(name);
    }
  }

  /** Appending `:` and a tag yields a name whose split gives back the parts. */
  lemma SuffixComplete(base: string, tag: string)
    requires IsTag(tag)
    ensures IsSuffixed(base + ":" + tag)
    ensures BaseOf(base + ":" + tag) == base && TagOf(base + ":" + tag) == tag
  {
    var name := base + ":" + tag;
    assert name[|base|] == ':';
    assert name[|base| + 1..] == tag;
    assert forall k :: |base| < k < |name| ==> name[k] == tag[k - |base| - 1] && name[k] != ':';
    var i := LastColon(name);
    assert i <= |base|;
    assert i >= |base| by {
      assert ':' !in name[i + 1..];
    }
    assert name[..i] == base;
  }

  /** A name without any `:` has no suffix. */
  lemma NoColonNoSuffix(name: string)
    requires ':' !in name
    ensures !IsSuffixed(name)
  {
  }

  /** `foo:before` splits into `foo` and `before`, `foo:after` into `foo` and `after`. */
  lemma BeforeAfterTags(base: string)
    ensures IsSuffixed(base + ":" + BEFORE) && BaseOf(base + ":" + BEFORE) == base && TagOf(base + ":" + BEFORE) == BEFORE
    ensures IsSuffixed(base + ":" + AFTER) && BaseOf(base + ":" + AFTER) == base && TagOf(base + ":" + AFTER) == AFTER
  {
    assert IsTag(BEFORE) && IsTag(AFTER);
    SuffixComplete(base, BEFORE);
    SuffixComplete(base, AFTER);
  }

  /** Any run of the class characters is a tag, such as `bar`, not only the two words; `baz` is not. */
  lemma OtherTagsMatch()
    ensures IsSuffixed("foo:bar") && BaseOf("foo:bar") == "foo" && TagOf("foo:bar") == "bar"
    ensures !IsSuffixed("foo:baz")
    ensures !IsSuffixed("foo:")
  {
    assert IsTag("bar");
    SuffixComplete("foo", "bar");
    assert "foo:bar" == "foo" + ":" + "bar";
    var i := LastColon("foo:baz");
    assert "foo:baz"[3] == ':';
    assert i == 3;
    assert !IsTagChar('z');
  }
}
