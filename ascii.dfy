/**
 * ASCII stand-ins for JavaScript's String.prototype.toLowerCase and
 * String.prototype.trim, and for String.prototype.startsWith.
 */
module Ascii {

  function LowerChar(c: char): char {
    if 'A' <= c <= 'Z' then (c as int + 32) as char else c
  }

  /** toLowerCase: every ASCII upper-case letter mapped to its lower-case form. */
  function Lower(s: string): string {
    seq(|s|, i requires 0 <= i < |s| => LowerChar(s[i]))
  }

  /** The ASCII characters trim removes: tab, line feed, vertical tab, form feed, carriage return, space. */
  predicate IsSpace(c: char) {
    c == ' ' || c == '\t' || c == '\n' || c == '\U{B}' || c == '\U{C}' || c == '\r'
  }

  predicate AllSpace(s: string) {
    forall i :: 0 <= i < |s| ==> IsSpace(s[i])
  }

  function TrimStart(s: string): string
    decreases |s|
  {
    if |s| > 0 && IsSpace(s[0]) then TrimStart(s[1..]) else s
  }

  function TrimEnd(s: string): string
    decreases |s|
  {
    if |s| > 0 && IsSpace(s[|s| - 1]) then TrimEnd(s[..|s| - 1]) else s
  }

  /** trim: leading and trailing white space removed. */
  function Trim(s: string): string {
    TrimEnd(TrimStart(s))
  }

  predicate StartsWith(s: string, prefix: string) {
    |prefix| <= |s| && s[..|prefix|] == prefix
  }

  lemma LowerIdempotent(s: string)
    ensures Lower(Lower(s)) == Lower(s)
  {
  }

  lemma LowerAppend(a: string, b: string)
    ensures Lower(a + b) == Lower(a) + Lower(b)
  {
  }

  lemma LowerKeepsSpace(s: string)
    requires AllSpace(s)
    ensures Lower(s) == s
  {
  }

  lemma {:induction false} TrimStartSkipsSpace(w: string, t: string)
    requires AllSpace(w)
    ensures TrimStart(w + t) == TrimStart(t)
    decreases |w|
  {
    if |w| > 0 {
      assert (w + t)[1..] == w[1..] + t;
      TrimStartSkipsSpace(w[1..], t);
    } else {
      assert w + t == t;
    }
  }

  lemma {:induction false} TrimEndSkipsSpace(t: string, w: string)
    requires AllSpace(w)
    ensures TrimEnd(t + w) == TrimEnd(t)
    decreases |w|
  {
    if |w| > 0 {
      assert (t + w)[..|t + w| - 1] == t + w[..|w| - 1];
      TrimEndSkipsSpace(t, w[..|w| - 1]);
    } else {
      assert t + w == t;
    }
  }

  /** TrimStart of s + w: all of it goes when s is white space, else w survives whole. */
  lemma {:induction false} TrimStartAppend(s: string, w: string)
    requires AllSpace(w)
    ensures AllSpace(s) ==> TrimStart(s + w) == ""
    ensures !AllSpace(s) ==> TrimStart(s + w) == TrimStart(s) + w
    decreases |s|
  {
    if |s| == 0 {
      assert s + w == w;
      TrimStartSkipsSpace(w, "");
      assert w + "" == w;
    } else if IsSpace(s[0]) {
      assert (s + w)[1..] == s[1..] + w;
      TrimStartAppend(s[1..], w);
    }
  }

  lemma TrimEmptyWhenAllSpace(s: string)
    requires AllSpace(s)
    ensures TrimStart(s) == ""
  {
  }

  /** Lower-casing and trimming a padded string gives the same key as the string itself. */
  lemma KeyFormIgnoresPadding(w1: string, s: string, w2: string)
    requires AllSpace(w1) && AllSpace(w2)
    ensures Trim(Lower(w1 + s + w2)) == Trim(Lower(s))
  {
    LowerAppend(w1 + s, w2);
    LowerAppend(w1, s);
    LowerKeepsSpace(w1);
    LowerKeepsSpace(w2);
    var t := Lower(s);
    assert Lower(w1 + s + w2) == w1 + (t + w2);
    TrimStartSkipsSpace(w1, t + w2);
    TrimStartAppend(t, w2);
    if AllSpace(t) {
      TrimEmptyWhenAllSpace(t);
    } else {
      TrimEndSkipsSpace(TrimStart(t), w2);
    }
  }
}
