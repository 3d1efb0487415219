/**
  Whitespace stripping as done by JavaScript's `String.prototype.trim`, which
  the save, itinerary and packing handlers of the trip store apply to the
  text a user typed before they validate or store it.
 */
module Text {

  /** The characters `trim` strips: ECMAScript's WhiteSpace and LineTerminator. */
  predicate IsSpace(c: char) {
    || c == '\t' || c == '\n' || c == '\U{000B}' || c == '\U{000C}' || c == '\r'
    || c == ' ' || c == '\U{00A0}' || c == '\U{1680}'
    || ('\U{2000}' <= c <= '\U{200A}')
    || c == '\U{2028}' || c == '\U{2029}' || c == '\U{202F}' || c == '\U{205F}'
    || c == '\U{3000}' || c == '\U{FEFF}'
  }

  /** A string made of whitespace only (the empty string included). */
  predicate IsBlank(s: string) {
    forall k :: 0 <= k < |s| ==> IsSpace(s[k])
  }

  /** A string with no whitespace at either end. */
  predicate IsTrimmed(s: string) {
    s != [] ==> !IsSpace(s[0]) && !IsSpace(s[|s| - 1])
  }

  /** `s` with its leading whitespace removed. */
  function TrimStart(s: string): (r: string)
    ensures |r| <= |s|
  {
    if |s| > 0 && IsSpace(s[0]) then TrimStart(s[1..]) else s
  }

  /** `s` with its trailing whitespace removed. */
  function TrimEnd(s: string): (r: string)
    ensures |r| <= |s|
  {
    if |s| > 0 && IsSpace(s[|s| - 1]) then TrimEnd(s[..|s| - 1]) else s
  }

  /** `s.trim()`: `s` without its leading and trailing whitespace. */
  function Trim(s: string): (r: string)
    ensures IsTrimmed(r)
    ensures |r| <= |s|
  {
    var front := TrimStart(s);
    TrimStartSplit(s);
    TrimEndSplit(front);
    TrimEnd(front)
  }

  /** `TrimStart` cuts a blank prefix off and leaves text that does not start with whitespace. */
  lemma {:induction false} TrimStartSplit(s: string)
    ensures var r := TrimStart(s);
            s == s[..|s| - |r|] + r && IsBlank(s[..|s| - |r|])
            && (r != [] ==> !IsSpace(r[0]))
  {
    if |s| > 0 && IsSpace(s[0]) {
      var tail := s[1..];
      TrimStartSplit(tail);
      var r := TrimStart(tail);
      var cut := tail[..|tail| - |r|];
      assert s == [s[0]] + tail;
      assert s[..|s| - |r|] == [s[0]] + cut;
    } else {
      assert s[..0] == [];
    }
  }

  /** `TrimEnd` cuts a blank suffix off and leaves text that does not end with whitespace. */
  lemma {:induction false} TrimEndSplit(s: string)
    ensures var r := TrimEnd(s);
            s == r + s[|r|..] && IsBlank(s[|r|..])
            && (r != [] ==> !IsSpace(r[|r| - 1]) && r[0] == s[0])
  {
    if |s| > 0 && IsSpace(s[|s| - 1]) {
      var init, last := s[..|s| - 1], s[|s| - 1];
      assert TrimEnd(s) == TrimEnd(init);
      TrimEndSplit(init);
      var r := TrimEnd(init);
      var cut := init[|r|..];
      assert s == init + [last];
      DropOfSnoc(init, last, |r|);
      assert IsBlank([last]);
      BlankConcat(cut, [last]);
      assert s == r + (cut + [last]);
    } else {
      assert s[|s|..] == [];
    }
  }

  lemma DropOfSnoc(init: string, last: char, m: nat)
    requires m <= |init|
    ensures (init + [last])[m..] == init[m..] + [last]
  {
  }

  /** Two blank strings make a blank string. */
  lemma BlankConcat(a: string, b: string)
    requires IsBlank(a) && IsBlank(b)
    ensures IsBlank(a + b)
  {
    forall k | 0 <= k < |a + b| ensures IsSpace((a + b)[k]) {
      if k >= |a| { assert (a + b)[k] == b[k - |a|]; }
    }
  }

  /** Trimming strips only whitespace: the input is blank text, the trim, and blank text again. */
  lemma TrimSplit(s: string)
    ensures var i := |s| - |TrimStart(s)|;
            var j := i + |Trim(s)|;
            j <= |s| && s == s[..i] + Trim(s) + s[j..]
            && IsBlank(s[..i]) && IsBlank(s[j..])
  {
    var front := TrimStart(s);
    var r := TrimEnd(front);
    var i := |s| - |front|;
    TrimStartSplit(s);
    TrimEndSplit(front);
    var lead, trail := s[..i], front[|r|..];
    assert s == lead + r + trail;
    assert s[i + |r|..] == trail;
  }

  /** `trim` yields the empty string exactly for blank input. */
  lemma TrimEmptyIffBlank(s: string)
    ensures Trim(s) == [] <==> IsBlank(s)
  {
    TrimSplit(s);
    var i := |s| - |TrimStart(s)|;
    var r := Trim(s);
    var lead, trail := s[..i], s[i + |r|..];
    if r == [] {
      assert s == lead + trail;
      BlankConcat(lead, trail);
    } else {
      assert r[0] == s[i] && !IsSpace(s[i]);
    }
  }

  /** The strings `trim` leaves alone are exactly those with no whitespace at either end. */
  lemma TrimFixedIff(s: string)
    ensures Trim(s) == s <==> IsTrimmed(s)
  {
    if s != [] && IsTrimmed(s) {
      assert TrimStart(s) == s;
      assert TrimEnd(s) == s;
    }
  }

  /** Trimming twice is trimming once. */
  lemma TrimIdempotent(s: string)
    ensures Trim(Trim(s)) == Trim(s)
  {
    TrimFixedIff(Trim(s));
  }

  /** Leading whitespace in front of text that does not start with whitespace is all `TrimStart` removes. */
  lemma {:induction false} TrimStartSkipsBlank(w: string, t: string)
    requires IsBlank(w) && (t != [] ==> !IsSpace(t[0]))
    ensures TrimStart(w + t) == t
  {
    if w == [] {
      assert w + t == t;
    } else {
      assert (w + t)[1..] == w[1..] + t;
      TrimStartSkipsBlank(w[1..], t);
    }
  }

  /** Trailing whitespace after text that does not end with whitespace is all `TrimEnd` removes. */
  lemma {:induction false} TrimEndSkipsBlank(t: string, w: string)
    requires IsBlank(w) && (t != [] ==> !IsSpace(t[|t| - 1]))
    ensures TrimEnd(t + w) == t
  {
    if w == [] {
      assert t + w == t;
    } else {
      var n := |w|;
      assert (t + w)[..|t + w| - 1] == t + w[..n - 1];
      TrimEndSkipsBlank(t, w[..n - 1]);
    }
  }

  /**
    The trim of a string is determined by its shape: whatever blank text
    surrounds a middle part with no whitespace at its ends, the trim is
    exactly that middle part.
   */
  lemma TrimOfPadded(before: string, middle: string, after: string)
    requires IsBlank(before) && IsBlank(after) && IsTrimmed(middle)
    ensures Trim(before + middle + after) == middle
  {
    if middle == [] {
      assert before + middle + after == before + after;
      BlankConcat(before, after);
      TrimEmptyIffBlank(before + after);
    } else {
      assert before + middle + after == before + (middle + after);
      TrimStartSkipsBlank(before, middle + after);
      TrimEndSkipsBlank(middle, after);
    }
  }

  /** Whitespace added around a string never reaches the trimmed result. */
  lemma TrimIgnoresPadding(before: string, s: string, after: string)
    requires IsBlank(before) && IsBlank(after)
    ensures Trim(before + s + after) == Trim(s)
  {
    TrimSplit(s);
    var i := |s| - |TrimStart(s)|;
    var r := Trim(s);
    var lead, trail := s[..i], s[i + |r|..];
    assert before + s + after == (before + lead) + r + (trail + after);
    BlankConcat(before, lead);
    BlankConcat(trail, after);
    TrimOfPadded(before + lead, r, trail + after);
  }
}
