/** The few behaviours of Python's `str` that the client relies on. */
module Text {

  /** `sep.join(parts)`. */
  function Join(sep: string, parts: seq<string>): (joined: string)
  {
    if |parts| == 0 then ""
    else if |parts| == 1 then parts[0]
    else parts[0] + sep + Join(sep, parts[1..])
  }

  /** The characters `str.isspace` accepts, which `str.strip()` removes. */
  predicate IsSpace(c: char)
  {
    var n := c as int;
    (0x09 <= n <= 0x0D) || (0x1C <= n <= 0x20) || n == 0x85 || n == 0xA0 || n == 0x1680
    || (0x2000 <= n <= 0x200A) || n == 0x2028 || n == 0x2029 || n == 0x202F || n == 0x205F
    || n == 0x3000
  }

  /** The index of the first `c` in `s`, or `|s|` when there is none. */
  function IndexOf(s: string, c: char): (i: nat)
    ensures i <= |s|
    ensures i < |s| ==> s[i] == c
    ensures forall j :: 0 <= j < i ==> s[j] != c
  {
    if |s| == 0 then 0
    else if s[0] == c then 0
    else 1 + IndexOf(s[1..], c)
  }

  /** Splitting at the first `c`: what comes before it and what comes after it. */
  lemma SplitAtFirst(a: string, c: char, b: string)
    requires c !in a
    ensures var s := a + [c] + b;
            IndexOf(s, c) == |a| && s[..|a|] == a && s[|a| + 1..] == b
  {
    var s := a + [c] + b;
    assert s[|a|] == c;
    assert s[..|a|] == a;
    assert s[|a| + 1..] == b;
  }

  /** Without a `c`, the search runs to the end. */
  lemma IndexOfAbsent(a: string, c: char)
    requires c !in a
    ensures IndexOf(a, c) == |a|
  {
  }

  /** `s.rstrip()`: `s` without its trailing whitespace. */
  function RStrip(s: string): (r: string)
    ensures r <= s
    ensures r == [] || !IsSpace(r[|r| - 1])
  {
    if |s| > 0 && IsSpace(s[|s| - 1]) then RStrip(s[..|s| - 1]) else s
  }

  /** Everything `rstrip` removes is whitespace. */
  lemma {:induction false} RStripRemovesSpaces(s: string)
    ensures forall i :: |RStrip(s)| <= i < |s| ==> IsSpace(s[i])
  {
    if |s| > 0 && IsSpace(s[|s| - 1]) {
      var init := s[..|s| - 1];
      RStripRemovesSpaces(init);
      forall i | |RStrip(s)| <= i < |s| - 1
        ensures IsSpace(s[i])
      {
        assert s[i] == init[i];
      }
    }
  }

  /** `s.lstrip()`: `s` without its leading whitespace. */
  function LStrip(s: string): (r: string)
    ensures |r| <= |s| && r == s[|s| - |r|..]
    ensures r == [] || !IsSpace(r[0])
  {
    if |s| > 0 && IsSpace(s[0]) then LStrip(s[1..]) else s
  }

  /** Everything `lstrip` removes is whitespace. */
  lemma {:induction false} LStripRemovesSpaces(s: string)
    ensures forall i :: 0 <= i < |s| - |LStrip(s)| ==> IsSpace(s[i])
  {
    if |s| > 0 && IsSpace(s[0]) {
      var tail := s[1..];
      LStripRemovesSpaces(tail);
      forall i | 1 <= i < |s| - |LStrip(s)|
        ensures IsSpace(s[i])
      {
        assert s[i] == tail[i - 1];
      }
    }
  }

  /** `s.startswith(prefix)`. */
  predicate StartsWith(s: string, prefix: string)
  {
    prefix <= s
  }

  /** `s` is not empty and neither starts nor ends with whitespace. */
  predicate Trimmed(s: string)
  {
    |s| > 0 && !IsSpace(s[0]) && !IsSpace(s[|s| - 1])
  }

  /** `s.strip()`. */
  function Strip(s: string): (r: string)
    ensures r == [] || (!IsSpace(r[0]) && !IsSpace(r[|r| - 1]))
  {
    LStrip(RStrip(s))
  }

  /**
   * `strip()` removes whitespace from the two ends and nothing else: its result is a slice
   * of `s`, and every character outside the slice is whitespace.
   */
  lemma StripRemovesSurroundingSpaces(s: string)
    ensures exists i, j :: 0 <= i <= j <= |s| && Strip(s) == s[i..j]
                           && (forall k :: 0 <= k < i ==> IsSpace(s[k]))
                           && (forall k :: j <= k < |s| ==> IsSpace(s[k]))
  {
    var r := RStrip(s);
    var j := |r|;
    var i := |r| - |Strip(s)|;
    assert Strip(s) == s[i..j] by {
      assert r == s[..j];
    }
    assert forall k :: 0 <= k < i ==> IsSpace(s[k]) by {
      LStripRemovesSpaces(r);
      assert r == s[..j];
    }
    assert forall k :: j <= k < |s| ==> IsSpace(s[k]) by {
      RStripRemovesSpaces(s);
    }
  }

  /** The three properties in RStrip's contract determine its result. */
  lemma RStripUnique(s: string, r: string)
    requires r <= s
    requires r == [] || !IsSpace(r[|r| - 1])
    requires forall i :: |r| <= i < |s| ==> IsSpace(s[i])
    ensures RStrip(s) == r
  {
  }

  /** Trailing whitespace after a non-space character never reaches past it. */
  lemma RStripAfter(a: string, c: char, b: string)
    requires !IsSpace(c)
    ensures RStrip(a + [c] + b) == a + [c] + RStrip(b)
  {
    var s := a + [c] + b;
    var r := a + [c] + RStrip(b);
    var rb := RStrip(b);
    RStripRemovesSpaces(b);
    assert r <= s by {
      assert b[..|rb|] == rb;
    }
    forall i | |r| <= i < |s|
      ensures IsSpace(s[i])
    {
      assert s[i] == b[i - |a| - 1];
    }
    RStripUnique(s, r);
  }

  /** Stripping a string that starts with a non-space character only removes its tail. */
  lemma StripIsRStrip(s: string)
    requires |s| > 0 && !IsSpace(s[0])
    ensures Strip(s) == RStrip(s)
  {
    var r := RStrip(s);
    RStripRemovesSpaces(s);
    assert |r| > 0;
    assert r[0] == s[0];
  }

  /** Stripping a text whose prefix `pre` starts and ends with non-spaces removes only `post`'s trailing whitespace. */
  lemma StripAfter(pre: string, post: string)
    requires |pre| > 0 && !IsSpace(pre[0]) && !IsSpace(pre[|pre| - 1])
    ensures Strip(pre + post) == pre + RStrip(post)
  {
    var init := pre[..|pre| - 1];
    assert pre == init + [pre[|pre| - 1]];
    RStripAfter(init, pre[|pre| - 1], post);
    StripIsRStrip(pre + post);
  }

  /**
   * Concatenation is associative.
   * A solver aid: stated over plain variables, so a call site gets it without regrouping concatenations.
   */
  lemma Associate(a: string, b: string, c: string)
    ensures a + b + c == a + (b + c)
  {
  }

  /**
   * Dropping a prefix of a concatenation leaves the rest.
   * A solver aid: stated over plain variables, so a call site gets it without regrouping concatenations.
   */
  lemma DropPrefix(a: string, b: string)
    ensures (a + b)[|a|..] == b
  {
  }

  /**
   * Taking a prefix of a concatenation gives the first part.
   * A solver aid: stated over plain variables, so a call site gets it without regrouping concatenations.
   */
  lemma TakePrefix(a: string, b: string)
    ensures (a + b)[..|a|] == a
  {
  }
}
