/** String operations the modelled code takes from Python: `str.strip`,
    `str.endswith`, and `re.sub` with a pattern of the form `<literal>\s*`. */
module Text {

  /** The characters `str.isspace` accepts, which are the ones `str.strip()`
      removes and `\s` matches in a `str` pattern: the ASCII controls
      U+0009-U+000D and U+001C-U+001F, the space, and the Unicode separators. */
  predicate IsSpace(c: char) {
    || '\U{0009}' <= c <= '\U{000D}'
    || '\U{001C}' <= c <= '\U{0020}'
    || c == '\U{0085}' || c == '\U{00A0}' || c == '\U{1680}'
    || '\U{2000}' <= c <= '\U{200A}'
    || c == '\U{2028}' || c == '\U{2029}' || c == '\U{202F}' || c == '\U{205F}' || c == '\U{3000}'
  }

  /** Every character of `w` is whitespace. */
  predicate AllSpace(w: string) {
    forall k :: 0 <= k < |w| ==> IsSpace(w[k])
  }

  predicate StartsWith(s: string, prefix: string) {
    |prefix| <= |s| && s[..|prefix|] == prefix
  }

  predicate EndsWith(s: string, suffix: string) {
    |suffix| <= |s| && s[|s| - |suffix|..] == suffix
  }

  /** `pattern` occurs in `s` starting at position `i`. */
  predicate OccursAt(s: string, pattern: string, i: int) {
    0 <= i && i + |pattern| <= |s| && s[i..i + |pattern|] == pattern
  }

  /** `pattern` occurs somewhere in `s`. */
  predicate Contains(s: string, pattern: string) {
    exists i | 0 <= i <= |s| :: OccursAt(s, pattern, i)
  }

  function TrimLeft(s: string): (r: string)
    ensures |r| <= |s| && r == s[|s| - |r|..]
    ensures forall k :: 0 <= k < |s| - |r| ==> IsSpace(s[k])
    ensures |r| > 0 ==> !IsSpace(r[0])
    decreases |s|
  {
    if |s| > 0 && IsSpace(s[0]) then TrimLeft(s[1..]) else s
  }

  function TrimRight(s: string): (r: string)
    ensures |r| <= |s| && r == s[..|r|]
    ensures forall k :: |r| <= k < |s| ==> IsSpace(s[k])
    ensures |r| > 0 ==> !IsSpace(r[|r| - 1])
    decreases |s|
  {
    if |s| > 0 && IsSpace(s[|s| - 1]) then TrimRight(s[..|s| - 1]) else s
  }

  /** Python's `str.strip()`: the infix left after removing leading and
      trailing whitespace. */
  function Trim(s: string): (r: string)
    ensures exists a, b ::
              && 0 <= a <= b <= |s| && r == s[a..b]
              && (forall k :: 0 <= k < a ==> IsSpace(s[k]))
              && (forall k :: b <= k < |s| ==> IsSpace(s[k]))
    ensures |r| > 0 ==> !IsSpace(r[0]) && !IsSpace(r[|r| - 1])
  {
    var left := TrimLeft(s);
    var r := TrimRight(left);
    var a := |s| - |left|;
    assert r == s[a..a + |r|];
    r
  }

  /** `re.sub(re.escape(marker) + r'\s*', '', s)`: scanning left to right,
      every occurrence of `marker` is deleted together with the whitespace run
      that follows it. */
  function RemoveMarker(s: string, marker: string): string
    requires |marker| > 0
    decreases |s|
  {
    if |s| == 0 then
      ""
    else if StartsWith(s, marker) then
      RemoveMarker(TrimLeft(s[|marker|..]), marker)
    else
      [s[0]] + RemoveMarker(s[1..], marker)
  }

  /** A string in which the marker never occurs passes through unchanged. */
  lemma {:induction false} RemoveMarkerAbsent(s: string, marker: string)
    requires |marker| > 0
    requires !Contains(s, marker)
    ensures RemoveMarker(s, marker) == s
    decreases |s|
  {
    if |s| > 0 {
      assert !StartsWith(s, marker) by {
        if StartsWith(s, marker) {
          assert OccursAt(s, marker, 0);
        }
      }
      InfixLacks(s, 1, |s|, marker);
      assert s[1..|s|] == s[1..];
      RemoveMarkerAbsent(s[1..], marker);
    }
  }

  /** Leading whitespace is skipped by `TrimLeft` as if it were absent. */
  lemma {:induction false} TrimLeftSkipsSpace(w: string, s: string)
    requires AllSpace(w)
    ensures TrimLeft(w + s) == TrimLeft(s)
    decreases |w|
  {
    if |w| == 0 {
      assert w + s == s;
    } else {
      assert (w + s)[1..] == w[1..] + s;
      TrimLeftSkipsSpace(w[1..], s);
    }
  }

  /** Trailing whitespace is skipped by `TrimRight` as if it were absent. */
  lemma {:induction false} TrimRightSkipsSpace(s: string, w: string)
    requires AllSpace(w)
    ensures TrimRight(s + w) == TrimRight(s)
    decreases |w|
  {
    if |w| == 0 {
      assert s + w == s;
    } else {
      var init := w[..|w| - 1];
      assert (s + w)[..|s + w| - 1] == s + init;
      TrimRightSkipsSpace(s, init);
    }
  }

  /** Helper: text appended after a non-blank string survives `TrimLeft`;
      after a blank string, only the appended text is left-trimmed. */
  lemma {:induction false} TrimLeftAppend(s: string, y: string)
    ensures |TrimLeft(s)| > 0 ==> TrimLeft(s + y) == TrimLeft(s) + y
    ensures |TrimLeft(s)| == 0 ==> TrimLeft(s + y) == TrimLeft(y)
    decreases |s|
  {
    if |s| == 0 {
      assert s + y == y;
    } else if IsSpace(s[0]) {
      assert (s + y)[1..] == s[1..] + y;
      TrimLeftAppend(s[1..], y);
    }
  }

  /** Stripping ignores whitespace added in front. */
  lemma TrimPadLeft(w: string, s: string)
    requires AllSpace(w)
    ensures Trim(w + s) == Trim(s)
  {
    TrimLeftSkipsSpace(w, s);
  }

  /** Stripping ignores whitespace added behind. */
  lemma TrimPadRight(s: string, w: string)
    requires AllSpace(w)
    ensures Trim(s + w) == Trim(s)
  {
    TrimLeftAppend(s, w);
    if |TrimLeft(s)| == 0 {
      TrimLeftSkipsSpace(w, "");
      assert w + "" == w;
    } else {
      TrimRightSkipsSpace(TrimLeft(s), w);
    }
  }

  /** Stripping ignores whitespace added at either end. */
  lemma TrimPadded(w0: string, s: string, w1: string)
    requires AllSpace(w0) && AllSpace(w1)
    ensures Trim(w0 + s + w1) == Trim(s)
  {
    assert w0 + s + w1 == w0 + (s + w1);
    TrimPadLeft(w0, s + w1);
    TrimPadRight(s, w1);
  }

  /** Characters that cannot begin the marker are copied through as they are. */
  lemma {:induction false} RemoveMarkerKeepsPrefix(x: string, y: string, marker: string)
    requires |marker| > 0
    requires forall k :: 0 <= k < |x| ==> x[k] != marker[0]
    ensures RemoveMarker(x + y, marker) == x + RemoveMarker(y, marker)
    decreases |x|
  {
    if |x| == 0 {
      assert x + y == y;
    } else {
      var s := x + y;
      if |marker| <= |s| {
        assert s[..|marker|][0] == x[0];
      }
      assert s[1..] == x[1..] + y;
      RemoveMarkerKeepsPrefix(x[1..], y, marker);
      assert [x[0]] + x[1..] == x;
    }
  }

  /** A marker is deleted together with the whitespace run after it. */
  lemma RemoveMarkerSkipsSpace(marker: string, w: string, s: string)
    requires |marker| > 0
    requires AllSpace(w)
    ensures RemoveMarker(marker + w + s, marker) == RemoveMarker(TrimLeft(s), marker)
  {
    var u := marker + w + s;
    assert u[..|marker|] == marker;
    assert u[|marker|..] == w + s;
    TrimLeftSkipsSpace(w, s);
  }

  const Fence: string := "```"

  /** Helper: a first character that does not begin the marker is kept. */
  lemma RemoveMarkerKeepsFirst(s: string, marker: string)
    requires |marker| > 0 && |s| > 0 && !StartsWith(s, marker)
    ensures RemoveMarker(s, marker) == [s[0]] + RemoveMarker(s[1..], marker)
  {
  }

  /** `s` begins with two backticks. */
  predicate OpensWithTwoTicks(s: string) {
    |s| >= 2 && s[0] == '`' && s[1] == '`'
  }

  /** Helper: a string that does not start with two backticks keeps that
      property through fence removal. */
  lemma NoDoubleTickStart(u: string)
    requires !OpensWithTwoTicks(u)
    ensures !OpensWithTwoTicks(RemoveMarker(u, Fence))
  {
    if |u| > 0 {
      if |u| >= 3 {
        assert u[..3][1] == u[1];
      }
      RemoveMarkerKeepsFirst(u, Fence);
      if u[0] == '`' && |u| > 1 {
        var v := u[1..];
        if |v| >= 3 {
          assert v[..3][0] == v[0];
        }
        RemoveMarkerKeepsFirst(v, Fence);
      }
    }
  }

  /** Helper: prefixing one character creates a fence only when it is a
      backtick in front of two more. */
  lemma ConsLacksFence(c: char, t: string)
    requires !Contains(t, Fence)
    requires c == '`' ==> !OpensWithTwoTicks(t)
    ensures !Contains([c] + t, Fence)
  {
    var r := [c] + t;
    forall i | 0 <= i <= |r|
      ensures !OccursAt(r, Fence, i)
    {
      if i == 0 {
        if |t| >= 2 {
          assert r[0..3] == [c, t[0], t[1]];
          assert t[..2] == [t[0], t[1]];
        }
      } else {
        assert !OccursAt(t, Fence, i - 1);
        if i + 3 <= |r| {
          assert r[i..i + 3] == t[i - 1..i + 2];
        }
      }
    }
  }

  /** After `re.sub(r'```\s*', '', s)` no run of three backticks is left:
      deletion never joins backticks, because the character kept just before a
      deleted fence is never a backtick. */
  lemma {:induction false} RemoveFenceLeavesNoFence(s: string)
    ensures !Contains(RemoveMarker(s, Fence), Fence)
    decreases |s|
  {
    if |s| > 0 {
      if StartsWith(s, Fence) {
        var rest := TrimLeft(s[|Fence|..]);
        assert RemoveMarker(s, Fence) == RemoveMarker(rest, Fence);
        RemoveFenceLeavesNoFence(rest);
      } else {
        RemoveFenceLeavesNoFence(s[1..]);
        KeptCharLacksFence(s);
      }
    }
  }

  /** Helper: a first character that does not open a fence is kept, and
      keeping it creates no fence. */
  lemma KeptCharLacksFence(s: string)
    requires |s| > 0 && !StartsWith(s, Fence)
    requires !Contains(RemoveMarker(s[1..], Fence), Fence)
    ensures !Contains(RemoveMarker(s, Fence), Fence)
  {
    var tail := RemoveMarker(s[1..], Fence);
    assert RemoveMarker(s, Fence) == [s[0]] + tail;
    if s[0] == '`' {
      if |s| >= 3 {
        assert s[..3] == [s[0]] + s[1..][..2];
      }
      NoDoubleTickStart(s[1..]);
    }
    ConsLacksFence(s[0], tail);
  }

  /** A string without the pattern keeps it absent in every infix. */
  lemma InfixLacks(s: string, a: int, b: int, pattern: string)
    requires 0 <= a <= b <= |s|
    requires !Contains(s, pattern)
    ensures !Contains(s[a..b], pattern)
  {
    var w := s[a..b];
    forall i | 0 <= i <= |w|
      ensures !OccursAt(w, pattern, i)
    {
      if i + |pattern| <= |w| {
        assert !OccursAt(s, pattern, a + i);
        forall j | i <= j < i + |pattern|
          ensures w[j] == s[a + j]
        {
        }
        assert w[i..i + |pattern|] == s[a + i..a + i + |pattern|];
      }
    }
  }

  /** `str.strip()` leaves a string unchanged exactly when neither of its
      ends is whitespace. */
  lemma TrimFixedPoints(s: string)
    ensures Trim(s) == s <==> |s| == 0 || (!IsSpace(s[0]) && !IsSpace(s[|s| - 1]))
  {
    if |s| > 0 && !IsSpace(s[0]) && !IsSpace(s[|s| - 1]) {
      assert TrimLeft(s) == s;
      assert TrimRight(s) == s;
    }
  }

  /** `str.strip()` is idempotent. */
  lemma TrimIdempotent(s: string)
    ensures Trim(Trim(s)) == Trim(s)
  {
    TrimFixedPoints(Trim(s));
  }
}
