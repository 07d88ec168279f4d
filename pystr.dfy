/**
 * The parts of Python's `str` that the question handler relies on:
 * `str.strip()` with no argument, `'\n'.join(lines)` and, as its inverse,
 * `str.split('\n')`.
 */
module PyStr {

  /** `c.isspace()`: the characters Python treats as whitespace. */
  predicate IsSpace(c: char) {
    ('\t' <= c <= '\r') || ('\U{1c}' <= c <= ' ') || c == '\U{85}' || c == '\U{a0}' ||
    c == '\U{1680}' || ('\U{2000}' <= c <= '\U{200a}') || c == '\U{2028}' || c == '\U{2029}' ||
    c == '\U{202f}' || c == '\U{205f}' || c == '\U{3000}'
  }

  predicate AllSpace(s: string) {
    forall k :: 0 <= k < |s| ==> IsSpace(s[k])
  }

  /** Drops the leading whitespace. */
  function StripLeft(s: string): string {
    if s != [] && IsSpace(s[0]) then StripLeft(s[1..]) else s
  }

  /** Drops the trailing whitespace. */
  function StripRight(s: string): string {
    if s != [] && IsSpace(s[|s| - 1]) then StripRight(s[..|s| - 1]) else s
  }

  /** What `StripLeft` keeps is a suffix of `s` that does not start with whitespace, and all it drops is whitespace. */
  lemma {:induction false} StripLeftSuffix(s: string)
    ensures |StripLeft(s)| <= |s| && StripLeft(s) == s[|s| - |StripLeft(s)|..]
    ensures AllSpace(s[..|s| - |StripLeft(s)|])
    ensures StripLeft(s) == [] || !IsSpace(StripLeft(s)[0])
  {
    if s != [] && IsSpace(s[0]) {
      StripLeftSuffix(s[1..]);
      var n := |s| - |StripLeft(s)|;
      assert s[..n] == [s[0]] + s[1..][..n - 1];
    }
  }

  /** What `StripRight` keeps is a prefix of `s` that does not end with whitespace, and all it drops is whitespace. */
  lemma {:induction false} StripRightPrefix(s: string)
    ensures |StripRight(s)| <= |s| && StripRight(s) == s[..|StripRight(s)|]
    ensures AllSpace(s[|StripRight(s)|..])
    ensures StripRight(s) == [] || !IsSpace(StripRight(s)[|StripRight(s)| - 1])
  {
    if s != [] && IsSpace(s[|s| - 1]) {
      var init := s[..|s| - 1];
      StripRightPrefix(init);
      var n := |StripRight(s)|;
      assert s[n..] == init[n..] + [s[|s| - 1]];
    }
  }

  /**
   * `s.strip()`: what is left once all leading and trailing whitespace is
   * removed. It is empty exactly when `s` is all whitespace, and otherwise
   * starts and ends with a non-whitespace character.
   */
  function Strip(s: string): (r: string)
    ensures |r| <= |s|
    ensures r == [] || (!IsSpace(r[0]) && !IsSpace(r[|r| - 1]))
    ensures r == [] <==> AllSpace(s)
  {
    var left := StripLeft(s);
    var r := StripRight(left);
    StripLeftSuffix(s);
    StripRightPrefix(left);
    assert r != [] ==> r[0] == left[0];
    assert r == [] ==> AllSpace(s) by {
      if r == [] {
        assert left == [] by { assert left[|r|..] == left; }
        assert s[..|s|] == s;
      }
    }
    assert r != [] ==> !AllSpace(s) by {
      if r != [] { assert s[|s| - |left|] == r[0]; }
    }
    r
  }

  /** A string with no whitespace at either end is its own `strip()`. */
  lemma {:induction false} StripUnpadded(s: string)
    requires s == [] || (!IsSpace(s[0]) && !IsSpace(s[|s| - 1]))
    ensures Strip(s) == s
  {
    assert StripLeft(s) == s;
    assert StripRight(s) == s;
  }

  /** Whitespace padding on either side is what `strip()` removes. */
  lemma {:induction false} StripPadded(pre: string, s: string, post: string)
    requires AllSpace(pre) && AllSpace(post)
    requires s != [] && !IsSpace(s[0]) && !IsSpace(s[|s| - 1])
    ensures Strip(pre + s + post) == s
  {
    var t := pre + s + post;
    assert t == pre + (s + post);
    assert StripLeft(t) == s + post by { StripLeftPadded(pre, s + post); }
    assert StripRight(s + post) == s by { StripRightPadded(s, post); }
  }

  lemma {:induction false} StripLeftPadded(pre: string, s: string)
    requires AllSpace(pre)
    requires s != [] && !IsSpace(s[0])
    ensures StripLeft(pre + s) == s
  {
    if pre != [] {
      assert (pre + s)[1..] == pre[1..] + s;
      StripLeftPadded(pre[1..], s);
    } else {
      assert pre + s == s;
    }
  }

  lemma {:induction false} StripRightPadded(s: string, post: string)
    requires AllSpace(post)
    requires s != [] && !IsSpace(s[|s| - 1])
    ensures StripRight(s + post) == s
  {
    if post != [] {
      var last := |post| - 1;
      assert (s + post)[..|s + post| - 1] == s + post[..last];
      StripRightPadded(s, post[..last]);
    } else {
      assert s + post == s;
    }
  }

  /** `''.join(pieces)`, as adjacent string literals are joined: every piece fits, and the first starts it. */
  function Concat(pieces: seq<string>): (r: string)
    ensures forall i :: 0 <= i < |pieces| ==> |pieces[i]| <= |r|
    ensures pieces != [] ==> pieces[0] <= r
  {
    if pieces == [] then ""
    else
      var rest := Concat(pieces[1..]);
      assert forall i :: 1 <= i < |pieces| ==> pieces[i] == pieces[1..][i - 1];
      pieces[0] + rest
  }

  /** No character of `s` is a newline. */
  predicate SingleLine(s: string) {
    forall k :: 0 <= k < |s| ==> s[k] != '\n'
  }

  /** Joining pieces that hold no newline gives a string that holds none. */
  lemma {:induction false} ConcatSingleLine(pieces: seq<string>)
    requires forall i :: 0 <= i < |pieces| ==> SingleLine(pieces[i])
    ensures '\n' !in Concat(pieces)
  {
    if pieces != [] {
      ConcatSingleLine(pieces[1..]);
      assert SingleLine(pieces[0]);
      assert '\n' !in pieces[0];
    }
  }

  /** `'\n'.join(lines)`: the first line starts it, and a newline ends it when more lines follow. */
  function JoinLines(lines: seq<string>): (r: string)
    ensures lines != [] ==> lines[0] <= r
    ensures |lines| >= 2 ==> |r| > |lines[0]| && r[|lines[0]|] == '\n'
  {
    if |lines| == 0 then ""
    else if |lines| == 1 then lines[0]
    else lines[0] + "\n" + JoinLines(lines[1..])
  }

  /** `s.split('\n')`: always at least one piece, and no piece holds a newline. */
  function SplitLines(s: string): (r: seq<string>)
    ensures |r| >= 1
    ensures forall k :: 0 <= k < |r| ==> '\n' !in r[k]
  {
    if s == [] then [""]
    else
      var rest := SplitLines(s[1..]);
      if s[0] == '\n' then [""] + rest else [[s[0]] + rest[0]] + rest[1..]
  }

  /** Joining the pieces of a split gives back the original string. */
  lemma {:induction false} JoinSplit(s: string)
    ensures JoinLines(SplitLines(s)) == s
  {
    if s != [] {
      var rest := SplitLines(s[1..]);
      JoinSplit(s[1..]);
      if s[0] == '\n' {
        assert SplitLines(s) == [""] + rest;
        assert ([""] + rest)[1..] == rest;
      } else if |rest| == 1 {
        assert SplitLines(s) == [[s[0]] + rest[0]];
      } else {
        var lines := [[s[0]] + rest[0]] + rest[1..];
        assert lines[1..] == rest[1..];
        assert JoinLines(rest) == rest[0] + "\n" + JoinLines(rest[1..]);
      }
    }
  }

  /** Splitting joined newline-free lines gives back the lines. */
  lemma {:induction false} SplitJoin(lines: seq<string>)
    requires |lines| >= 1
    requires forall k :: 0 <= k < |lines| ==> '\n' !in lines[k]
    ensures SplitLines(JoinLines(lines)) == lines
  {
    if |lines| == 1 {
      SplitPrefix(lines[0], "");
      assert lines[0] + "" == lines[0];
    } else {
      SplitJoin(lines[1..]);
      var tail := "\n" + JoinLines(lines[1..]);
      SplitPrefix(lines[0], tail);
      assert tail[0] == '\n' && tail[1..] == JoinLines(lines[1..]);
      assert SplitLines(tail) == [""] + lines[1..];
      assert JoinLines(lines) == lines[0] + tail;
      assert lines[0] + SplitLines(tail)[0] == lines[0];
      assert SplitLines(tail)[1..] == lines[1..];
      assert [lines[0]] + lines[1..] == lines;
    }
  }

  /** A newline-free prefix glues onto the first piece of the split of what follows it. */
  lemma {:induction false} SplitPrefix(a: string, rest: string)
    requires '\n' !in a
    ensures SplitLines(a + rest) == [a + SplitLines(rest)[0]] + SplitLines(rest)[1..]
  {
    if a == [] {
      assert a + rest == rest;
      assert a + SplitLines(rest)[0] == SplitLines(rest)[0];
      assert [SplitLines(rest)[0]] + SplitLines(rest)[1..] == SplitLines(rest);
    } else {
      assert a[0] in a;
      assert (a + rest)[1..] == a[1..] + rest;
      assert '\n' !in a[1..] by {
        forall k | 0 <= k < |a[1..]| ensures a[1..][k] != '\n' { assert a[1..][k] == a[k + 1]; }
      }
      SplitPrefix(a[1..], rest);
      assert [a[0]] + (a[1..] + SplitLines(rest)[0]) == a + SplitLines(rest)[0];
    }
  }
}
