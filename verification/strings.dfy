/**
 * The JavaScript string operations the client relies on, written out:
 * `split('\n')`, `startsWith`, `slice(0, n)` and `trim()`.
 */
module Strings {

  /** `s.startsWith(p)`: `s` begins with the characters of `p`, one by one. */
  predicate StartsWith(s: string, p: string): (r: bool)
    ensures r <==> |p| <= |s| && forall i :: 0 <= i < |p| ==> s[i] == p[i]
  {
    |p| <= |s| && s[..|p|] == p
  }

  /** `s.slice(0, n)` for n >= 0: at most the first n characters. */
  function Take(s: string, n: nat): (r: string)
    ensures |r| == if |s| < n then |s| else n
    ensures r <= s
  {
    if |s| < n then s else s[..n]
  }

  /** `s.split('\n')`: the pieces between newlines, always at least one. */
  function SplitLines(s: string): (r: seq<string>)
    ensures |r| >= 1
    ensures forall i :: 0 <= i < |r| ==> '\n' !in r[i]
    decreases |s|
  {
    if s == [] then [""]
    else if s[0] == '\n' then [""] + SplitLines(s[1..])
    else
      var rest := SplitLines(s[1..]);
      [[s[0]] + rest[0]] + rest[1..]
  }

  /** `lines.join('\n')`. */
  function JoinLines(lines: seq<string>): string
    requires |lines| >= 1
  {
    if |lines| == 1 then lines[0] else lines[0] + "\n" + JoinLines(lines[1..])
  }

  /** Each line followed by its terminating newline, all concatenated. */
  function Terminated(lines: seq<string>): string {
    if lines == [] then "" else lines[0] + "\n" + Terminated(lines[1..])
  }

  function Init<T>(s: seq<T>): seq<T> requires |s| >= 1 { s[..|s| - 1] }

  function Last<T>(s: seq<T>): T requires |s| >= 1 { s[|s| - 1] }

  /** Joining the pieces of a split gives back the text. */
  lemma {:induction false} JoinSplitLines(s: string)
    ensures JoinLines(SplitLines(s)) == s
    decreases |s|
  {
    if s == [] {
    } else if s[0] == '\n' {
      JoinSplitLines(s[1..]);
      assert s == "\n" + s[1..];
    } else {
      JoinSplitLines(s[1..]);
      var rest := SplitLines(s[1..]);
      if |rest| == 1 {
        assert s == [s[0]] + s[1..];
      } else {
        assert rest == [rest[0]] + rest[1..];
        assert JoinLines(rest) == rest[0] + "\n" + JoinLines(rest[1..]);
        assert s == [s[0]] + s[1..];
      }
    }
  }

  /** Splitting newline-free pieces joined by newlines gives back the pieces. */
  lemma {:induction false} SplitJoinLines(lines: seq<string>)
    requires |lines| >= 1
    requires forall i :: 0 <= i < |lines| ==> '\n' !in lines[i]
    ensures SplitLines(JoinLines(lines)) == lines
    decreases |lines|, |lines[0]|
  {
    var head := lines[0];
    if head == [] {
      if |lines| == 1 {
      } else {
        SplitJoinLines(lines[1..]);
        assert JoinLines(lines) == "\n" + JoinLines(lines[1..]);
        assert lines == [""] + lines[1..];
      }
    } else {
      var shorter := [head[1..]] + lines[1..];
      assert head[1..] == [] || '\n' !in head[1..];
      SplitJoinLines(shorter);
      assert JoinLines(lines) == [head[0]] + JoinLines(shorter) by {
        if |lines| > 1 {
          assert shorter[1..] == lines[1..];
          assert head == [head[0]] + head[1..];
        }
      }
      assert head[0] != '\n' by { assert head[0] in head; }
      assert (JoinLines(lines))[1..] == JoinLines(shorter);
      assert [head[0]] + head[1..] == head;
    }
  }

  /** The pieces of a split, except the last, are exactly the terminated lines. */
  lemma {:induction false} SplitTerminated(s: string)
    ensures s == Terminated(Init(SplitLines(s))) + Last(SplitLines(s))
    decreases |s|
  {
    var r := SplitLines(s);
    if s == [] {
    } else if s[0] == '\n' {
      SplitTerminated(s[1..]);
      TerminatedNewline(s);
    } else {
      SplitTerminated(s[1..]);
      TerminatedOther(s[0], s[1..]);
      assert s == [s[0]] + s[1..];
    }
  }

  /** Step of SplitTerminated when the text starts with a newline. */
  lemma TerminatedNewline(s: string)
    requires s != [] && s[0] == '\n'
    requires s[1..] == Terminated(Init(SplitLines(s[1..]))) + Last(SplitLines(s[1..]))
    ensures s == Terminated(Init(SplitLines(s))) + Last(SplitLines(s))
  {
    var r1 := SplitLines(s[1..]);
    var r := SplitLines(s);
    assert r == [""] + r1;
    PrependInitLast("", r1);
    var init := Init(r);
    assert init[0] == "" && init[1..] == Init(r1);
    assert Terminated(init) == "" + "\n" + Terminated(Init(r1));
    assert s == [s[0]] + s[1..];
    Regroup("", "\n", Terminated(Init(r1)), Last(r1));
  }

  /** Step of SplitTerminated when the text starts with another character. */
  lemma TerminatedOther(c: char, s1: string)
    requires c != '\n'
    requires s1 == Terminated(Init(SplitLines(s1))) + Last(SplitLines(s1))
    ensures [c] + s1 == Terminated(Init(SplitLines([c] + s1))) + Last(SplitLines([c] + s1))
  {
    var r1 := SplitLines(s1);
    SplitConsOther(c, s1);
    if |r1| == 1 {
      TerminatedOtherOne(c, s1, r1);
    } else {
      TerminatedOtherMany(c, s1, r1);
    }
  }

  /** TerminatedOther when the rest of the text holds no newline. */
  lemma TerminatedOtherOne(c: char, s1: string, r1: seq<string>)
    requires |r1| == 1
    requires s1 == Terminated(Init(r1)) + Last(r1)
    ensures
      var r := [[c] + r1[0]] + r1[1..];
      [c] + s1 == Terminated(Init(r)) + Last(r)
  {
    var r := [[c] + r1[0]] + r1[1..];
    assert r == [[c] + r1[0]];
    assert Init(r1) == [] && Init(r) == [];
  }

  /** TerminatedOther when the rest of the text holds a newline. */
  lemma TerminatedOtherMany(c: char, s1: string, r1: seq<string>)
    requires |r1| > 1
    requires s1 == Terminated(Init(r1)) + Last(r1)
    ensures
      var r := [[c] + r1[0]] + r1[1..];
      [c] + s1 == Terminated(Init(r)) + Last(r)
  {
    var r := [[c] + r1[0]] + r1[1..];
    var init, init1 := Init(r), Init(r1);
    var rest := Terminated(init1[1..]);
    assert Terminated(init) == ([c] + r1[0]) + "\n" + rest by {
      assert init[0] == [c] + r1[0] && init[1..] == init1[1..];
    }
    assert Terminated(init1) == r1[0] + "\n" + rest;
    assert Last(r) == Last(r1);
    Regroup([c] + r1[0], "\n", rest, Last(r1));
    Regroup(r1[0], "\n", rest, Last(r1));
    Regroup([c], r1[0], "\n", rest + Last(r1));
  }

  /** Concatenation regrouped to the right. */
  lemma Regroup<T>(a: seq<T>, b: seq<T>, c: seq<T>, d: seq<T>)
    ensures a + b + c + d == a + (b + (c + d))
  {
  }

  /** Splitting a text that starts with a newline. */
  lemma SplitConsNewline(s: string)
    ensures SplitLines(['\n'] + s) == [""] + SplitLines(s)
  {
    assert (['\n'] + s)[1..] == s;
  }

  /** Splitting a text that starts with another character. */
  lemma SplitConsOther(c: char, s: string)
    requires c != '\n'
    ensures SplitLines([c] + s) == [[c] + SplitLines(s)[0]] + SplitLines(s)[1..]
  {
    assert ([c] + s)[1..] == s;
  }

  /** Concatenation regrouped to the left. */
  lemma Assoc<T>(a: seq<T>, b: seq<T>, c: seq<T>)
    ensures a + (b + c) == (a + b) + c
  {
  }

  /**
   * Appending text only touches the last piece: the complete pieces of `s`
   * stay, and the last one is split again together with `t`.
   */
  lemma {:induction false} SplitAppend(s: string, t: string)
    ensures SplitLines(s + t) == Init(SplitLines(s)) + SplitLines(Last(SplitLines(s)) + t)
    decreases |s|
  {
    if s == [] {
      assert s + t == t;
    } else {
      var c, s1 := s[0], s[1..];
      assert s == [c] + s1;
      assert s + t == [c] + (s1 + t);
      SplitAppend(s1, t);
      if c == '\n' {
        SplitAppendNewline(s1, t);
      } else if |SplitLines(s1)| == 1 {
        SplitAppendOne(c, s1, t);
      } else {
        SplitAppendMany(c, s1, t);
      }
    }
  }

  /** Step of SplitAppend when the first character is a newline. */
  lemma SplitAppendNewline(s1: string, t: string)
    requires SplitLines(s1 + t) == Init(SplitLines(s1)) + SplitLines(Last(SplitLines(s1)) + t)
    ensures SplitLines(['\n'] + (s1 + t)) ==
      Init(SplitLines(['\n'] + s1)) + SplitLines(Last(SplitLines(['\n'] + s1)) + t)
  {
    var r1 := SplitLines(s1);
    var tail := SplitLines(Last(r1) + t);
    SplitConsNewline(s1 + t);
    SplitConsNewline(s1);
    PrependInitLast("", r1);
    Assoc([""], Init(r1), tail);
  }

  /** Init and Last of a sequence with one more element in front. */
  lemma PrependInitLast<T>(x: T, r: seq<T>)
    requires |r| >= 1
    ensures Init([x] + r) == [x] + Init(r) && Last([x] + r) == Last(r)
  {
  }

  /** Step of SplitAppend when the rest holds no newline. */
  lemma SplitAppendOne(c: char, s1: string, t: string)
    requires c != '\n'
    requires |SplitLines(s1)| == 1
    requires SplitLines(s1 + t) == Init(SplitLines(s1)) + SplitLines(Last(SplitLines(s1)) + t)
    ensures SplitLines([c] + (s1 + t)) ==
      Init(SplitLines([c] + s1)) + SplitLines(Last(SplitLines([c] + s1)) + t)
  {
    var r1 := SplitLines(s1);
    var line := r1[0];
    var tail := SplitLines(line + t);
    assert Init(r1) == [] && Last(r1) == line;
    assert SplitLines(s1 + t) == tail by {
      assert [] + tail == tail;
    }
    assert SplitLines([c] + s1) == [[c] + line] by {
      SplitConsOther(c, s1);
    }
    var r := [[c] + line];
    assert Init(r) == [] && Last(r) == [c] + line;
    assert SplitLines([c] + (s1 + t)) == [[c] + tail[0]] + tail[1..] by {
      SplitConsOther(c, s1 + t);
    }
    assert SplitLines(([c] + line) + t) == [[c] + tail[0]] + tail[1..] by {
      Assoc([c], line, t);
      SplitConsOther(c, line + t);
    }
    assert [] + SplitLines(([c] + line) + t) == SplitLines(([c] + line) + t);
  }

  /** Replacing the head of a concatenation. */
  lemma ReplaceHead<T>(x: T, a: seq<T>, b: seq<T>)
    requires |a| >= 1
    ensures [x] + (a + b)[1..] == ([x] + a[1..]) + b
  {
    assert (a + b)[1..] == a[1..] + b;
  }

  /** Step of SplitAppend when the rest holds a newline. */
  lemma SplitAppendMany(c: char, s1: string, t: string)
    requires c != '\n'
    requires |SplitLines(s1)| > 1
    requires SplitLines(s1 + t) == Init(SplitLines(s1)) + SplitLines(Last(SplitLines(s1)) + t)
    ensures SplitLines([c] + (s1 + t)) ==
      Init(SplitLines([c] + s1)) + SplitLines(Last(SplitLines([c] + s1)) + t)
  {
    var r1 := SplitLines(s1);
    var u := s1 + t;
    var tail := SplitLines(Last(r1) + t);
    var su := SplitLines(u);
    SplitConsOther(c, u);
    SplitConsOther(c, s1);
    var r := SplitLines([c] + s1);
    var x := [c] + r1[0];
    assert r == [x] + r1[1..];
    assert Init(r) == [x] + Init(r1)[1..];
    assert Last(r) == Last(r1);
    assert su[0] == r1[0];
    ReplaceHead(x, Init(r1), tail);
  }

  /**
   * The characters `String.prototype.trim` removes: the ECMAScript
   * WhiteSpace and LineTerminator code points.
   */
  predicate IsWhitespace(c: char): (r: bool)
    ensures c == ' ' || c == '\t' || c == '\n' || c == '\r' ==> r
    ensures '!' <= c <= '~' ==> !r
  {
    || c == ' ' || c == '\t' || c == '\n' || c == '\r' || c == '\U{000B}' || c == '\U{000C}'
    || c == '\U{00A0}' || c == '\U{1680}' || ('\U{2000}' <= c <= '\U{200A}')
    || c == '\U{2028}' || c == '\U{2029}' || c == '\U{202F}' || c == '\U{205F}'
    || c == '\U{3000}' || c == '\U{FEFF}'
  }

  /** `s.trimStart()`: the suffix left after dropping leading whitespace. */
  function TrimStart(s: string): (r: string)
    ensures |r| <= |s| && r == s[|s| - |r|..]
    ensures forall k :: 0 <= k < |s| - |r| ==> IsWhitespace(s[k])
    ensures r == [] || !IsWhitespace(r[0])
    decreases |s|
  {
    if s != [] && IsWhitespace(s[0]) then TrimStart(s[1..]) else s
  }

  /** `s.trimEnd()`: the prefix left after dropping trailing whitespace. */
  function TrimEnd(s: string): (r: string)
    ensures |r| <= |s| && r == s[..|r|]
    ensures forall k :: |r| <= k < |s| ==> IsWhitespace(s[k])
    ensures r == [] || !IsWhitespace(r[|r| - 1])
    decreases |s|
  {
    if s != [] && IsWhitespace(s[|s| - 1]) then TrimEnd(s[..|s| - 1]) else s
  }

  /** `s.trim()`: a contiguous part of `s`, starting where `trimStart` starts. */
  function Trim(s: string): (r: string)
    ensures var i := |s| - |TrimStart(s)|;
      i + |r| <= |s| && r == s[i..i + |r|]
  {
    TrimEnd(TrimStart(s))
  }

  /** What `trim()` drops on either side of that part is whitespace. */
  lemma TrimDropsWhitespace(s: string)
    ensures var i := |s| - |TrimStart(s)|;
      && (forall k :: 0 <= k < i ==> IsWhitespace(s[k]))
      && (forall k :: i + |Trim(s)| <= k < |s| ==> IsWhitespace(s[k]))
  {
    var a := TrimStart(s);
    var i := |s| - |a|;
    forall k | i + |Trim(s)| <= k < |s| ensures IsWhitespace(s[k]) {
      assert s[k] == a[k - i];
    }
  }

  /** The result of `trim()` neither starts nor ends with whitespace. */
  lemma TrimHasNoOuterWhitespace(s: string)
    ensures Trim(s) == [] || (!IsWhitespace(Trim(s)[0]) && !IsWhitespace(Trim(s)[|Trim(s)| - 1]))
  {
    var a := TrimStart(s);
    var r := TrimEnd(a);
    if r != [] {
      assert r[0] == a[0];
    }
  }

  /** `trim()` gives the empty string exactly for all-whitespace input. */
  lemma TrimEmptyIff(s: string)
    ensures Trim(s) == [] <==> forall k :: 0 <= k < |s| ==> IsWhitespace(s[k])
  {
    var a := TrimStart(s);
    if Trim(s) == [] {
      assert |a| == 0;
    } else {
      assert !IsWhitespace(a[0]);
      assert a[0] == s[|s| - |a|];
    }
  }
}
