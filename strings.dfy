/** The handful of Python string operations the installation scripts rely on
    (`in`, `strip`, `split`, `rstrip`, `lower`, `upper`, `join`, `str(int)`),
    written out on `seq<char>`. */
module Strings {
  import opened Wrappers

  /** An optional string argument that Python treats as true: given and
      not empty. */
  predicate Truthy(arg: Option<string>) {
    arg.Some? && arg.value != ""
  }

  /** Python's `str.isspace()`, by code point: the ASCII controls 9-13
      and 28-31, the space, and the Unicode spaces and separators. */
  predicate IsSpace(c: char) {
    if c <= ' ' then
      '\t' <= c <= '\r' || '\U{001C}' <= c
    else
      '\U{0085}' <= c
      && (c == '\U{0085}' || c == '\U{00A0}' || c == '\U{1680}' || ('\U{2000}' <= c <= '\U{200A}')
          || c == '\U{2028}' || c == '\U{2029}' || c == '\U{202F}' || c == '\U{205F}' || c == '\U{3000}')
  }

  /** `sub` occurs at position `i` of `s`. */
  predicate OccursAt(s: string, sub: string, i: int) {
    0 <= i <= |s| - |sub| && s[i..i + |sub|] == sub
  }

  /** `sub in s` for strings: `sub` occurs somewhere in `s`. */
  predicate Contains(s: string, sub: string) {
    exists i :: 0 <= i <= |s| - |sub| && OccursAt(s, sub, i)
  }

  lemma OccursAtContains(s: string, sub: string, i: int)
    requires OccursAt(s, sub, i)
    ensures Contains(s, sub)
  {
  }

  /** Position of the first `c` in `s`. */
  function IndexOf(s: string, c: char): (r: Option<nat>)
    ensures r.None? <==> c !in s
    ensures r.Some? ==> r.value < |s| && s[r.value] == c && c !in s[..r.value]
  {
    if |s| == 0 then None
    else if s[0] == c then Some(0)
    else
      match IndexOf(s[1..], c)
      case None => None
      case Some(i) =>
        assert s[..i + 1] == [s[0]] + s[1..][..i];
        Some(i + 1)
  }

  /** Text after the first `c` does not move it. */
  lemma IndexOfAppend(s: string, t: string, c: char)
    requires c in s
    ensures IndexOf(s + t, c) == IndexOf(s, c)
  {
    var i := IndexOf(s, c).value;
    assert (s + t)[i] == c;
    assert (s + t)[..i] == s[..i];
  }

  /** Number of whitespace characters at the start of `s`. */
  function LeadingSpace(s: string): (n: nat)
    ensures n <= |s|
  {
    if |s| > 0 && IsSpace(s[0]) then 1 + LeadingSpace(s[1..]) else 0
  }

  /** The leading run is all whitespace and stops at the first other character. */
  lemma {:induction false} LeadingSpaceRun(s: string)
    ensures forall k :: 0 <= k < LeadingSpace(s) ==> IsSpace(s[k])
    ensures LeadingSpace(s) == |s| || !IsSpace(s[LeadingSpace(s)])
    decreases |s|
  {
    if |s| > 0 && IsSpace(s[0]) {
      LeadingSpaceRun(s[1..]);
    }
  }

  /** Number of whitespace characters at the end of `s`. */
  function TrailingSpace(s: string): (n: nat)
    ensures n <= |s|
  {
    if |s| > 0 && IsSpace(s[|s| - 1]) then 1 + TrailingSpace(s[..|s| - 1]) else 0
  }

  /** The trailing run is all whitespace and stops at the last other character. */
  lemma {:induction false} TrailingSpaceRun(s: string)
    ensures forall k :: |s| - TrailingSpace(s) <= k < |s| ==> IsSpace(s[k])
    ensures TrailingSpace(s) == |s| || !IsSpace(s[|s| - TrailingSpace(s) - 1])
    decreases |s|
  {
    if |s| > 0 && IsSpace(s[|s| - 1]) {
      TrailingSpaceRun(s[..|s| - 1]);
    }
  }

  /** `s.strip()`: `s` without its leading and trailing whitespace. */
  function Strip(s: string): (r: string)
    ensures LeadingSpace(s) + |r| <= |s|
  {
    var t := s[LeadingSpace(s)..];
    t[..|t| - TrailingSpace(t)]
  }

  /** `strip()` keeps the middle of `s`, drops only whitespace, and leaves
      no whitespace at either end. */
  lemma StripShape(s: string)
    ensures Strip(s) == s[LeadingSpace(s)..LeadingSpace(s) + |Strip(s)|]
    ensures forall k :: 0 <= k < LeadingSpace(s) ==> IsSpace(s[k])
    ensures forall k :: LeadingSpace(s) + |Strip(s)| <= k < |s| ==> IsSpace(s[k])
    ensures Strip(s) == [] || (!IsSpace(Strip(s)[0]) && !IsSpace(Strip(s)[|Strip(s)| - 1]))
  {
    LeadingSpaceRun(s);
    StripSlice(s);
    StripEnds(s);
    StripDropsTrailingSpace(s);
  }

  lemma StripSlice(s: string)
    ensures Strip(s) == s[LeadingSpace(s)..LeadingSpace(s) + |Strip(s)|]
  {
    var l := LeadingSpace(s);
    var t := s[l..];
    assert Strip(s) == t[..|t| - TrailingSpace(t)];
  }

  lemma StripEnds(s: string)
    ensures Strip(s) == [] || (!IsSpace(Strip(s)[0]) && !IsSpace(Strip(s)[|Strip(s)| - 1]))
  {
    var l := LeadingSpace(s);
    var t := s[l..];
    var m := |t| - TrailingSpace(t);
    var r := Strip(s);
    if r != [] {
      LeadingSpaceRun(s);
      TrailingSpaceRun(t);
      assert r[0] == t[0] == s[l];
      assert r[|r| - 1] == t[m - 1];
    }
  }

  lemma StripDropsTrailingSpace(s: string)
    ensures forall k :: LeadingSpace(s) + |Strip(s)| <= k < |s| ==> IsSpace(s[k])
  {
    var l := LeadingSpace(s);
    var t := s[l..];
    TrailingSpaceRun(t);
    forall k | l + |Strip(s)| <= k < |s| ensures IsSpace(s[k]) {
      assert s[k] == t[k - l];
    }
  }

  /** A string with no whitespace at either end is its own `strip()`. */
  lemma StripOfStripped(s: string)
    requires s == [] || (!IsSpace(s[0]) && !IsSpace(s[|s| - 1]))
    ensures Strip(s) == s
  {
    if s != [] {
      assert LeadingSpace(s) == 0;
      assert TrailingSpace(s) == 0;
    }
  }

  lemma {:induction false} LeadingSpaceAppend(s: string, c: char)
    requires IsSpace(c)
    ensures LeadingSpace(s + [c]) == if LeadingSpace(s) == |s| then |s| + 1 else LeadingSpace(s)
    decreases |s|
  {
    if |s| > 0 {
      assert (s + [c])[0] == s[0];
      assert (s + [c])[1..] == s[1..] + [c];
      if IsSpace(s[0]) {
        LeadingSpaceAppend(s[1..], c);
      }
    }
  }

  /** Text after a non-whitespace character does not change the leading run. */
  lemma {:induction false} LeadingSpaceAppendText(s: string, t: string)
    requires LeadingSpace(s) < |s|
    ensures LeadingSpace(s + t) == LeadingSpace(s)
    decreases |s|
  {
    assert (s + t)[0] == s[0];
    if IsSpace(s[0]) {
      assert (s + t)[1..] == s[1..] + t;
      LeadingSpaceAppendText(s[1..], t);
    }
  }

  /** Whitespace added at the end does not change `strip()`. */
  lemma StripAppendSpace(s: string, c: char)
    requires IsSpace(c)
    ensures Strip(s + [c]) == Strip(s)
  {
    LeadingSpaceAppend(s, c);
    var l := LeadingSpace(s);
    if l == |s| {
      assert Strip(s) == [];
      var t := (s + [c])[|s| + 1..];
      assert t == [];
    } else {
      var t := s[l..];
      assert (s + [c])[l..] == t + [c];
      assert (t + [c])[..|t|] == t;
      assert TrailingSpace(t + [c]) == 1 + TrailingSpace(t);
    }
  }

  /** `s.rstrip(c)`: `s` without its trailing run of `c`. */
  function RStripChar(s: string, c: char): (r: string)
    ensures r <= s
    ensures r == [] || r[|r| - 1] != c
    ensures forall k :: |r| <= k < |s| ==> s[k] == c
  {
    if |s| > 0 && s[|s| - 1] == c then RStripChar(s[..|s| - 1], c) else s
  }

  /** `s.split(c)`: the pieces between the occurrences of `c`, in order. */
  function Split(s: string, c: char): (r: seq<string>)
    ensures |r| >= 1
    ensures forall k :: 0 <= k < |r| ==> c !in r[k]
    decreases |s|
  {
    match IndexOf(s, c)
    case None => [s]
    case Some(i) => [s[..i]] + Split(s[i + 1..], c)
  }

  /** `sep.join(parts)`. */
  function Join(parts: seq<string>, sep: string): string {
    if |parts| == 0 then ""
    else if |parts| == 1 then parts[0]
    else parts[0] + sep + Join(parts[1..], sep)
  }

  /** Splitting and joining back with the same separator gives the input. */
  lemma {:induction false} JoinSplit(s: string, c: char)
    ensures Join(Split(s, c), [c]) == s
    decreases |s|
  {
    match IndexOf(s, c)
    case None =>
    case Some(i) =>
      var head, tail := s[..i], s[i + 1..];
      var rest := Split(tail, c);
      var parts := [head] + rest;
      assert Split(s, c) == parts;
      assert parts[0] == head && parts[1..] == rest && |parts| >= 2;
      JoinSplit(tail, c);
      assert s == head + [c] + tail;
  }

  /** A string is the text before its first separator, the separator and
      the text after it. */
  lemma SplitAtFirst(s: string, c: char, i: nat)
    requires IndexOf(s, c) == Some(i)
    ensures s == s[..i] + [c] + s[i + 1..]
    ensures forall k :: 0 <= k < i ==> s[..i][k] != c
  {
  }

  /** The first separator after a piece free of it ends the piece. */
  lemma IndexOfSeparator(head: string, tail: string, c: char)
    requires c !in head
    ensures IndexOf(head + [c] + tail, c) == Some(|head|)
    ensures (head + [c] + tail)[..|head|] == head
    ensures (head + [c] + tail)[|head| + 1..] == tail
  {
    var s := head + [c] + tail;
    assert s[|head|] == c && s[..|head|] == head;
  }

  /** Joining pieces free of the separator and splitting again gives the
      pieces back. */
  lemma {:induction false} SplitJoin(parts: seq<string>, c: char)
    requires parts != []
    requires forall k :: 0 <= k < |parts| ==> c !in parts[k]
    ensures Split(Join(parts, [c]), c) == parts
    decreases |parts|
  {
    if |parts| >= 2 {
      var head, rest := parts[0], parts[1..];
      var tail := Join(rest, [c]);
      assert Join(parts, [c]) == head + [c] + tail;
      SplitCons(head, tail, c);
      SplitJoin(rest, c);
      assert parts == [head] + rest;
    }
  }

  /** Splitting a piece free of the separator, the separator and a tail. */
  lemma SplitCons(head: string, tail: string, c: char)
    requires c !in head
    ensures Split(head + [c] + tail, c) == [head] + Split(tail, c)
  {
    IndexOfSeparator(head, tail, c);
    SplitStep(head + [c] + tail, c, |head|);
  }

  /** The last piece of a string that does not end in the separator is
      not empty and ends with the string's last character. */
  lemma {:induction false} SplitLast(s: string, c: char)
    requires s != [] && s[|s| - 1] != c
    ensures var p := Split(s, c); p[|p| - 1] != [] && p[|p| - 1][|p[|p| - 1]| - 1] == s[|s| - 1]
    decreases |s|
  {
    match IndexOf(s, c)
    case None =>
      assert Split(s, c) == [s];
    case Some(i) =>
      var tail := s[i + 1..];
      assert tail[|tail| - 1] == s[|s| - 1];
      SplitLast(tail, c);
      SplitStep(s, c, i);
      var q := Split(tail, c);
      assert Split(s, c)[|Split(s, c)| - 1] == q[|q| - 1];
  }

  lemma SplitStep(s: string, c: char, i: nat)
    requires IndexOf(s, c) == Some(i)
    ensures Split(s, c) == [s[..i]] + Split(s[i + 1..], c)
  {
  }

  /** The last `c`-separated piece of `s` (`s.split(c)[-1]`): the text
      after the last `c`, or all of `s` when it holds none. */
  function LastPiece(s: string, c: char): (r: string)
    ensures c !in r
    ensures |r| <= |s| && r == s[|s| - |r|..]
    decreases |s|
  {
    if s == [] || s[|s| - 1] == c then []
    else
      var init := s[..|s| - 1];
      var r := LastPiece(init, c);
      assert init[|init| - |r|..] + [s[|s| - 1]] == s[|s| - |r| - 1..];
      r + [s[|s| - 1]]
  }

  /** A last piece shorter than the string follows a separator. */
  lemma {:induction false} LastPieceSeparator(s: string, c: char)
    ensures var r := LastPiece(s, c); |r| < |s| ==> s[|s| - |r| - 1] == c
    decreases |s|
  {
    if s != [] && s[|s| - 1] != c {
      LastPieceSeparator(s[..|s| - 1], c);
    }
  }

  lemma LowerSnoc(s: string, x: char)
    ensures Lower(s + [x]) == Lower(s) + [LowerChar(x)]
  {
  }

  /** A separator that is not a letter survives `lower()`, so lowering
      commutes with taking the last piece. */
  lemma {:induction false} LastPieceLower(s: string, c: char)
    requires !('a' <= c <= 'z') && !('A' <= c <= 'Z')
    ensures LastPiece(Lower(s), c) == Lower(LastPiece(s, c))
    decreases |s|
  {
    if s != [] {
      var init, last := s[..|s| - 1], s[|s| - 1];
      LowerSnoc(init, last);
      assert s == init + [last];
      assert LowerChar(last) == c <==> last == c;
      if last != c {
        LastPieceLower(init, c);
        LowerSnoc(LastPiece(init, c), last);
      }
    }
  }

  /** The last piece after a separator is the text that follows it. */
  lemma {:induction false} LastPieceAfter(s: string, t: string, c: char)
    requires forall k :: 0 <= k < |t| ==> t[k] != c
    ensures LastPiece(s + [c] + t, c) == t
    decreases |t|
  {
    var u := s + [c] + t;
    if t == [] {
      assert u[|u| - 1] == c;
    } else {
      var t', last := t[..|t| - 1], t[|t| - 1];
      LastPieceAfter(s, t', c);
      var v := u[..|u| - 1];
      assert v == s + [c] + t';
      assert u[|u| - 1] == last;
      assert t == t' + [last];
    }
  }

  /** ASCII `lower()` of one character. */
  function LowerChar(c: char): char {
    if 'A' <= c <= 'Z' then (c as int + 32) as char else c
  }

  /** ASCII `upper()` of one character. */
  function UpperChar(c: char): char {
    if 'a' <= c <= 'z' then (c as int - 32) as char else c
  }

  /** `s.lower()` on ASCII letters. */
  function Lower(s: string): (r: string)
    ensures |r| == |s| && forall k :: 0 <= k < |s| ==> r[k] == LowerChar(s[k])
  {
    seq(|s|, k requires 0 <= k < |s| => LowerChar(s[k]))
  }

  /** `s.upper()` on ASCII letters. */
  function Upper(s: string): (r: string)
    ensures |r| == |s| && forall k :: 0 <= k < |s| ==> r[k] == UpperChar(s[k])
  {
    seq(|s|, k requires 0 <= k < |s| => UpperChar(s[k]))
  }

  /** `s.replace(a, b)` for single characters. */
  function ReplaceChar(s: string, a: char, b: char): (r: string)
    ensures |r| == |s|
    ensures forall k :: 0 <= k < |s| ==> r[k] == (if s[k] == a then b else s[k])
  {
    seq(|s|, k requires 0 <= k < |s| => if s[k] == a then b else s[k])
  }

  /** `c * n`. */
  function Repeat(c: char, n: nat): (r: string)
    ensures |r| == n && forall k :: 0 <= k < n ==> r[k] == c
  {
    seq(n, _ => c)
  }

  function DigitChar(d: nat): char
    requires d < 10
  {
    ('0' as int + d) as char
  }

  /** `str(n)` for a non-negative integer. */
  function NatToString(n: nat): (r: string)
    ensures |r| >= 1
    ensures forall k :: 0 <= k < |r| ==> '0' <= r[k] <= '9'
  {
    if n < 10 then [DigitChar(n)] else NatToString(n / 10) + [DigitChar(n % 10)]
  }
}
