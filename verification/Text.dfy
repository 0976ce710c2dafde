/** The Rust string operations that the parsers and printers share. */
module Text {
  import opened Wrappers

  /** `char::is_whitespace`: the Unicode White_Space property. */
  predicate IsWhitespace(c: char) {
    var n := c as int;
    9 <= n <= 13 || n == 0x20 || n == 0x85 || n == 0xA0 || n == 0x1680 || 0x2000 <= n <= 0x200A
    || n == 0x2028 || n == 0x2029 || n == 0x202F || n == 0x205F || n == 0x3000
  }

  /** `str::trim_start`. */
  function TrimStart(s: string): string {
    if s == "" || !IsWhitespace(s[0]) then s else TrimStart(s[1..])
  }

  /** `str::trim_end`. */
  function TrimEnd(s: string): string {
    if s == "" || !IsWhitespace(s[|s| - 1]) then s else TrimEnd(s[..|s| - 1])
  }

  /** `str::trim`. */
  function Trim(s: string): string {
    TrimEnd(TrimStart(s))
  }

  /** No white space at either end. */
  predicate Trimmed(s: string) {
    s == "" || (!IsWhitespace(s[0]) && !IsWhitespace(s[|s| - 1]))
  }

  lemma {:induction false} TrimOfTrimmed(s: string)
    requires Trimmed(s)
    ensures Trim(s) == s
  {
  }

  lemma {:induction false} TrimStartSplits(s: string)
    ensures var t := TrimStart(s);
            && |t| <= |s| && s == s[..|s| - |t|] + t
            && (t == "" || !IsWhitespace(t[0]))
  {
    if s != "" && IsWhitespace(s[0]) {
      TrimStartSplits(s[1..]);
      var t := TrimStart(s);
      assert s == [s[0]] + s[1..];
      assert s[..|s| - |t|] == [s[0]] + s[1..][..|s| - 1 - |t|];
    }
  }

  lemma {:induction false} TrimEndSplits(s: string)
    ensures var t := TrimEnd(s);
            && t <= s
            && (t == "" || !IsWhitespace(t[|t| - 1]))
  {
    if s != "" && IsWhitespace(s[|s| - 1]) {
      TrimEndSplits(s[..|s| - 1]);
    }
  }

  lemma {:induction false} TrimIsTrimmed(s: string)
    ensures Trimmed(Trim(s))
    ensures forall c :: c in Trim(s) ==> c in s
  {
    TrimStartSplits(s);
    TrimEndSplits(TrimStart(s));
    assert Trim(s) <= TrimStart(s);
  }

  lemma {:induction false} TrimStartSkips(before: string, core: string)
    requires forall c :: c in before ==> IsWhitespace(c)
    requires core != "" && !IsWhitespace(core[0])
    ensures TrimStart(before + core) == core
  {
    if before == "" {
      assert before + core == core;
    } else {
      assert (before + core)[1..] == before[1..] + core;
      TrimStartSkips(before[1..], core);
    }
  }

  lemma {:induction false} TrimEndSkips(core: string, after: string)
    requires forall c :: c in after ==> IsWhitespace(c)
    requires core != "" && !IsWhitespace(core[|core| - 1])
    ensures TrimEnd(core + after) == core
  {
    var n := |after|;
    if n == 0 {
      assert core + after == core;
    } else {
      assert (core + after)[|core| + n - 1] == after[n - 1];
      assert (core + after)[..|core| + n - 1] == core + after[..n - 1];
      TrimEndSkips(core, after[..n - 1]);
    }
  }

  /** Trimming takes surrounding white space off a trimmed core, and nothing else. */
  lemma {:induction false} TrimSurrounded(before: string, core: string, after: string)
    requires Trimmed(core) && core != ""
    requires forall c :: c in before ==> IsWhitespace(c)
    requires forall c :: c in after ==> IsWhitespace(c)
    ensures Trim(before + core + after) == core
  {
    assert before + core + after == before + (core + after);
    TrimStartSkips(before, core + after);
    TrimEndSkips(core, after);
  }

  /** White space alone. */
  predicate IsBlank(s: string) {
    forall c :: c in s ==> IsWhitespace(c)
  }

  /** The 25 characters of Unicode that are white space. */
  lemma {:induction false} WhitespaceExactly(c: char)
    ensures IsWhitespace(c)
            <==> c as int in {9, 10, 11, 12, 13, 32, 133, 160, 5760, 8192, 8193, 8194, 8195, 8196, 8197, 8198, 8199,
                              8200, 8201, 8202, 8232, 8233, 8239, 8287, 12288}
  {
  }

  lemma {:induction false} Associate<T>(a: seq<T>, b: seq<T>, c: seq<T>)
    ensures a + b + c == a + (b + c)
  {
  }

  lemma {:induction false} TrimStartTakes(s: string) returns (before: string)
    ensures IsBlank(before) && s == before + TrimStart(s)
  {
    if s != "" && IsWhitespace(s[0]) {
      var more := TrimStartTakes(s[1..]);
      before := [s[0]] + more;
      Associate([s[0]], more, TrimStart(s[1..]));
    } else {
      before := "";
    }
  }

  lemma {:induction false} TrimEndTakes(s: string) returns (after: string)
    ensures IsBlank(after) && s == TrimEnd(s) + after
  {
    if s != "" && IsWhitespace(s[|s| - 1]) {
      var more := TrimEndTakes(s[..|s| - 1]);
      after := more + [s[|s| - 1]];
      Associate(TrimEnd(s[..|s| - 1]), more, [s[|s| - 1]]);
    } else {
      after := "";
    }
  }

  /** A text is a core with white space around it. */
  ghost predicate IsPadded(s: string, core: string) {
    exists before, after :: IsBlank(before) && IsBlank(after) && s == before + core + after
  }

  lemma {:induction false} TrimOfBlank(s: string)
    requires IsBlank(s)
    ensures Trim(s) == ""
  {
    if s != "" {
      TrimOfBlank(s[1..]);
    }
  }

  lemma {:induction false} TrimPads(s: string)
    ensures IsPadded(s, Trim(s))
  {
    var before := TrimStartTakes(s);
    var after := TrimEndTakes(TrimStart(s));
    PaddedBy(s, before, TrimStart(s), Trim(s), after);
  }

  lemma {:induction false} PaddedBy(s: string, before: string, rest: string, core: string, after: string)
    requires IsBlank(before) && IsBlank(after) && s == before + rest && rest == core + after
    ensures IsPadded(s, core)
  {
    assert s == before + core + after;
  }

  lemma {:induction false} TrimOfPadded(s: string, core: string)
    requires Trimmed(core) && IsPadded(s, core)
    ensures Trim(s) == core
  {
    var before, after :| IsBlank(before) && IsBlank(after) && s == before + core + after;
    if core == "" {
      assert s == before + after;
      TrimOfBlank(s);
    } else {
      TrimSurrounded(before, core, after);
    }
  }

  /** Trimming finds the one core without white space at its ends. */
  lemma {:induction false} TrimExactly(s: string, core: string)
    ensures Trim(s) == core <==> Trimmed(core) && IsPadded(s, core)
  {
    TrimIsTrimmed(s);
    TrimPads(s);
    if Trimmed(core) && IsPadded(s, core) {
      TrimOfPadded(s, core);
    }
  }

  /** `char::to_ascii_lowercase`. */
  function LowerChar(c: char): char {
    if 'A' <= c <= 'Z' then (c as int + 32) as char else c
  }

  /** `str::to_ascii_lowercase`. */
  function Lower(s: string): (t: string)
    ensures |t| == |s|
    ensures forall i :: 0 <= i < |s| ==> t[i] == LowerChar(s[i])
  {
    seq(|s|, i requires 0 <= i < |s| => LowerChar(s[i]))
  }

  /** The letters that lowercasing changes, written out. */
  lemma {:induction false} LowerLetters(c: char)
    ensures Lower("ABCDEFGHIJKLMNOPQRSTUVWXYZ") == "abcdefghijklmnopqrstuvwxyz"
    ensures c < 'A' || 'Z' < c ==> LowerChar(c) == c
  {
  }

  /** `str::eq_ignore_ascii_case`. */
  predicate EqIgnoreCase(a: string, b: string) {
    Lower(a) == Lower(b)
  }

  lemma {:induction false} TrimStartKeeps(left: string, rest: string)
    requires rest != "" && !IsWhitespace(rest[0])
    ensures TrimStart(left + rest) == TrimStart(left) + rest
  {
    if left == "" {
      assert left + rest == rest;
    } else {
      assert (left + rest)[1..] == left[1..] + rest;
      if IsWhitespace(left[0]) {
        TrimStartKeeps(left[1..], rest);
      }
    }
  }

  lemma {:induction false} TrimEndKeeps(rest: string, right: string)
    requires rest != "" && !IsWhitespace(rest[|rest| - 1])
    ensures TrimEnd(rest + right) == rest + TrimEnd(right)
  {
    if right == "" {
      assert rest + right == rest;
    } else {
      var last := |right| - 1;
      assert (rest + right)[..|rest| + last] == rest + right[..last];
      if IsWhitespace(right[last]) {
        TrimEndKeeps(rest, right[..last]);
      }
    }
  }

  /** Trimming a text that holds something else than white space trims what is on either side of it. */
  lemma {:induction false} TrimAround(left: string, c: char, right: string)
    requires !IsWhitespace(c)
    ensures Trim(left + [c] + right) == TrimStart(left) + [c] + TrimEnd(right)
  {
    Associate(left, [c], right);
    TrimStartKeeps(left, [c] + right);
    Associate(TrimStart(left), [c], right);
    TrimEndKeeps(TrimStart(left) + [c], right);
  }

  lemma {:induction false} TrimBegins(s: string)
    ensures Trim(s) == "" <==> TrimStart(s) == ""
    ensures Trim(s) != "" ==> Trim(s)[0] == TrimStart(s)[0]
  {
    var t := TrimStart(s);
    TrimStartSplits(s);
    if t != "" {
      TrimEndKeeps(t[..1], t[1..]);
      assert t == t[..1] + t[1..];
    }
  }

  lemma {:induction false} TrimTwice(s: string)
    ensures Trim(TrimStart(s)) == Trim(s) && Trim(TrimEnd(s)) == Trim(s)
  {
    TrimStartSplits(s);
    TrimIsTrimmed(TrimEnd(s));
    TrimPads(TrimEnd(s));
    var after := TrimEndTakes(s);
    PadMore(s, TrimEnd(s), Trim(TrimEnd(s)), after);
    TrimOfPadded(s, Trim(TrimEnd(s)));
  }

  lemma {:induction false} PadMore(s: string, t: string, core: string, after: string)
    requires IsPadded(t, core) && IsBlank(after) && s == t + after
    ensures IsPadded(s, core)
  {
    var b, a :| IsBlank(b) && IsBlank(a) && t == b + core + a;
    Associate(b + core, a, after);
    assert IsBlank(a + after);
  }

  lemma {:induction false} TrimStartInLowercase(s: string)
    ensures TrimStart(Lower(s)) == Lower(TrimStart(s))
  {
    if s != "" && IsWhitespace(s[0]) {
      assert Lower(s)[1..] == Lower(s[1..]);
      TrimStartInLowercase(s[1..]);
    }
  }

  lemma {:induction false} TrimEndInLowercase(s: string)
    ensures TrimEnd(Lower(s)) == Lower(TrimEnd(s))
  {
    if s != "" && IsWhitespace(s[|s| - 1]) {
      assert Lower(s)[..|s| - 1] == Lower(s[..|s| - 1]);
      TrimEndInLowercase(s[..|s| - 1]);
    }
  }

  lemma {:induction false} TrimIgnoresCase(a: string, b: string)
    requires EqIgnoreCase(a, b)
    ensures EqIgnoreCase(Trim(a), Trim(b))
  {
    TrimStartInLowercase(a);
    TrimStartInLowercase(b);
    TrimEndInLowercase(TrimStart(a));
    TrimEndInLowercase(TrimStart(b));
  }

  /** `str::split_once`: the text before and after the first `c`. */
  function SplitOnce(s: string, c: char): (r: Option<(string, string)>)
    ensures r.None? <==> c !in s
    ensures r.Some? ==> c !in r.value.0 && s == r.value.0 + [c] + r.value.1
  {
    if s == "" then None
    else if s[0] == c then Some(("", s[1..]))
    else
      match SplitOnce(s[1..], c)
      case None => None
      case Some(p) => assert s == [s[0]] + s[1..]; Some(([s[0]] + p.0, p.1))
  }

  /** Only the first `c` splits: what follows it is free. */
  lemma {:induction false} SplitOnceAt(left: string, c: char, right: string)
    requires c !in left
    ensures SplitOnce(left + [c] + right, c) == Some((left, right))
  {
    var s := left + [c] + right;
    if left != "" {
      SplitOnceAt(left[1..], c, right);
      assert s[1..] == left[1..] + [c] + right;
      assert left == [left[0]] + left[1..];
    } else {
      assert s[1..] == right;
    }
  }

  lemma {:induction false} SplitTrimmed(left: string, c: char, right: string)
    requires !IsWhitespace(c) && c !in left
    ensures Trim(left + [c] + right) == TrimStart(left) + [c] + TrimEnd(right)
    ensures SplitOnce(Trim(left + [c] + right), c) == Some((TrimStart(left), TrimEnd(right)))
  {
    TrimAround(left, c, right);
    TrimStartSplits(left);
    SplitOnceAt(TrimStart(left), c, TrimEnd(right));
  }

  /** `str::split` on one character: never empty, pieces may be. */
  function Split(s: string, c: char): (parts: seq<string>)
    ensures |parts| >= 1
    decreases |s|
  {
    match SplitOnce(s, c)
    case None => [s]
    case Some(p) => [p.0] + Split(p.1, c)
  }

  lemma {:induction false} SplitPiecesHoldNone(s: string, c: char)
    ensures forall p :: p in Split(s, c) ==> c !in p
    decreases |s|
  {
    if SplitOnce(s, c).Some? {
      SplitPiecesHoldNone(SplitOnce(s, c).value.1, c);
    }
  }

  /** `[_]::join`. */
  function Join(parts: seq<string>, sep: string): string {
    if |parts| == 0 then ""
    else if |parts| == 1 then parts[0]
    else parts[0] + sep + Join(parts[1..], sep)
  }

  /** Joining the pieces puts the text back together, whatever the text. */
  lemma {:induction false} JoinOfSplit(s: string, c: char)
    ensures Join(Split(s, c), [c]) == s
    decreases |s|
  {
    match SplitOnce(s, c)
    case None =>
    case Some(p) =>
      JoinOfSplit(p.1, c);
      assert Split(s, c)[1..] == Split(p.1, c);
  }

  /** Splitting the joined pieces gives them back when no piece holds the separator. */
  lemma {:induction false} SplitOfJoin(parts: seq<string>, c: char)
    requires |parts| >= 1
    requires forall p :: p in parts ==> c !in p
    ensures Split(Join(parts, [c]), c) == parts
  {
    if |parts| > 1 {
      var rest := Join(parts[1..], [c]);
      SplitOnceAt(parts[0], c, rest);
      SplitOfJoin(parts[1..], c);
    }
  }

  /** A piece without the separator comes first. */
  lemma {:induction false} SplitCons(piece: string, c: char, rest: string)
    requires c !in piece
    ensures Split(piece + [c] + rest, c) == [piece] + Split(rest, c)
  {
    SplitOnceAt(piece, c, rest);
  }

  lemma {:induction false} SplitOfJoinAnd(parts: seq<string>, c: char, rest: string)
    requires |parts| >= 1
    requires forall p :: p in parts ==> c !in p
    ensures Split(Join(parts, [c]) + [c] + rest, c) == parts + Split(rest, c)
  {
    if |parts| == 1 {
      SplitCons(parts[0], c, rest);
    } else {
      var more := Join(parts[1..], [c]);
      SplitOfJoinAnd(parts[1..], c, rest);
      SplitCons(parts[0], c, more + [c] + rest);
      Regroup(parts[0], [c], more, rest);
      HeadFirst(parts, Split(rest, c));
    }
  }

  lemma {:induction false} Regroup(head: string, sep: string, more: string, rest: string)
    ensures head + sep + more + sep + rest == head + sep + (more + sep + rest)
  {
  }

  lemma {:induction false} HeadFirst<T>(parts: seq<T>, rest: seq<T>)
    requires parts != []
    ensures [parts[0]] + (parts[1..] + rest) == parts + rest
  {
  }

  /** A text may be cut at any separator and its parts split on their own. */
  lemma {:induction false} SplitConcat(first: string, c: char, rest: string)
    ensures Split(first + [c] + rest, c) == Split(first, c) + Split(rest, c)
  {
    JoinOfSplit(first, c);
    SplitPiecesHoldNone(first, c);
    SplitOfJoinAnd(Split(first, c), c, rest);
  }

  /** `str::lines`: "\n" or "\r\n" ends a line; the last line needs no ending. */
  function Lines(s: string): seq<string>
    decreases |s|
  {
    if s == "" then []
    else
      match SplitOnce(s, '\n')
      case None => [s]
      case Some(p) => [StripCarriageReturn(p.0)] + Lines(p.1)
  }

  lemma {:induction false} LinesHoldNoBreak(s: string)
    ensures forall line :: line in Lines(s) ==> '\n' !in line
    decreases |s|
  {
    if s != "" && SplitOnce(s, '\n').Some? {
      LinesHoldNoBreak(SplitOnce(s, '\n').value.1);
    }
  }

  function StripCarriageReturn(line: string): string {
    if line != "" && line[|line| - 1] == '\r' then line[..|line| - 1] else line
  }

  /** A terminated line in front of any text is one more line. */
  lemma {:induction false} LinesCons(line: string, rest: string)
    requires '\n' !in line
    ensures Lines(line + "\n" + rest) == [StripCarriageReturn(line)] + Lines(rest)
  {
    SplitOnceAt(line, '\n', rest);
  }

  /** A line ends in front of "\n" or "\r\n", and what is left without an ending is a line. */
  lemma {:induction false} LineEndings(line: string, rest: string)
    requires '\n' !in line
    ensures Lines(line + "\r\n" + rest) == [line] + Lines(rest)
    ensures line != "" && line[|line| - 1] != '\r' ==> Lines(line + "\n" + rest) == [line] + Lines(rest)
    ensures line != "" ==> Lines(line) == [line]
  {
    assert line + "\r" + "\n" + rest == line + "\r\n" + rest;
    LinesCons(line + "\r", rest);
    LinesCons(line, rest);
  }

  lemma {:induction false} LinesFirst(a: string, line: string, rest: string, tail: string)
    requires a == line + "\n" + rest && '\n' !in line
    ensures Lines(a + tail) == [StripCarriageReturn(line)] + Lines(rest + tail)
  {
    TailLast(line, "\n", rest, tail);
    LinesCons(line, rest + tail);
  }

  lemma {:induction false} TailLast<T>(a: seq<T>, b: seq<T>, c: seq<T>, d: seq<T>)
    ensures a + b + c + d == a + b + (c + d)
  {
  }

  /** Text that ends a line can be cut off without changing any line. */
  lemma {:induction false} LinesConcat(a: string, b: string)
    requires a == "" || a[|a| - 1] == '\n'
    ensures Lines(a + b) == Lines(a) + Lines(b)
    decreases |a|
  {
    if a == "" {
      assert a + b == b;
    } else {
      var (line, rest) := SplitOnce(a, '\n').value;
      LinesConcat(rest, b);
      LinesFirst(a, line, rest, b);
    }
  }
}
