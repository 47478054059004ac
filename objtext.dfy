/** Text primitives shared by both OBJ readers: splitting a line into words
    as `std::istringstream >>` does, searching for a character as
    `std::string::find` does, converting a prefix to an integer as
    `std::stoi` does, and the 32-bit unsigned index type `GLuint`. */
module ObjText {
  import opened Geometry

  /** The two exceptions `std::stoi` throws. */
  datatype StoiError = InvalidArgument | OutOfRange

  /** A value, or the exception that ended the computation. */
  datatype Result<+T> = Ok(value: T) | Err(error: StoiError) {
    predicate IsFailure() { Err? }

    function PropagateFailure<U>(): Result<U>
      requires Err?
    {
      Err(error)
    }

    function Extract(): T
      requires Ok?
    {
      value
    }
  }

  datatype Option<+T> = None | Some(value: T)

  const INT_MIN: int := -0x8000_0000
  const INT_MAX: int := 0x7FFF_FFFF

  type GLuint = x: int | 0 <= x < 0x1_0000_0000

  /** `GLuint(-1)`, the value the face readers use for "no index". */
  const ABSENT: GLuint := 0xFFFF_FFFF

  /** C++ conversion of a signed integer to `GLuint`: reduction modulo 2^32. */
  function ToGLuint(i: int): GLuint {
    if 0 <= i < 0x1_0000_0000 then i else i % 0x1_0000_0000
  }

  lemma ToGLuintOfIndex(i: int)
    requires -1 <= i <= INT_MAX
    ensures ToGLuint(i) == if i == -1 then ABSENT else i
  {
  }

  /** The characters `std::isspace` accepts in the C locale. */
  predicate IsSpace(c: char) {
    c == ' ' || c == '\t' || c == '\n' || c == '\r' || c == '\U{000B}' || c == '\U{000C}'
  }

  predicate IsDigit(c: char) { '0' <= c <= '9' }

  predicate NoSpace(s: string) { forall i :: 0 <= i < |s| ==> !IsSpace(s[i]) }

  predicate AllDigits(s: string) { forall i :: 0 <= i < |s| ==> IsDigit(s[i]) }

  /** `s` with its leading white space removed. */
  function DropSpace(s: string): (r: string)
    ensures |r| <= |s|
    ensures r == [] || !IsSpace(r[0])
  {
    if s != [] && IsSpace(s[0]) then DropSpace(s[1..]) else s
  }

  /** DropSpace removes exactly the leading white space: what it drops is
      white space, and what it keeps is a suffix of `s`. */
  lemma {:induction false} DropSpaceSuffix(s: string)
    ensures DropSpace(s) == s[|s| - |DropSpace(s)|..]
    ensures forall i :: 0 <= i < |s| - |DropSpace(s)| ==> IsSpace(s[i])
  {
    if s != [] && IsSpace(s[0]) {
      var t := s[1..];
      DropSpaceSuffix(t);
      var r := DropSpace(t);
      assert t[|t| - |r|..] == s[|s| - |r|..];
      forall i | 1 <= i < |s| - |r| ensures IsSpace(s[i]) {
        assert s[i] == t[i - 1];
      }
    }
  }

  /** The longest prefix of `s` without white space. */
  function TakeWord(s: string): (w: string)
    ensures |w| <= |s| && w == s[..|w|] && NoSpace(w)
    ensures |w| < |s| ==> IsSpace(s[|w|])
  {
    if s != [] && !IsSpace(s[0]) then [s[0]] + TakeWord(s[1..]) else []
  }

  /** The words that repeated `stream >> word` extractions yield from a line. */
  function Words(s: string): seq<string>
    decreases |s|
  {
    var t := DropSpace(s);
    if t == [] then []
    else
      var w := TakeWord(t);
      TakeWordNonEmpty(t);
      [w] + Words(t[|w|..])
  }

  lemma TakeWordNonEmpty(t: string)
    requires t != [] && !IsSpace(t[0])
    ensures TakeWord(t) != []
  {
  }

  /** Every word is non-empty and holds no white space. */
  lemma {:induction false} WordsAreWords(s: string)
    ensures forall k :: 0 <= k < |Words(s)| ==> Words(s)[k] != [] && NoSpace(Words(s)[k])
    decreases |s|
  {
    var t := DropSpace(s);
    if t != [] {
      var w := TakeWord(t);
      TakeWordNonEmpty(t);
      var rest := Words(t[|w|..]);
      WordsAreWords(t[|w|..]);
      var ws := Words(s);
      assert ws == [w] + rest;
      forall k | 0 <= k < |ws| ensures ws[k] != [] && NoSpace(ws[k]) {
        if k > 0 {
          assert ws[k] == rest[k - 1];
        }
      }
    }
  }

  /** Words joined by single spaces: a line from which Words recovers them. */
  function Unwords(ws: seq<string>): string {
    if ws == [] then [] else if |ws| == 1 then ws[0] else ws[0] + " " + Unwords(ws[1..])
  }

  lemma {:induction false} TakeWordOfJoin(w: string, rest: string)
    requires NoSpace(w)
    requires rest == [] || IsSpace(rest[0])
    ensures TakeWord(w + rest) == w
  {
    if w != [] {
      assert (w + rest)[1..] == w[1..] + rest;
      TakeWordOfJoin(w[1..], rest);
    } else {
      assert w + rest == rest;
    }
  }

  /** A word followed by nothing or by white space is the first word. */
  lemma WordsOfWordThen(w: string, tail: string)
    requires w != [] && NoSpace(w)
    requires tail == [] || IsSpace(tail[0])
    ensures Words(w + tail) == [w] + Words(tail)
  {
    var s := w + tail;
    assert s[0] == w[0];
    assert DropSpace(s) == s;
    TakeWordOfJoin(w, tail);
    assert s[|w|..] == tail;
  }

  /** Words sees a line only from its first non-blank character on. */
  lemma WordsOfSameStart(s: string, u: string)
    requires DropSpace(s) == DropSpace(u)
    ensures Words(s) == Words(u)
  {
  }

  /** Leading white space is skipped one character at a time. */
  lemma WordsOfLeadingSpace(s: string)
    requires s != [] && IsSpace(s[0])
    ensures Words(s) == Words(s[1..])
  {
    assert DropSpace(s) == DropSpace(s[1..]);
    WordsOfSameStart(s, s[1..]);
  }

  lemma WordsOfSpaceThen(u: string)
    ensures Words(" " + u) == Words(u)
  {
    var s := " " + u;
    assert s[0] == ' ' && s[1..] == u;
    WordsOfLeadingSpace(s);
  }

  /** Splitting undoes joining, for words as Words produces them. */
  lemma {:induction false} WordsOfUnwords(ws: seq<string>)
    requires forall k :: 0 <= k < |ws| ==> ws[k] != [] && NoSpace(ws[k])
    ensures Words(Unwords(ws)) == ws
  {
    if |ws| == 1 {
      WordsOfWordThen(ws[0], []);
      assert ws[0] + [] == ws[0];
    } else if |ws| > 1 {
      var rest := ws[1..];
      assert ws == [ws[0]] + rest;
      var u := Unwords(rest);
      var tail := " " + u;
      assert Unwords(ws) == ws[0] + tail by {
        assert Unwords(ws) == ws[0] + " " + u;
        assert ws[0] + " " + u == ws[0] + (" " + u);
      }
      WordsOfWordThen(ws[0], tail);
      WordsOfSpaceThen(u);
      forall k | 0 <= k < |rest| ensures rest[k] != [] && NoSpace(rest[k]) {
        assert rest[k] == ws[k + 1];
      }
      WordsOfUnwords(rest);
      calc {
        Words(Unwords(ws));
        Words(ws[0] + tail);
        [ws[0]] + Words(tail);
        [ws[0]] + Words(u);
        [ws[0]] + rest;
      }
    }
  }

  /** `s.find(c, from)`: the first position at or after `from` holding `c`. */
  function Find(s: string, c: char, from: nat): (r: Option<nat>)
    ensures r.Some? ==> from <= r.value < |s| && s[r.value] == c
    decreases |s| - from
  {
    if from >= |s| then None else if s[from] == c then Some(from) else Find(s, c, from + 1)
  }

  /** Find returns the first occurrence, and None exactly when there is none. */
  lemma {:induction false} FindFirst(s: string, c: char, from: nat)
    ensures Find(s, c, from).Some? ==> forall i :: from <= i < Find(s, c, from).value ==> s[i] != c
    ensures Find(s, c, from).None? <==> forall i :: from <= i < |s| ==> s[i] != c
    decreases |s| - from
  {
    if from < |s| && s[from] != c {
      FindFirst(s, c, from + 1);
    }
  }

  /** The first position in `i..end` that does not hold white space, or `end`. */
  function SkipSpace(s: string, i: nat, end: nat): (j: nat)
    requires i <= end <= |s|
    ensures i <= j <= end
    decreases end - i
  {
    if i < end && IsSpace(s[i]) then SkipSpace(s, i + 1, end) else i
  }

  /** The end of the run of decimal digits that starts at `i`, within `..end`. */
  function DigitsEnd(s: string, i: nat, end: nat): (j: nat)
    requires i <= end <= |s|
    ensures i <= j <= end
    decreases end - i
  {
    if i < end && IsDigit(s[i]) then DigitsEnd(s, i + 1, end) else i
  }

  lemma {:induction false} SkipSpaceSkips(s: string, i: nat, end: nat)
    requires i <= end <= |s|
    ensures var j := SkipSpace(s, i, end);
            (j < end ==> !IsSpace(s[j])) && forall k :: i <= k < j ==> IsSpace(s[k])
    decreases end - i
  {
    if i < end && IsSpace(s[i]) {
      SkipSpaceSkips(s, i + 1, end);
    }
  }

  lemma {:induction false} DigitsEndStops(s: string, i: nat, end: nat)
    requires i <= end <= |s|
    ensures var j := DigitsEnd(s, i, end);
            (j < end ==> !IsDigit(s[j])) && forall k :: i <= k < j ==> IsDigit(s[k])
    decreases end - i
  {
    if i < end && IsDigit(s[i]) {
      DigitsEndStops(s, i + 1, end);
    }
  }

  /** The value of a digit character; other characters count as zero. */
  function DigitValue(c: char): nat {
    if IsDigit(c) then c as int - '0' as int else 0
  }

  /** The value of the decimal digits `s[i..j]`, read most significant first. */
  function DigitsValue(s: string, i: nat, j: nat): nat
    requires i <= j <= |s|
  {
    if j == i then 0 else 10 * DigitsValue(s, i, j - 1) + DigitValue(s[j - 1])
  }

  /** `std::stoi` applied to the text `s[from..to]`: leading white space, an
      optional sign, then the longest run of digits; no digit throws
      `invalid_argument`, a value outside the range of `int` throws
      `out_of_range`; whatever follows the digits is ignored. */
  function StoiIn(s: string, from: nat, to: nat): (r: Result<int>)
    requires from <= to <= |s|
    ensures r.Ok? ==> INT_MIN <= r.value <= INT_MAX
  {
    var t := SkipSpace(s, from, to);
    var negative := t < to && s[t] == '-';
    var b := if t < to && (s[t] == '-' || s[t] == '+') then t + 1 else t;
    var e := DigitsEnd(s, b, to);
    if e == b then Err(InvalidArgument)
    else
      var v: int := if negative then -(DigitsValue(s, b, e) as int) else DigitsValue(s, b, e);
      if v < INT_MIN || v > INT_MAX then Err(OutOfRange) else Ok(v)
  }

  /** `std::stoi(s)` on a whole string. */
  function Stoi(s: string): Result<int> {
    StoiIn(s, 0, |s|)
  }

  function Digit(n: nat): (c: char)
    requires n < 10
    ensures IsDigit(c) && DigitValue(c) == n
  {
    ('0' as int + n) as char
  }

  /** The decimal numeral of `n`, without sign or leading zeros. */
  function Numeral(n: nat): (s: string)
    ensures s != [] && AllDigits(s)
  {
    if n < 10 then [Digit(n)] else Numeral(n / 10) + [Digit(n % 10)]
  }

  /** The value of leading digits depends only on those digits. */
  lemma {:induction false} DigitsValuePrefix(s: string, t: string, j: nat)
    requires j <= |s| && j <= |t| && s[..j] == t[..j]
    ensures DigitsValue(s, 0, j) == DigitsValue(t, 0, j)
  {
    if j > 0 {
      assert s[j - 1] == s[..j][j - 1] == t[..j][j - 1] == t[j - 1];
      assert s[..j - 1] == s[..j][..j - 1] && t[..j - 1] == t[..j][..j - 1];
      DigitsValuePrefix(s, t, j - 1);
    }
  }

  /** The digits of a numeral read back as its value. */
  lemma {:induction false} DigitsValueOfNumeral(n: nat)
    ensures DigitsValue(Numeral(n), 0, |Numeral(n)|) == n
  {
    var s := Numeral(n);
    if n < 10 {
      assert DigitsValue(s, 0, 0) == 0;
    } else {
      var u := Numeral(n / 10);
      assert s == u + [Digit(n % 10)];
      assert s[..|u|] == u[..|u|];
      DigitsValueOfNumeral(n / 10);
      DigitsValuePrefix(s, u, |u|);
      assert DigitsValue(s, 0, |s|) == 10 * DigitsValue(s, 0, |u|) + DigitValue(s[|u|]);
    }
  }

  lemma {:induction false} DigitsEndAll(s: string, i: nat, end: nat)
    requires i <= end <= |s|
    requires forall k :: i <= k < end ==> IsDigit(s[k])
    ensures DigitsEnd(s, i, end) == end
    decreases end - i
  {
    if i < end {
      DigitsEndAll(s, i + 1, end);
    }
  }

  /** `stoi` of a text made of digits only is their value, when `int` holds it. */
  lemma StoiOfDigits(s: string, i: nat, j: nat)
    requires i < j <= |s|
    requires forall k :: i <= k < j ==> IsDigit(s[k])
    requires DigitsValue(s, i, j) <= INT_MAX
    ensures StoiIn(s, i, j) == Ok(DigitsValue(s, i, j))
  {
    assert IsDigit(s[i]);
    assert SkipSpace(s, i, j) == i;
    DigitsEndAll(s, i, j);
  }

  predicate NoSlash(s: string) { forall i :: 0 <= i < |s| ==> s[i] != '/' }

  function Shifted(r: Option<nat>, d: nat): Option<nat> {
    match r
    case None => None
    case Some(k) => Some(k + d)
  }

  lemma FindNone(s: string, c: char, from: nat)
    requires forall i :: from <= i < |s| ==> s[i] != c
    ensures Find(s, c, from) == None
  {
  }

  /** Searching `x + y` past `x` is searching `y`, shifted by `|x|`. */
  lemma {:induction false} FindShift(x: string, y: string, c: char, j: nat)
    requires j <= |y|
    ensures Find(x + y, c, |x| + j) == Shifted(Find(y, c, j), |x|)
    decreases |y| - j
  {
    if j < |y| {
      assert (x + y)[|x| + j] == y[j];
      FindShift(x, y, c, j + 1);
    }
  }

  /** Searching `x + y` from inside `x`, with no `c` in the rest of `x`. */
  lemma {:induction false} FindPast(x: string, y: string, c: char, from: nat)
    requires from <= |x|
    requires forall i :: from <= i < |x| ==> x[i] != c
    ensures Find(x + y, c, from) == Shifted(Find(y, c, 0), |x|)
    decreases |x| - from
  {
    if from < |x| {
      assert (x + y)[from] == x[from];
      FindPast(x, y, c, from + 1);
    } else {
      FindShift(x, y, c, 0);
    }
  }

  /** In `a/b` with no slash in `a` or `b`, the only slash is at `|a|`. */
  lemma SlashesOfOne(a: string, b: string)
    requires NoSlash(a) && NoSlash(b)
    ensures Find(a + "/" + b, '/', 0) == Some(|a|) && Find(a + "/" + b, '/', |a| + 1) == None
  {
    assert a + "/" + b == a + ("/" + b);
    FindPast(a, "/" + b, '/', 0);
    FindShift(a + "/", b, '/', 0);
    FindNone(b, '/', 0);
  }

  /** In `a/b/c` with no slash in `a` or `b`, the first two slashes are at
      `|a|` and `|a| + 1 + |b|`. */
  lemma SlashesOfTwo(a: string, b: string, c: string)
    requires NoSlash(a) && NoSlash(b)
    ensures Find(a + "/" + b + "/" + c, '/', 0) == Some(|a|)
    ensures Find(a + "/" + b + "/" + c, '/', |a| + 1) == Some(|a| + 1 + |b|)
  {
    var rest := b + "/" + c;
    assert a + "/" + b + "/" + c == a + ("/" + rest);
    FindPast(a, "/" + rest, '/', 0);
    assert a + "/" + b + "/" + c == (a + "/") + rest;
    FindShift(a + "/", rest, '/', 0);
    assert rest == b + ("/" + c);
    FindPast(b, "/" + c, '/', 0);
  }

  /** In `a//c` with no slash in `a`, the first two slashes are adjacent. */
  lemma SlashesOfAdjacent(a: string, c: string)
    requires NoSlash(a)
    ensures Find(a + "//" + c, '/', 0) == Some(|a|) && Find(a + "//" + c, '/', |a| + 1) == Some(|a| + 1)
  {
    assert a + "//" + c == a + ("//" + c);
    FindPast(a, "//" + c, '/', 0);
    assert a + "//" + c == (a + "/") + ("/" + c);
    FindShift(a + "/", "/" + c, '/', 0);
  }

  lemma StoiOfWholeNumeral(n: nat)
    requires n <= INT_MAX
    ensures Stoi(Numeral(n)) == Ok(n)
  {
    DigitsValueOfNumeral(n);
    StoiOfDigits(Numeral(n), 0, |Numeral(n)|);
  }

  lemma NumeralNoSlash(n: nat)
    ensures NoSlash(Numeral(n))
  {
  }

  lemma FieldsOfOne(a: string, b: string)
    ensures (a + "/" + b)[0..|a|] == a && (a + "/" + b)[|a| + 1..|a + "/" + b|] == b
  {
  }

  lemma FieldsOfAdjacent(a: string, c: string)
    ensures (a + "//" + c)[0..|a|] == a && (a + "//" + c)[|a| + 2..|a + "//" + c|] == c
  {
  }

  lemma FieldsOfTwo(a: string, b: string, c: string)
    ensures var s := a + "/" + b + "/" + c;
            s[0..|a|] == a && s[|a| + 1..|a| + 1 + |b|] == b && s[|a| + 1 + |b| + 1..|s|] == c
  {
  }

  /** The value of the `k`-th word read as a float, or 0.0 when the line has
      fewer words; `readFloat` stands for the text-to-float conversion. */
  function Coord(words: seq<string>, k: nat, readFloat: string -> real): real {
    if k < |words| then readFloat(words[k]) else 0.0
  }

  /** The point a `v x y z` or `vn x y z` line describes. */
  function Point3(words: seq<string>, readFloat: string -> real): Vec3 {
    Vec3(Coord(words, 1, readFloat), Coord(words, 2, readFloat), Coord(words, 3, readFloat))
  }

  /** The point a `vt u v` line describes. */
  function Point2(words: seq<string>, readFloat: string -> real): Vec2 {
    Vec2(Coord(words, 1, readFloat), Coord(words, 2, readFloat))
  }

  /** The four keywords the readers look for are different strings. */
  lemma KeywordsDistinct()
    ensures "v" != "vt" && "v" != "vn" && "v" != "f" && "vt" != "vn" && "vt" != "f" && "vn" != "f"
  {
    assert |"v"| == 1 && |"f"| == 1 && |"vt"| == 2 && |"vn"| == 2;
    assert "v"[0] != "f"[0] && "vt"[1] != "vn"[1];
  }

  /** The keyword of a line: its first word, or the empty string. */
  function Keyword(line: string): string {
    var ws := Words(line);
    if ws == [] then "" else ws[0]
  }

  /** Reference selection: the points of the lines whose keyword is `kw`,
      in file order. */
  function PointsOf(lines: seq<string>, kw: string, readFloat: string -> real): seq<Vec3> {
    if lines == [] then []
    else
      var last := lines[|lines| - 1];
      PointsOf(lines[..|lines| - 1], kw, readFloat)
        + (if Keyword(last) == kw then [Point3(Words(last), readFloat)] else [])
  }

  /** Reference selection: the face tokens (the words after `f`) of every
      face line, in file order. */
  function FaceLinesOf(lines: seq<string>): seq<seq<string>> {
    if lines == [] then []
    else
      var last := lines[|lines| - 1];
      FaceLinesOf(lines[..|lines| - 1]) + (if Keyword(last) == "f" then [Words(last)[1..]] else [])
  }
}
