/**
 Shared vocabulary of the scripts: a failure-compatible result type for the
 exceptions the scripts raise, and the handful of Python string operations the
 scripts rely on (`str.split(sep)`, `str.split()`, `str.lower()`, `str.strip()`,
 `in` on strings, `int(float(...))`), restricted to ASCII.
 */
module Common {

  datatype Option<+T> = None | Some(value: T)

  /** A raised exception is an `Err` carrying a short reason. */
  datatype Result<+T> = Ok(value: T) | Err(reason: string) {
    predicate IsFailure() { Err? }

    function PropagateFailure<U>(): Result<U>
      requires Err?
    {
      Err(reason)
    }

    function Extract(): T
      requires Ok?
    {
      value
    }
  }

  /** A loop whose every iteration may raise: all the values in order, or
      the first failure. */
  function Collect<T>(rs: seq<Result<T>>): (r: Result<seq<T>>)
    ensures r.Ok? <==> forall i :: 0 <= i < |rs| ==> rs[i].Ok?
    ensures r.Ok? ==> |r.value| == |rs| && forall i :: 0 <= i < |rs| ==> rs[i] == Ok(r.value[i])
    decreases |rs|
  {
    if |rs| == 0 then Ok([])
    else
      match rs[0]
      case Err(e) => Err(e)
      case Ok(v) =>
        var rest := Collect(rs[1..]);
        assert forall i :: 1 <= i < |rs| ==> rs[i] == rs[1..][i - 1];
        match rest
        case Err(e) => Err(e)
        case Ok(vs) => Ok([v] + vs)
  }

  /** A loop none of whose iterations raises gives exactly their values. */
  lemma CollectAllOk<T>(rs: seq<Result<T>>, vs: seq<T>)
    requires |rs| == |vs| && forall i :: 0 <= i < |rs| ==> rs[i] == Ok(vs[i])
    ensures Collect(rs) == Ok(vs)
  {
    var r := Collect(rs);
    assert r.Ok?;
    assert r.value == vs;
  }

  /** The concatenation of a sequence of blocks. */
  function Concat<T>(ss: seq<seq<T>>): seq<T>
    decreases |ss|
  {
    if |ss| == 0 then [] else ss[0] + Concat(ss[1..])
  }

  /** What the concatenation holds is what some block holds. */
  lemma {:induction false} InConcat<T>(ss: seq<seq<T>>, x: T)
    ensures x in Concat(ss) <==> exists k :: 0 <= k < |ss| && x in ss[k]
    decreases |ss|
  {
    if |ss| > 0 {
      InConcat(ss[1..], x);
      assert forall k :: 1 <= k < |ss| ==> ss[1..][k - 1] == ss[k];
      if x in Concat(ss[1..]) {
        var k :| 0 <= k < |ss| - 1 && x in ss[1..][k];
        assert x in ss[k + 1];
      }
    }
  }

  /** The position of entry `k` of block `e` when `n` blocks of `m` entries
      are laid end to end. */
  function BlockIndex(e: nat, k: nat, n: nat, m: nat): (i: nat)
    requires e < n && k < m
    ensures i < n * m
  {
    assert e * m + k < (e + 1) * m <= n * m by {
      assert n * m == (e + 1) * m + (n - e - 1) * m;
    }
    e * m + k
  }

  /** Every position of `n` blocks of `m` entries is some block's entry. */
  lemma BlockOf(i: nat, n: nat, m: nat) returns (e: nat, k: nat)
    requires i < n * m
    ensures e < n && k < m && BlockIndex(e, k, n, m) == i
  {
    e, k := i / m, i % m;
    assert i == e * m + k;
  }

  /** Blocks of `m` entries each concatenate to `|ss| * m` entries. */
  lemma {:induction false} ConcatLength<T>(ss: seq<seq<T>>, m: nat)
    requires forall i :: 0 <= i < |ss| ==> |ss[i]| == m
    ensures |Concat(ss)| == |ss| * m
    decreases |ss|
  {
    if |ss| > 0 {
      assert forall i :: 0 <= i < |ss| - 1 ==> ss[1..][i] == ss[i + 1];
      ConcatLength(ss[1..], m);
      assert |ss| * m == m + (|ss| - 1) * m;
    }
  }

  /** Entry `k` of block `e` of blocks of `m` entries sits at
      `BlockIndex(e, k, |ss|, m)` of the concatenation. */
  lemma {:induction false} ConcatAt<T>(ss: seq<seq<T>>, m: nat, e: nat, k: nat)
    requires forall i :: 0 <= i < |ss| ==> |ss[i]| == m
    requires e < |ss| && k < m
    ensures |Concat(ss)| == |ss| * m
    ensures Concat(ss)[BlockIndex(e, k, |ss|, m)] == ss[e][k]
    decreases |ss|
  {
    ConcatLength(ss, m);
    assert Concat(ss) == ss[0] + Concat(ss[1..]);
    if e > 0 {
      assert forall i :: 0 <= i < |ss| - 1 ==> ss[1..][i] == ss[i + 1];
      ConcatAt(ss[1..], m, e - 1, k);
      assert BlockIndex(e, k, |ss|, m) == m + BlockIndex(e - 1, k, |ss| - 1, m) by {
        assert e * m == m + (e - 1) * m;
      }
    }
  }

  // ---------------------------------------------------------------------------
  // str.split(sep) and its inverse, sep.join(...)
  // ---------------------------------------------------------------------------

  /** `sep.join(fields)` for a one-character separator. */
  function Join(fields: seq<string>, sep: char): string
    requires |fields| >= 1
  {
    if |fields| == 1 then fields[0] else fields[0] + [sep] + Join(fields[1..], sep)
  }

  /** `s.split(sep)`: always at least one field, and no field holds the separator. */
  function Split(s: string, sep: char): (r: seq<string>)
    ensures |r| >= 1
    ensures forall i :: 0 <= i < |r| ==> sep !in r[i]
    decreases |s|
  {
    if |s| == 0 then [""]
    else
      var rest := Split(s[1..], sep);
      if s[0] == sep then [""] + rest
      else [[s[0]] + rest[0]] + rest[1..]
  }

  lemma {:induction false} JoinConsFirst(c: char, fields: seq<string>, sep: char)
    requires |fields| >= 1
    ensures Join([[c] + fields[0]] + fields[1..], sep) == [c] + Join(fields, sep)
  {
    var g := [[c] + fields[0]] + fields[1..];
    if |fields| == 1 {
    } else {
      assert g[1..] == fields[1..];
    }
  }

  /** Joining the fields of a split gives back the string. */
  lemma {:induction false} JoinSplit(s: string, sep: char)
    ensures Join(Split(s, sep), sep) == s
    decreases |s|
  {
    if |s| == 0 {
    } else {
      var rest := Split(s[1..], sep);
      JoinSplit(s[1..], sep);
      if s[0] == sep {
        assert ([""] + rest)[1..] == rest;
        assert s == [sep] + s[1..];
      } else {
        JoinConsFirst(s[0], rest, sep);
        assert s == [s[0]] + s[1..];
      }
    }
  }

  lemma {:induction false} SplitNoSep(w: string, sep: char)
    requires sep !in w
    ensures Split(w, sep) == [w]
    decreases |w|
  {
    if |w| > 0 {
      SplitNoSep(w[1..], sep);
      assert [w[0]] + w[1..] == w;
    }
  }

  lemma {:induction false} SplitAtSep(w: string, t: string, sep: char)
    requires sep !in w
    ensures Split(w + [sep] + t, sep) == [w] + Split(t, sep)
    decreases |w|
  {
    var s := w + [sep] + t;
    if |w| == 0 {
      assert s[1..] == t;
    } else {
      assert s[1..] == w[1..] + [sep] + t;
      SplitAtSep(w[1..], t, sep);
      assert [w[0]] + w[1..] == w;
    }
  }

  /** Splitting a join of separator-free fields gives back the fields. */
  lemma {:induction false} SplitJoin(fields: seq<string>, sep: char)
    requires |fields| >= 1
    requires forall i :: 0 <= i < |fields| ==> sep !in fields[i]
    ensures Split(Join(fields, sep), sep) == fields
    decreases |fields|
  {
    if |fields| == 1 {
      SplitNoSep(fields[0], sep);
    } else {
      SplitJoin(fields[1..], sep);
      SplitAtSep(fields[0], Join(fields[1..], sep), sep);
      assert [fields[0]] + fields[1..] == fields;
    }
  }

  /** A split gives more than one field exactly when the separator occurs. */
  lemma {:induction false} SplitFindsSep(s: string, sep: char)
    ensures |Split(s, sep)| >= 2 <==> sep in s
    decreases |s|
  {
    if |s| > 0 {
      SplitFindsSep(s[1..], sep);
      assert s == [s[0]] + s[1..];
    }
  }

  /** The last field of a split only depends on what follows the last
      separator. */
  lemma {:induction false} SplitLast(w: string, t: string, sep: char)
    ensures var a, b := Split(w + [sep] + t, sep), Split(t, sep);
      a[|a| - 1] == b[|b| - 1]
    decreases |w|
  {
    var s := w + [sep] + t;
    if |w| == 0 {
      assert s[1..] == t;
    } else {
      assert s[1..] == w[1..] + [sep] + t;
      SplitLast(w[1..], t, sep);
      SplitFindsSep(s[1..], sep);
      assert sep in s[1..] by {
        assert s[1..][|w| - 1] == sep;
      }
    }
  }

  // ---------------------------------------------------------------------------
  // Case, whitespace and substring helpers
  // ---------------------------------------------------------------------------

  function LowerChar(c: char): char {
    if 'A' <= c <= 'Z' then (c as int - 'A' as int + 'a' as int) as char else c
  }

  /** `s.lower()` on ASCII letters. */
  function Lower(s: string): (r: string)
    ensures |r| == |s|
    ensures forall i :: 0 <= i < |s| ==> r[i] == LowerChar(s[i])
  {
    seq(|s|, i requires 0 <= i < |s| => LowerChar(s[i]))
  }

  predicate IsSpace(c: char) {
    c in Whitespace
  }

  /** `sub in s` for strings. */
  predicate HasSubstring(s: string, sub: string)
    decreases |s|
  {
    |sub| <= |s| && (s[..|sub|] == sub || (|s| > 0 && HasSubstring(s[1..], sub)))
  }

  /** `s.strip(chars)`: drop every leading and trailing character in `chars`. */
  function StripLeft(s: string, chars: set<char>): (r: string)
    ensures |r| <= |s| && r == s[|s| - |r|..]
    ensures |r| > 0 ==> r[0] !in chars
    decreases |s|
  {
    if |s| > 0 && s[0] in chars then StripLeft(s[1..], chars) else s
  }

  function StripRight(s: string, chars: set<char>): (r: string)
    ensures |r| <= |s| && r == s[..|r|]
    ensures |r| > 0 ==> r[|r| - 1] !in chars
    decreases |s|
  {
    if |s| > 0 && s[|s| - 1] in chars then StripRight(s[..|s| - 1], chars) else s
  }

  function Strip(s: string, chars: set<char>): string {
    StripRight(StripLeft(s, chars), chars)
  }

  const Whitespace: set<char> := {' ', '\t', '\n', '\r', '\U{000B}', '\U{000C}', '\U{001C}', '\U{001D}', '\U{001E}', '\U{001F}'}

  /** `s.split()` with no argument: maximal runs of non-whitespace. */
  function Words(s: string): (r: seq<string>)
    ensures forall i :: 0 <= i < |r| ==> |r[i]| > 0
    decreases |s|, 1
  {
    WordsFrom(StripLeft(s, Whitespace))
  }

  /** The words of a text that does not start with whitespace. */
  function WordsFrom(t: string): (r: seq<string>)
    requires |t| == 0 || t[0] !in Whitespace
    ensures forall i :: 0 <= i < |r| ==> |r[i]| > 0
    decreases |t|, 0
  {
    if |t| == 0 then []
    else
      var w := FirstWord(t);
      [w] + Words(t[|w|..])
  }

  function FirstWord(s: string): (w: string)
    requires |s| > 0 && !IsSpace(s[0])
    ensures 0 < |w| <= |s| && w == s[..|w|]
  {
    var k := FirstSpaceFrom(s, 0);
    s[..k]
  }

  function FirstSpaceFrom(s: string, k: nat): (r: nat)
    requires k <= |s|
    ensures k <= r <= |s|
    ensures forall j :: k <= j < r ==> !IsSpace(s[j])
    decreases |s| - k
  {
    if k == |s| || IsSpace(s[k]) then k else FirstSpaceFrom(s, k + 1)
  }

  // ---------------------------------------------------------------------------
  // Numbers
  // ---------------------------------------------------------------------------

  predicate IsDigit(c: char) { '0' <= c <= '9' }

  predicate AllDigits(s: string) { forall i :: 0 <= i < |s| ==> IsDigit(s[i]) }

  /** Value of a run of decimal digits. */
  function DigitsValue(s: string): (n: nat)
    requires AllDigits(s)
    decreases |s|
  {
    if |s| == 0 then 0
    else DigitsValue(s[..|s| - 1]) * 10 + (s[|s| - 1] as int - '0' as int)
  }

  function Pow10(k: nat): (p: nat)
    ensures p >= 1
  {
    if k == 0 then 1 else 10 * Pow10(k - 1)
  }

  /** Decimal text of a natural number (`str(n)`), no leading zeros. */
  function NatToString(n: nat): (s: string)
    ensures |s| >= 1 && AllDigits(s)
    ensures DigitsValue(s) == n
    decreases n
  {
    var d := [('0' as int + n % 10) as char];
    if n < 10 then d
    else
      var s := NatToString(n / 10) + d;
      assert s[..|s| - 1] == NatToString(n / 10);
      s
  }

  function IndexOf(s: string, c: char): (r: Option<nat>)
    ensures r.Some? ==> r.value < |s| && s[r.value] == c && c !in s[..r.value]
    ensures r.None? ==> c !in s
    decreases |s|
  {
    if |s| == 0 then None
    else if s[0] == c then Some(0)
    else
      match IndexOf(s[1..], c)
      case None => None
      case Some(k) => assert s[1..][..k] == s[1..k + 1]; Some(k + 1)
  }

  /** `float(s)` for plain decimal literals: optional sign, digits, an optional
      fractional part; at least one digit. Other spellings are refused. */
  function ParseDecimal(s: string): Option<real> {
    if |s| == 0 then None
    else if s[0] == '-' || s[0] == '+' then
      match ParseUnsigned(s[1..])
      case None => None
      case Some(v) => Some(if s[0] == '-' then -v else v)
    else ParseUnsigned(s)
  }

  function ParseUnsigned(s: string): (r: Option<real>)
    ensures r.Some? ==> r.value >= 0.0
  {
    match IndexOf(s, '.')
    case None =>
      if |s| > 0 && AllDigits(s) then Some(DigitsValue(s) as real) else None
    case Some(k) =>
      var whole := s[..k];
      var frac := s[k + 1..];
      if |whole| + |frac| > 0 && AllDigits(whole) && AllDigits(frac)
      then
        FractionNonNegative(DigitsValue(frac), Pow10(|frac|));
        Some(DigitsValue(whole) as real + DigitsValue(frac) as real / Pow10(|frac|) as real)
      else None
  }

  lemma FractionNonNegative(n: nat, d: nat)
    requires d >= 1
    ensures n as real / d as real >= 0.0
  {
  }

  /** `float(s)`: surrounding whitespace is ignored, and what remains must be
      a decimal literal as `ParseFloatLiteral` reads it. */
  function ParseFloat(s: string): Option<real> {
    ParseFloatLiteral(Strip(s, Whitespace))
  }

  /** A decimal literal with an optional exponent: a mantissa as
      `ParseDecimal` reads it, then `e` or `E` and a signed run of digits. */
  function ParseFloatLiteral(s: string): Option<real> {
    match IndexOf(Lower(s), 'e')
    case None => ParseDecimal(s)
    case Some(k) =>
      match ParseDecimal(s[..k])
      case None => None
      case Some(m) =>
        match ParseIntLiteral(s[k + 1..])
        case None => None
        case Some(x) => Some(if x >= 0 then m * Pow10(x) as real else m / Pow10(-x) as real)
  }

  /** `int(s)` on text: surrounding whitespace is ignored, and what remains
      must be an integer literal as `ParseIntLiteral` reads it. */
  function ParseInt(s: string): Option<int> {
    ParseIntLiteral(Strip(s, Whitespace))
  }

  /** An optionally signed, non-empty run of digits (also the exponent of a
      float literal, where no whitespace is allowed). */
  function ParseIntLiteral(s: string): (r: Option<int>)
    ensures r.Some? ==> |s| > 0
  {
    if |s| > 0 && (s[0] == '-' || s[0] == '+') then
      var digits := s[1..];
      if |digits| > 0 && AllDigits(digits) then
        Some(if s[0] == '-' then 0 - DigitsValue(digits) as int else DigitsValue(digits))
      else None
    else if |s| > 0 && AllDigits(s) then Some(DigitsValue(s))
    else None
  }

  /** Without an exponent marker a literal is read as a plain decimal. */
  lemma ParseFloatWithoutExponent(s: string)
    requires 'e' !in s && 'E' !in s
    ensures ParseFloatLiteral(s) == ParseDecimal(s)
  {
    var l := Lower(s);
    forall i | 0 <= i < |l| ensures l[i] != 'e' {
      assert s[i] in s;
    }
  }

  /** Leading whitespace is dropped whatever follows it. */
  lemma {:induction false} StripLeftBlanks(pre: string, s: string)
    requires forall i :: 0 <= i < |pre| ==> pre[i] in Whitespace
    requires |s| > 0 && s[0] !in Whitespace
    ensures StripLeft(pre + s, Whitespace) == s
    decreases |pre|
  {
    if |pre| > 0 {
      assert (pre + s)[1..] == pre[1..] + s;
      StripLeftBlanks(pre[1..], s);
    } else {
      assert pre + s == s;
    }
  }

  /** Trailing whitespace is dropped whatever precedes it. */
  lemma {:induction false} StripRightBlanks(s: string, post: string)
    requires forall i :: 0 <= i < |post| ==> post[i] in Whitespace
    requires |s| > 0 && s[|s| - 1] !in Whitespace
    ensures StripRight(s + post, Whitespace) == s
    decreases |post|
  {
    if |post| > 0 {
      assert (s + post)[..|s + post| - 1] == s + post[..|post| - 1];
      StripRightBlanks(s, post[..|post| - 1]);
    } else {
      assert s + post == s;
    }
  }

  /** `float` and `int` read a literal padded with whitespace on either side
      as the literal itself. */
  lemma PaddedNumbers(pre: string, s: string, post: string)
    requires forall i :: 0 <= i < |pre| ==> pre[i] in Whitespace
    requires forall i :: 0 <= i < |post| ==> post[i] in Whitespace
    requires |s| > 0 && s[0] !in Whitespace && s[|s| - 1] !in Whitespace
    ensures ParseFloat(pre + s + post) == ParseFloatLiteral(s)
    ensures ParseInt(pre + s + post) == ParseIntLiteral(s)
  {
    assert pre + s + post == pre + (s + post);
    StripLeftBlanks(pre, s + post);
    StripRightBlanks(s, post);
  }

  /** Python's `int(x)` on a float: truncation toward zero. */
  function TruncToInt(x: real): (n: int)
    ensures x >= 0.0 ==> n as real <= x < n as real + 1.0
    ensures x < 0.0 ==> n as real - 1.0 < x <= n as real
  {
    if x >= 0.0 then x.Floor else -((-x).Floor)
  }

  /** `int(float(s))`. */
  function ParseIntOfFloat(s: string): Option<int> {
    match ParseFloat(s)
    case None => None
    case Some(v) => Some(TruncToInt(v))
  }

  /** Python's `int(a / b)` for integers: true division truncated toward zero. */
  function TruncDiv(a: int, b: int): (q: int)
    requires b > 0
    ensures a >= 0 ==> q == a / b
    ensures a < 0 ==> q == -((-a) / b)
  {
    if a >= 0 then a / b else -((-a) / b)
  }

  function Max(a: int, b: int): int { if a >= b then a else b }

  function MaxReal(a: real, b: real): real { if a >= b then a else b }

  function AbsReal(x: real): real { if x < 0.0 then -x else x }
}
