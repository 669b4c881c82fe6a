/**
 * The small part of JavaScript's semantics the rest of the model relies on:
 * optional values and thrown errors, the truncating `%` operator, UTF-16 code
 * units, `String.prototype.trim`, and the search and split operations on strings.
 */
module JsCore {

  /** A value that may be `undefined`. */
  datatype Option<+T> = None | Some(value: T) {
    function GetOr(default: T): T {
      match this
      case Some(v) => v
      case None => default
    }
  }

  /** A computation that either returns a value or throws. */
  datatype Result<+R, +E> = Success(value: R) | Failure(error: E)

  // ---------------------------------------------------------------------------
  // Numbers
  // ---------------------------------------------------------------------------

  function Abs(x: int): nat { if x < 0 then -x else x }

  /**
   * JavaScript's `a % b` on integral operands and a positive divisor: the
   * quotient is truncated towards zero, so the remainder has the sign of the
   * dividend.  (Dafny's own `%` is Euclidean and never negative.)
   */
  function JsRem(a: int, b: int): (r: int)
    requires b > 0
    ensures -b < r < b
    ensures r == 0 || (r > 0 <==> a > 0)
    ensures a >= 0 ==> r == a % b
  {
    if a > 0 then a % b else if a == 0 then 0 else -((-a) % b)
  }

  /** The remainder is zero under the truncating rule exactly when it is under the Euclidean one. */
  lemma JsRemZeroIff(a: int, b: int)
    requires b > 0
    ensures JsRem(a, b) == 0 <==> a % b == 0
  {
    if a < 0 {
      if a % b == 0 { NegatedMultiple(a, b); }
      if (-a) % b == 0 { NegatedMultiple(-a, b); }
    }
  }

  lemma NegatedMultiple(x: int, b: int)
    requires b > 0 && x % b == 0
    ensures (-x) % b == 0
  {
    var q, y := x / b, -x;
    assert x == b * q;
    assert y == b * (y / b) + y % b;
    assert b * (-q - y / b) == y % b;
    SmallMultipleIsZero(-q - y / b, b);
  }

  lemma SmallMultipleIsZero(k: int, b: int)
    requires b > 0 && 0 <= b * k < b
    ensures k == 0
  {
  }

  /** On a non-negative dividend JavaScript's `%` and Dafny's agree. */
  lemma JsRemOfNatural(a: nat, b: int)
    requires b > 0
    ensures JsRem(a, b) == a % b
  {
  }

  // ---------------------------------------------------------------------------
  // UTF-16
  // ---------------------------------------------------------------------------

  /** A UTF-16 code unit. */
  type CodeUnit = u: int | 0 <= u < 0x1_0000

  /** The UTF-16 encoding of one character: one unit in the Basic Multilingual Plane, a surrogate pair above it. */
  function CodeUnitsOf(c: char): (u: seq<CodeUnit>)
    ensures |u| == (if c as int < 0x1_0000 then 1 else 2)
    ensures c as int < 0x1_0000 ==> u[0] == c as int
    ensures c as int >= 0x1_0000 ==> 0xD800 <= u[0] < 0xDC00 && 0xDC00 <= u[1] < 0xE000
  {
    var v := c as int;
    if v < 0x1_0000 then [v]
    else [0xD800 + (v - 0x1_0000) / 0x400, 0xDC00 + (v - 0x1_0000) % 0x400]
  }

  /** The sequence of UTF-16 code units a JavaScript string is made of. */
  function Utf16(s: string): (u: seq<CodeUnit>)
    ensures |s| <= |u| <= 2 * |s|
    ensures |u| == 0 <==> |s| == 0
    decreases |s|
  {
    if s == [] then [] else Utf16(s[..|s| - 1]) + CodeUnitsOf(s[|s| - 1])
  }

  /** JavaScript's `s.length`: the number of code units. */
  function Utf16Length(s: string): nat {
    |Utf16(s)|
  }

  /** A string of characters below U+10000 has as many code units as characters. */
  lemma {:induction false} Utf16LengthOfBmp(s: string)
    requires forall i :: 0 <= i < |s| ==> s[i] as int < 0x1_0000
    ensures Utf16Length(s) == |s|
  {
    if s != [] {
      Utf16LengthOfBmp(s[..|s| - 1]);
    }
  }

  /** `s.charCodeAt(s.length - 1)`: the last code unit of a non-empty string. */
  function LastCodeUnit(s: string): (u: CodeUnit)
    requires s != []
    ensures u == (if s[|s| - 1] as int < 0x1_0000 then s[|s| - 1] as int
                  else 0xDC00 + (s[|s| - 1] as int - 0x1_0000) % 0x400)
  {
    var units := Utf16(s);
    units[|units| - 1]
  }

  // ---------------------------------------------------------------------------
  // trim
  // ---------------------------------------------------------------------------

  /**
   * The characters `String.prototype.trim` removes: ECMAScript's WhiteSpace
   * (TAB, VT, FF, ZWNBSP and the Unicode space separators) and LineTerminator
   * (LF, CR, LS, PS), as of Unicode 15.
   */
  predicate IsJsWhitespace(c: char) {
    var v := c as int;
    v == 0x09 || v == 0x0A || v == 0x0B || v == 0x0C || v == 0x0D || v == 0x20
    || v == 0xA0 || v == 0x1680 || (0x2000 <= v <= 0x200A) || v == 0x2028 || v == 0x2029
    || v == 0x202F || v == 0x205F || v == 0x3000 || v == 0xFEFF
  }

  predicate AllWhitespace(s: string) {
    forall i :: 0 <= i < |s| ==> IsJsWhitespace(s[i])
  }

  /** The string without its leading whitespace. */
  function TrimStart(s: string): string {
    if s != [] && IsJsWhitespace(s[0]) then TrimStart(s[1..]) else s
  }

  /** The string without its trailing whitespace. */
  function TrimEnd(s: string): string {
    if s != [] && IsJsWhitespace(s[|s| - 1]) then TrimEnd(s[..|s| - 1]) else s
  }

  /** Trimming the start leaves a suffix that does not start with whitespace, and only whitespace is removed. */
  lemma {:induction false} TrimStartSuffix(s: string)
    ensures |TrimStart(s)| <= |s| && TrimStart(s) == s[|s| - |TrimStart(s)|..]
    ensures TrimStart(s) == [] || !IsJsWhitespace(TrimStart(s)[0])
    ensures AllWhitespace(s[..|s| - |TrimStart(s)|])
    decreases |s|
  {
    if s != [] && IsJsWhitespace(s[0]) {
      TrimStartSuffix(s[1..]);
      var r := TrimStart(s[1..]);
      assert s[1..][..|s| - 1 - |r|] == s[1..|s| - |r|];
      assert s[1..][|s| - 1 - |r|..] == s[|s| - |r|..];
    } else {
      assert s[..0] == [];
    }
  }

  /** Trimming the end leaves a prefix that does not end with whitespace, and only whitespace is removed. */
  lemma {:induction false} TrimEndPrefix(s: string)
    ensures |TrimEnd(s)| <= |s| && TrimEnd(s) == s[..|TrimEnd(s)|]
    ensures TrimEnd(s) == [] || !IsJsWhitespace(TrimEnd(s)[|TrimEnd(s)| - 1])
    ensures AllWhitespace(s[|TrimEnd(s)|..])
    decreases |s|
  {
    if s != [] && IsJsWhitespace(s[|s| - 1]) {
      var init := s[..|s| - 1];
      TrimEndPrefix(init);
      var r := TrimEnd(init);
      assert init[..|r|] == s[..|r|];
      assert forall i :: |r| <= i < |s| - 1 ==> s[i] == init[i];
    } else {
      assert s[|s|..] == [];
    }
  }

  /** `s.trim()`. */
  function Trim(s: string): string {
    TrimEnd(TrimStart(s))
  }

  /** `!s.trim()`: the string is empty or all whitespace. */
  predicate IsBlank(s: string) {
    Trim(s) == []
  }

  /** A string trims to nothing exactly when every character of it is whitespace. */
  lemma BlankIffAllWhitespace(s: string)
    ensures IsBlank(s) <==> AllWhitespace(s)
  {
    var t := TrimStart(s);
    if AllWhitespace(s) {
      TrimStartOfWhitespace(s);
    }
    if IsBlank(s) {
      TrimStartSuffix(s);
      TrimEndPrefix(t);
      assert AllWhitespace(t) by { assert t[|Trim(s)|..] == t; }
      var k := |s| - |t|;
      forall i | 0 <= i < |s| ensures IsJsWhitespace(s[i]) {
        if i < k {
          assert s[i] == s[..k][i];
        } else {
          assert s[i] == t[i - k];
        }
      }
    }
  }

  lemma {:induction false} TrimStartOfWhitespace(s: string)
    requires AllWhitespace(s)
    ensures TrimStart(s) == []
  {
    if s != [] {
      TrimStartOfWhitespace(s[1..]);
    }
  }

  /** The trimmed string neither starts nor ends with whitespace, and trimming it again changes nothing. */
  lemma TrimIdempotent(s: string)
    ensures Trim(Trim(s)) == Trim(s)
    ensures Trim(s) == [] || (!IsJsWhitespace(Trim(s)[0]) && !IsJsWhitespace(Trim(s)[|Trim(s)| - 1]))
  {
    var t := TrimStart(s);
    var r := TrimEnd(t);
    TrimStartSuffix(s);
    TrimEndPrefix(t);
    assert r != [] ==> r[0] == t[0];
  }

  /** A string with no whitespace at either end is its own trim. */
  lemma TrimOfTrimmed(s: string)
    requires s == [] || (!IsJsWhitespace(s[0]) && !IsJsWhitespace(s[|s| - 1]))
    ensures Trim(s) == s
  {
  }

  // ---------------------------------------------------------------------------
  // Searching and splitting
  // ---------------------------------------------------------------------------

  predicate StartsWith(s: string, prefix: string) {
    |prefix| <= |s| && s[..|prefix|] == prefix
  }

  /** `sep` occurs in `s` at position `k`. */
  predicate MatchAt(s: string, sep: string, k: int) {
    0 <= k && k + |sep| <= |s| && s[k..k + |sep|] == sep
  }

  /** `s.indexOf(sep, from)`, with `None` for JavaScript's -1. */
  function IndexOf(s: string, sep: string, from: nat): (r: Option<nat>)
    requires from <= |s|
    ensures r.Some? ==> from <= r.value && MatchAt(s, sep, r.value)
    ensures r.Some? ==> forall k :: from <= k < r.value ==> !MatchAt(s, sep, k)
    ensures r.None? ==> forall k :: from <= k ==> !MatchAt(s, sep, k)
    decreases |s| - from
  {
    if MatchAt(s, sep, from) then Some(from)
    else if from + |sep| >= |s| then None
    else IndexOf(s, sep, from + 1)
  }

  /** `s.split(sep)` for a non-empty separator: the pieces between successive, non-overlapping occurrences. */
  function Split(s: string, sep: string): (pieces: seq<string>)
    requires sep != []
    ensures |pieces| >= 1
    decreases |s|
  {
    match IndexOf(s, sep, 0)
    case None => [s]
    case Some(i) => [s[..i]] + Split(s[i + |sep|..], sep)
  }

  /** `pieces.join(sep)`. */
  function Join(pieces: seq<string>, sep: string): string {
    if pieces == [] then ""
    else if |pieces| == 1 then pieces[0]
    else pieces[0] + sep + Join(pieces[1..], sep)
  }

  /** In a string without the character `c`, no separator containing `c` occurs. */
  lemma NoMatchWithoutChar(s: string, sep: string, c: char)
    requires c !in s && c in sep
    ensures forall k :: !MatchAt(s, sep, k)
  {
    var j :| 0 <= j < |sep| && sep[j] == c;
    forall k | 0 <= k && k + |sep| <= |s| ensures !MatchAt(s, sep, k) {
      assert s[k..k + |sep|][j] == s[k + j];
    }
  }

  /**
   * The first piece of a split is the string up to the first occurrence of
   * the separator, or the whole string when there is none: a prefix, no
   * occurrence starts inside it, and it is followed by an occurrence unless it
   * is everything.
   */
  lemma SplitHead(s: string, sep: string)
    requires sep != []
    ensures StartsWith(s, Split(s, sep)[0])
    ensures forall k :: 0 <= k < |Split(s, sep)[0]| ==> !MatchAt(s, sep, k)
    ensures Split(s, sep)[0] == s || MatchAt(s, sep, |Split(s, sep)[0]|)
    ensures forall k :: !MatchAt(Split(s, sep)[0], sep, k)
  {
    var head := Split(s, sep)[0];
    match IndexOf(s, sep, 0)
    case None =>
    case Some(i) =>
      assert head == s[..i];
      forall k | 0 <= k && k + |sep| <= |head| ensures !MatchAt(head, sep, k) {
        assert head[k..k + |sep|] == s[k..k + |sep|];
        assert !MatchAt(s, sep, k);
      }
  }

  /** A string in which the separator does not occur splits into itself alone. */
  lemma SplitWithoutMatch(s: string, sep: string)
    requires sep != [] && forall k :: !MatchAt(s, sep, k)
    ensures Split(s, sep) == [s]
  {
    assert IndexOf(s, sep, 0).None?;
  }

  /**
   * Splitting on a one-character separator undoes joining on it, provided no
   * piece contains that character: `lines.join(c).split(c)` gives `lines` back
   * (for a non-empty list; `[].join(c)` is "" and splits into [""]).
   */
  lemma {:induction false} SplitJoin(pieces: seq<string>, c: char)
    requires pieces != []
    requires forall i :: 0 <= i < |pieces| ==> c !in pieces[i]
    ensures Split(Join(pieces, [c]), [c]) == pieces
  {
    var head := pieces[0];
    NoMatchWithoutChar(head, [c], c);
    if |pieces| == 1 {
      assert IndexOf(head, [c], 0).None?;
    } else {
      var rest := Join(pieces[1..], [c]);
      var s := head + [c] + rest;
      assert Join(pieces, [c]) == s;
      assert MatchAt(s, [c], |head|) by { assert s[|head|..|head| + 1] == [c]; }
      forall k | 0 <= k < |head| ensures !MatchAt(s, [c], k) {
        assert s[k..k + 1] == head[k..k + 1];
        assert !MatchAt(head, [c], k);
      }
      var found := IndexOf(s, [c], 0);
      assert found == Some(|head|);
      assert s[..|head|] == head;
      assert s[|head| + 1..] == rest;
      SplitJoin(pieces[1..], c);
      assert [head] + pieces[1..] == pieces;
    }
  }

  // ---------------------------------------------------------------------------
  // Numbers as text
  // ---------------------------------------------------------------------------

  predicate IsDigit(c: char) { '0' <= c <= '9' }

  /** `String(n)` for a natural number: its decimal digits, without leading zeros. */
  function NatToString(n: nat): (s: string)
    ensures s != [] && forall i :: 0 <= i < |s| ==> IsDigit(s[i])
    ensures |s| > 1 ==> s[0] != '0'
  {
    if n < 10 then [(n + '0' as int) as char]
    else NatToString(n / 10) + [(n % 10 + '0' as int) as char]
  }

  /** The number a string of decimal digits stands for. */
  function DecimalValue(s: string): nat
    requires forall i :: 0 <= i < |s| ==> IsDigit(s[i])
  {
    if s == [] then 0
    else
      assert IsDigit(s[|s| - 1]);
      10 * DecimalValue(s[..|s| - 1]) + (s[|s| - 1] as int - '0' as int)
  }

  /** Reading the decimal text back gives the number. */
  lemma {:induction false} NatToStringRoundTrip(n: nat)
    ensures DecimalValue(NatToString(n)) == n
  {
    if n >= 10 {
      NatToStringRoundTrip(n / 10);
      var s := NatToString(n);
      assert s[..|s| - 1] == NatToString(n / 10);
    }
  }

  /** Distinct numbers have distinct decimal texts. */
  lemma NatToStringInjective(m: nat, n: nat)
    requires NatToString(m) == NatToString(n)
    ensures m == n
  {
    NatToStringRoundTrip(m);
    NatToStringRoundTrip(n);
  }
}
