/** String primitives of the JavaScript runtime that the player relies on:
    substring tests, `String.prototype.split` with a one-character separator,
    the `\s` class of regular expressions, and the question `!isNaN(Number(s))`. */
module Text {

  /** The code points matched by `\s` in an ECMAScript regular expression
      (WhiteSpace and LineTerminator); `Number()` trims the same set. */
  predicate IsJsSpace(c: char) {
    var n := c as int;
    n == 0x09 || n == 0x0A || n == 0x0B || n == 0x0C || n == 0x0D || n == 0x20
    || n == 0xA0 || n == 0x1680 || (0x2000 <= n <= 0x200A) || n == 0x2028
    || n == 0x2029 || n == 0x202F || n == 0x205F || n == 0x3000 || n == 0xFEFF
  }

  /** `\d`: an ASCII digit (ECMAScript's `\d` never matches other digits). */
  predicate IsDigit(c: char) {
    '0' <= c <= '9'
  }

  predicate AllDigits(s: string) {
    forall k :: 0 <= k < |s| ==> IsDigit(s[k])
  }

  /** `t` occurs in `s` starting at index `i`. */
  predicate OccursAt(s: string, t: string, i: int) {
    0 <= i && i + |t| <= |s| && s[i..i + |t|] == t
  }

  /** `s.includes(t)`, and equally `/t/.test(s)` for a pattern without metacharacters. */
  predicate Contains(s: string, t: string) {
    exists i :: 0 <= i <= |s| - |t| && OccursAt(s, t, i)
  }

  lemma ContainsAt(s: string, t: string, i: int)
    requires OccursAt(s, t, i)
    ensures Contains(s, t)
  {
    assert s[i..i + |t|] == t;
  }

  /** An occurrence of `t` puts each of its characters into `s`: if one of them
      is nowhere in `s`, then `t` does not occur in `s`. */
  lemma NotContainsWithout(s: string, t: string, k: nat)
    requires k < |t| && t[k] !in s
    ensures !Contains(s, t)
  {
  }

  // ---------------------------------------------------------------------------
  // split

  /** `s.split(sep)` for a one-character string separator. */
  function Split(s: string, sep: char): (parts: seq<string>)
    ensures |parts| >= 1
    ensures forall k :: 0 <= k < |parts| ==> sep !in parts[k]
    decreases |s|
  {
    if |s| == 0 then [""]
    else
      var rest := Split(s[1..], sep);
      if s[0] == sep then [""] + rest
      else [[s[0]] + rest[0]] + rest[1..]
  }

  /** `parts.join(sep)`. */
  function Join(parts: seq<string>, sep: char): string
    requires |parts| >= 1
    decreases |parts|
  {
    if |parts| == 1 then parts[0] else parts[0] + [sep] + Join(parts[1..], sep)
  }

  /** Number of occurrences of the character `c` in `s`. */
  function CountChar(s: string, c: char): nat
    decreases |s|
  {
    if |s| == 0 then 0 else (if s[0] == c then 1 else 0) + CountChar(s[1..], c)
  }

  /** Joining the pieces again with the separator gives back the string. */
  lemma {:induction false} JoinSplit(s: string, sep: char)
    ensures Join(Split(s, sep), sep) == s
    decreases |s|
  {
    if |s| > 0 {
      JoinSplit(s[1..], sep);
      var rest := Split(s[1..], sep);
      if s[0] == sep {
        assert Split(s, sep)[1..] == rest;
      } else {
        var parts := Split(s, sep);
        if |rest| == 1 {
          assert parts == [[s[0]] + rest[0]];
        } else {
          assert parts[1..] == rest[1..];
          assert Join(rest, sep) == rest[0] + [sep] + Join(rest[1..], sep);
        }
      }
    }
  }

  /** Splitting a piece without the separator, followed by the separator. */
  lemma {:induction false} SplitPieceThenSep(a: string, sep: char, s: string)
    requires sep !in a
    ensures Split(a + [sep] + s, sep) == [a] + Split(s, sep)
    decreases |a|
  {
    if |a| == 0 {
      assert a + [sep] + s == [sep] + s;
      assert ([sep] + s)[1..] == s;
    } else {
      SplitPieceThenSep(a[1..], sep, s);
      assert (a + [sep] + s)[1..] == a[1..] + [sep] + s;
      assert [a[0]] + a[1..] == a;
    }
  }

  /** A string without the separator is a single piece. */
  lemma {:induction false} SplitWithoutSep(a: string, sep: char)
    requires sep !in a
    ensures Split(a, sep) == [a]
    decreases |a|
  {
    if |a| > 0 {
      SplitWithoutSep(a[1..], sep);
      assert [a[0]] + a[1..] == a;
    }
  }

  /** Splitting undoes joining pieces that do not contain the separator. */
  lemma {:induction false} SplitJoin(parts: seq<string>, sep: char)
    requires |parts| >= 1
    requires forall k :: 0 <= k < |parts| ==> sep !in parts[k]
    ensures Split(Join(parts, sep), sep) == parts
    decreases |parts|
  {
    if |parts| == 1 {
      SplitWithoutSep(parts[0], sep);
    } else {
      SplitJoin(parts[1..], sep);
      SplitPieceThenSep(parts[0], sep, Join(parts[1..], sep));
      assert [parts[0]] + parts[1..] == parts;
    }
  }

  /** One piece more than there are separators. */
  lemma {:induction false} SplitCount(s: string, sep: char)
    ensures |Split(s, sep)| == CountChar(s, sep) + 1
    decreases |s|
  {
    if |s| > 0 {
      SplitCount(s[1..], sep);
    }
  }

  // ---------------------------------------------------------------------------
  // Number(s) is not NaN

  function TrimStart(s: string): (r: string)
    ensures |r| <= |s|
    ensures r == s[|s| - |r|..]
    ensures |r| > 0 ==> !IsJsSpace(r[0])
    decreases |s|
  {
    if |s| > 0 && IsJsSpace(s[0]) then TrimStart(s[1..]) else s
  }

  function TrimEnd(s: string): (r: string)
    ensures |r| <= |s|
    ensures r == s[..|r|]
    ensures |r| > 0 ==> !IsJsSpace(r[|r| - 1])
    decreases |s|
  {
    if |s| > 0 && IsJsSpace(s[|s| - 1]) then TrimEnd(s[..|s| - 1]) else s
  }

  /** The first index of `c` in `s`, or `|s|` when `c` does not occur. */
  function IndexOf(s: string, c: char): (k: nat)
    ensures k <= |s|
    ensures c !in s[..k]
    ensures k < |s| ==> s[k] == c
    decreases |s|
  {
    if |s| == 0 then 0 else if s[0] == c then 0 else 1 + IndexOf(s[1..], c)
  }

  predicate AllIn(s: string, alphabet: set<char>) {
    forall k :: 0 <= k < |s| ==> s[k] in alphabet
  }

  /** DecimalDigits `.` DecimalDigits? | `.` DecimalDigits | DecimalDigits */
  predicate IsMantissa(m: string) {
    var k := IndexOf(m, '.');
    var whole := m[..k];
    var fraction := if k < |m| then m[k + 1..] else "";
    AllDigits(whole) && AllDigits(fraction) && (|whole| > 0 || |fraction| > 0)
  }

  /** SignedInteger after the exponent mark. */
  predicate IsExponentDigits(e: string) {
    if |e| > 0 && (e[0] == '+' || e[0] == '-') then |e| > 1 && AllDigits(e[1..])
    else |e| > 0 && AllDigits(e)
  }

  /** StrUnsignedDecimalLiteral */
  predicate IsUnsignedDecimal(u: string) {
    u == "Infinity"
    || (var ke := IndexOf(u, 'e');
        var kE := IndexOf(u, 'E');
        var k := if ke < kE then ke else kE;
        IsMantissa(u[..k]) && (k == |u| || IsExponentDigits(u[k + 1..])))
  }

  /** NonDecimalIntegerLiteral: 0b…, 0o…, 0x… (no sign allowed). */
  predicate IsNonDecimalInteger(t: string) {
    |t| > 2 && t[0] == '0'
    && ((t[1] in {'b', 'B'} && AllIn(t[2..], {'0', '1'}))
        || (t[1] in {'o', 'O'} && AllIn(t[2..], {'0', '1', '2', '3', '4', '5', '6', '7'}))
        || (t[1] in {'x', 'X'} && AllIn(t[2..], {'0', '1', '2', '3', '4', '5', '6', '7', '8', '9',
                                                 'a', 'b', 'c', 'd', 'e', 'f',
                                                 'A', 'B', 'C', 'D', 'E', 'F'})))
  }

  /** `!isNaN(Number(s))`: after trimming white space, `s` is empty (which is
      the number 0) or a StringNumericLiteral of ECMAScript. */
  predicate IsJsNumeric(s: string) {
    IsNumericLiteral(TrimEnd(TrimStart(s)))
  }

  /** StringNumericLiteral without the surrounding white space; the empty
      text is the number 0. */
  predicate IsNumericLiteral(t: string) {
    t == ""
    || IsNonDecimalInteger(t)
    || (if t[0] == '+' || t[0] == '-' then IsUnsignedDecimal(t[1..]) else IsUnsignedDecimal(t))
  }

  /** A non-empty run of ASCII digits is a number. */
  lemma DigitsAreNumeric(s: string)
    requires |s| > 0 && AllDigits(s)
    ensures IsJsNumeric(s)
  {
    assert IsNumericLiteral(s) by {
      DigitsAreDecimal(s);
      assert IsDigit(s[0]);
      UnsignedIsLiteral(s);
    }
    assert TrimEnd(TrimStart(s)) == s by { DigitsUntrimmed(s); }
    TrimmedLiteralIsNumeric(s);
  }

  /** An unsigned decimal literal needs no sign. */
  lemma UnsignedIsLiteral(s: string)
    requires |s| > 0 && s[0] != '+' && s[0] != '-' && IsUnsignedDecimal(s)
    ensures IsNumericLiteral(s)
  {
  }

  /** A literal that trimming leaves alone is a number. */
  lemma TrimmedLiteralIsNumeric(s: string)
    requires TrimEnd(TrimStart(s)) == s && IsNumericLiteral(s)
    ensures IsJsNumeric(s)
  {
  }

  lemma DigitsUntrimmed(s: string)
    requires |s| > 0 && AllDigits(s)
    ensures TrimEnd(TrimStart(s)) == s
  {
    StartNotSpace(s);
    EndNotSpace(s);
  }

  lemma StartNotSpace(s: string)
    requires |s| > 0 && !IsJsSpace(s[0])
    ensures TrimStart(s) == s
  {
  }

  lemma EndNotSpace(s: string)
    requires |s| > 0 && !IsJsSpace(s[|s| - 1])
    ensures TrimEnd(s) == s
  {
  }

  lemma DigitsAreDecimal(s: string)
    requires |s| > 0 && AllDigits(s)
    ensures IsUnsignedDecimal(s)
  {
    assert IndexOf(s, 'e') == |s| by { DigitsLackChar(s, 'e'); }
    assert IndexOf(s, 'E') == |s| by { DigitsLackChar(s, 'E'); }
    assert IndexOf(s, '.') == |s| by { DigitsLackChar(s, '.'); }
    assert s[..|s|] == s;
  }

  lemma {:induction false} DigitsLackChar(s: string, c: char)
    requires AllDigits(s) && !IsDigit(c)
    ensures IndexOf(s, c) == |s|
    decreases |s|
  {
    if |s| > 0 {
      DigitsLackChar(s[1..], c);
    }
  }
}
