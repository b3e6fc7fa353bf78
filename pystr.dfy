/**
 * The parts of Python's `str` and `int` built-ins that the trainer relies on:
 * the whitespace class, `s.strip()`, `s.split()` without arguments,
 * `sep.join(ws)`, `int(s)` on a base-10 string and `str(n)` on an integer.
 */
module PyStr {
  import opened Optional

  /** `c.isspace()`: the characters `split()`, `strip()` and `int()` treat as whitespace. */
  predicate IsSpace(c: char) {
    || c == ' ' || ('\t' <= c <= '\r') || ('\U{1c}' <= c <= '\U{1f}')
    || c == '\U{85}' || c == '\U{a0}' || c == '\U{1680}'
    || ('\U{2000}' <= c <= '\U{200a}') || c == '\U{2028}' || c == '\U{2029}'
    || c == '\U{202f}' || c == '\U{205f}' || c == '\U{3000}'
  }

  predicate NoSpace(s: string) {
    forall i :: 0 <= i < |s| ==> !IsSpace(s[i])
  }

  /** A word as `split()` yields it: non-empty and free of whitespace. */
  predicate IsWord(w: string) {
    w != [] && NoSpace(w)
  }

  // ---------------------------------------------------------------- strip()

  /** `s.lstrip()`: the suffix left after the longest all-whitespace prefix. */
  function StripLeft(s: string): (r: string)
    ensures |r| <= |s| && r == s[|s| - |r|..]
    ensures forall i :: 0 <= i < |s| - |r| ==> IsSpace(s[i])
    ensures r == [] || !IsSpace(r[0])
  {
    if s != [] && IsSpace(s[0]) then StripLeft(s[1..]) else s
  }

  /** `s.rstrip()`: the prefix left after the longest all-whitespace suffix. */
  function StripRight(s: string): (r: string)
    ensures |r| <= |s| && r == s[..|r|]
    ensures forall i :: |r| <= i < |s| ==> IsSpace(s[i])
    ensures r == [] || !IsSpace(r[|r| - 1])
  {
    if s != [] && IsSpace(s[|s| - 1]) then StripRight(s[..|s| - 1]) else s
  }

  /** `s.strip()`. */
  function Strip(s: string): string {
    StripRight(StripLeft(s))
  }

  /** A string that starts and ends with a non-whitespace character loses only
      one trailing space to `strip()`. */
  lemma StripTrailingSpace(x: string)
    requires x != [] && !IsSpace(x[0]) && !IsSpace(x[|x| - 1])
    ensures Strip(x + " ") == x
  {
    var s := x + " ";
    assert StripLeft(s) == s;
    assert s[..|s| - 1] == x;
    assert StripRight(x) == x;
  }

  // ---------------------------------------------------------------- split()

  /** Length of the leading run of non-whitespace characters. */
  function TokenEnd(s: string): (k: nat)
    ensures k <= |s|
    ensures forall i :: 0 <= i < k ==> !IsSpace(s[i])
    ensures k < |s| ==> IsSpace(s[k])
  {
    if s == [] || IsSpace(s[0]) then 0 else 1 + TokenEnd(s[1..])
  }

  /** `s.split()`: the maximal runs of non-whitespace characters, in order. */
  function Words(s: string): (ws: seq<string>)
    ensures forall w :: w in ws ==> IsWord(w)
    decreases |s|
  {
    if s == [] then []
    else if IsSpace(s[0]) then Words(s[1..])
    else
      var k := TokenEnd(s);
      [s[..k]] + Words(s[k..])
  }

  /** A whitespace character splits `split()` in two: nothing crosses it. */
  lemma {:induction false} WordsSplitAt(a: string, c: char, b: string)
    requires IsSpace(c)
    ensures Words(a + [c] + b) == Words(a) + Words(b)
    decreases |a|
  {
    var s := a + [c] + b;
    if a == [] {
      assert s[1..] == b;
    } else if IsSpace(a[0]) {
      assert Words(s) == Words(a[1..] + [c] + b) by {
        assert s[1..] == a[1..] + [c] + b;
      }
      WordsSplitAt(a[1..], c, b);
    } else {
      var k := TokenEnd(a);
      assert Words(s) == [a[..k]] + Words(a[k..] + [c] + b) by {
        TokenEndAppend(a, [c] + b);
        assert s == a + ([c] + b);
        assert s[..k] == a[..k];
        assert s[k..] == a[k..] + [c] + b;
      }
      WordsSplitAt(a[k..], c, b);
    }
  }

  /** Appending text that starts with whitespace leaves the first token alone. */
  lemma {:induction false} TokenEndAppend(a: string, t: string)
    requires t == [] || IsSpace(t[0])
    ensures TokenEnd(a + t) == TokenEnd(a)
  {
    if a != [] {
      assert (a + t)[0] == a[0];
      assert (a + t)[1..] == a[1..] + t;
      TokenEndAppend(a[1..], t);
    }
  }

  /** A single word splits into itself. */
  lemma WordsOfWord(w: string)
    requires IsWord(w)
    ensures Words(w) == [w]
  {
    var k := TokenEnd(w);
    assert k == |w|;
    assert w[..k] == w && w[k..] == [];
  }

  // ---------------------------------------------------------------- join()

  /** `sep.join(ws)`. */
  function Join(ws: seq<string>, sep: string): string {
    if |ws| == 0 then ""
    else if |ws| == 1 then ws[0]
    else ws[0] + sep + Join(ws[1..], sep)
  }

  /** The words of each line, in order: what `split()` sees in joined lines. */
  function FlatWords(lines: seq<string>): seq<string> {
    if lines == [] then [] else Words(lines[0]) + FlatWords(lines[1..])
  }

  /** Splitting lines joined by a whitespace character gives the words of
      every line, in line order. */
  lemma {:induction false} WordsOfJoin(lines: seq<string>, sep: char)
    requires IsSpace(sep)
    ensures Words(Join(lines, [sep])) == FlatWords(lines)
  {
    if |lines| == 0 {
    } else if |lines| == 1 {
      assert FlatWords(lines[1..]) == [];
    } else {
      WordsOfJoin(lines[1..], sep);
      WordsSplitAt(lines[0], sep, Join(lines[1..], [sep]));
    }
  }

  /** Joining words with single spaces and splitting again is the identity. */
  lemma {:induction false} WordsOfJoinedWords(ws: seq<string>)
    requires forall w :: w in ws ==> IsWord(w)
    ensures Words(Join(ws, " ")) == ws
  {
    WordsOfJoin(ws, ' ');
    FlatWordsOfWords(ws);
  }

  lemma {:induction false} FlatWordsOfWords(ws: seq<string>)
    requires forall w :: w in ws ==> IsWord(w)
    ensures FlatWords(ws) == ws
  {
    if ws != [] {
      WordsOfWord(ws[0]);
      FlatWordsOfWords(ws[1..]);
    }
  }

  /** Words joined by single spaces start and end with a non-space character. */
  lemma {:induction false} JoinedWordsEnds(ws: seq<string>)
    requires |ws| > 0 && forall w :: w in ws ==> IsWord(w)
    ensures var j := Join(ws, " "); j != [] && !IsSpace(j[0]) && !IsSpace(j[|j| - 1])
  {
    var j := Join(ws, " ");
    if |ws| == 1 {
      assert ws[0] in ws;
    } else {
      assert ws[0] in ws;
      JoinedWordsEnds(ws[1..]);
      var t := Join(ws[1..], " ");
      assert j == ws[0] + " " + t;
      assert j[0] == ws[0][0];
      assert j[|j| - 1] == t[|t| - 1];
    }
  }

  // ---------------------------------------------------------------- int() and str()

  predicate IsDigit(c: char) {
    '0' <= c <= '9'
  }

  /** Decimal digits in which single underscores may stand between two digits,
      the body `int()` accepts after the sign. */
  predicate IsDigitRun(r: string) {
    && |r| > 0 && IsDigit(r[0]) && IsDigit(r[|r| - 1])
    && forall i :: 0 <= i < |r| ==> IsDigit(r[i]) || (r[i] == '_' && i + 1 < |r| && IsDigit(r[i + 1]))
  }

  /** The value of a digit run, underscores ignored. */
  function RunValue(r: string): nat {
    if r == [] then 0
    else if IsDigit(r[|r| - 1]) then 10 * RunValue(r[..|r| - 1]) + ((r[|r| - 1] as int) - ('0' as int))
    else RunValue(r[..|r| - 1])
  }

  /** `int(s)` in base 10 over the ASCII digits; `None` where Python raises
      `ValueError` on such text. Surrounding whitespace is ignored and one
      leading sign is allowed. */
  function ParseInt(s: string): Option<int> {
    var t := Strip(s);
    if |t| > 0 && (t[0] == '+' || t[0] == '-') then
      if IsDigitRun(t[1..]) then Some(if t[0] == '-' then 0 - RunValue(t[1..]) else RunValue(t[1..])) else None
    else if IsDigitRun(t) then Some(RunValue(t))
    else None
  }

  function DigitChar(d: nat): (c: char)
    requires d < 10
    ensures IsDigit(c) && (c as int) - ('0' as int) == d
  {
    (('0' as int) + d) as char
  }

  /** `str(n)` for a non-negative `n`: its decimal digits, most significant
      first, with no leading zero. */
  function NatToString(n: nat): (s: string)
    ensures |s| > 0 && forall i :: 0 <= i < |s| ==> IsDigit(s[i])
    ensures s[0] == '0' <==> n == 0
    ensures n == 0 ==> s == "0"
  {
    if n < 10 then [DigitChar(n)] else NatToString(n / 10) + [DigitChar(n % 10)]
  }

  /** `str(n)`: a minus sign exactly for a negative `n`, then the digits of
      its magnitude with no leading zero; zero is `"0"`. */
  function IntToString(n: int): (s: string)
    ensures |s| > 0 && !IsSpace(s[0]) && !IsSpace(s[|s| - 1])
    ensures forall i :: 0 <= i < |s| ==> IsDigit(s[i]) || (i == 0 && s[i] == '-')
    ensures s[0] == '-' <==> n < 0
    ensures n < 0 ==> |s| > 1 && s[1] != '0'
    ensures n >= 0 ==> (s[0] == '0' <==> n == 0)
    ensures n == 0 ==> s == "0"
  {
    if n < 0 then "-" + NatToString(-n) else NatToString(n)
  }

  /** Different integers have different decimal strings, so each id has its
      own key in a table indexed by `str(id)`. */
  lemma IntToStringInjective(a: int, b: int)
    requires IntToString(a) == IntToString(b)
    ensures a == b
  {
    ParseIntOfIntToString(a);
    ParseIntOfIntToString(b);
  }

  lemma {:induction false} NatToStringValue(n: nat)
    ensures RunValue(NatToString(n)) == n
  {
    var s := NatToString(n);
    if n >= 10 {
      NatToStringValue(n / 10);
      assert s[..|s| - 1] == NatToString(n / 10);
    }
  }

  /** `int(str(n)) == n`. */
  lemma ParseIntOfIntToString(n: int)
    ensures ParseInt(IntToString(n)) == Some(n)
  {
    var s := IntToString(n);
    assert Strip(s) == s by {
      assert StripLeft(s) == s;
      assert StripRight(s) == s;
    }
    if n < 0 {
      var digits := NatToString(-n);
      assert s[1..] == digits;
      NatToStringValue(-n);
      assert IsDigitRun(digits);
    } else {
      NatToStringValue(n);
      assert IsDigitRun(s);
    }
  }
}
