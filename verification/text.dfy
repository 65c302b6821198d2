/** Text helpers: digit filtering, decimal rendering and `str.split`. */
module Text {

  /** An ASCII decimal digit. Python's `\d` and `str.isdigit` also accept
      the other Unicode digits; this model does not. */
  predicate IsDigit(c: char) {
    '0' as int <= c as int <= '9' as int
  }

  predicate AllDigits(s: string) {
    forall i :: 0 <= i < |s| ==> IsDigit(s[i])
  }

  predicate StartsWith(s: string, prefix: string) {
    |prefix| <= |s| && s[..|prefix|] == prefix
  }

  /** The ASCII digits of `s`, in order. This is what `re.sub(r"\D", "", s)`
      and `"".join(filter(str.isdigit, s))` compute on ASCII input. */
  function Digits(s: string): (r: string)
    ensures AllDigits(r)
    ensures |r| <= |s|
  {
    if s == [] then []
    else (if IsDigit(s[0]) then [s[0]] else []) + Digits(s[1..])
  }

  /** One character keeps itself exactly when it is a digit. */
  lemma DigitsOfChar(c: char)
    ensures Digits([c]) == (if IsDigit(c) then [c] else [])
  {
    assert [c][1..] == [];
  }

  /** A string of digits is kept whole. */
  lemma {:induction false} DigitsOfDigitString(s: string)
    requires AllDigits(s)
    ensures Digits(s) == s
  {
    if s != [] {
      DigitsOfDigitString(s[1..]);
      assert s == [s[0]] + s[1..];
    }
  }

  /** Filtering distributes over concatenation. */
  lemma {:induction false} DigitsAppend(a: string, b: string)
    ensures Digits(a + b) == Digits(a) + Digits(b)
  {
    if a == [] {
      assert a + b == b;
    } else {
      var h := if IsDigit(a[0]) then [a[0]] else [];
      assert (a + b)[0] == a[0];
      assert (a + b)[1..] == a[1..] + b;
      assert Digits(a + b) == h + Digits(a[1..] + b);
      DigitsAppend(a[1..], b);
      assert Digits(a) == h + Digits(a[1..]);
    }
  }

  /** ASCII whitespace. Python's `str.strip()` also removes the other
      Unicode spaces (U+00A0, U+2000 to U+200A, U+3000, ...); this model
      does not. */
  predicate IsSpace(c: char) {
    c == ' ' || c == '\t' || c == '\n' || c == '\r' || c as int == 11 || c as int == 12
  }

  function TrimStart(s: string): (r: string)
    ensures |r| <= |s| && r == s[|s| - |r|..]
    ensures r != [] ==> !IsSpace(r[0])
  {
    if s != [] && IsSpace(s[0]) then TrimStart(s[1..]) else s
  }

  function TrimEnd(s: string): (r: string)
    ensures |r| <= |s| && r == s[..|r|]
    ensures r != [] ==> !IsSpace(r[|r| - 1])
  {
    if s != [] && IsSpace(s[|s| - 1]) then TrimEnd(s[..|s| - 1]) else s
  }

  /** Python's `s.strip()` restricted to ASCII whitespace. */
  function Strip(s: string): string {
    TrimEnd(TrimStart(s))
  }

  lemma {:induction false} DigitsTrimStart(s: string)
    ensures Digits(TrimStart(s)) == Digits(s)
  {
    if s != [] && IsSpace(s[0]) {
      DigitsTrimStart(s[1..]);
    }
  }

  lemma {:induction false} DigitsTrimEnd(s: string)
    ensures Digits(TrimEnd(s)) == Digits(s)
  {
    if s != [] && IsSpace(s[|s| - 1]) {
      var init := s[..|s| - 1];
      DigitsTrimEnd(init);
      DigitsAppend(init, [s[|s| - 1]]);
      assert s == init + [s[|s| - 1]];
    }
  }

  /** Stripping whitespace never removes a digit. */
  lemma DigitsOfStrip(s: string)
    ensures Digits(Strip(s)) == Digits(s)
  {
    DigitsTrimStart(s);
    DigitsTrimEnd(TrimStart(s));
  }

  function DigitChar(d: nat): (c: char)
    requires d < 10
    ensures IsDigit(c)
  {
    ('0' as int + d) as char
  }

  function DigitValue(c: char): nat
    requires IsDigit(c)
  {
    c as int - '0' as int
  }

  /** Decimal rendering of a natural number, as `str(n)` / `f"{n}"`. */
  function NatToString(n: nat): (r: string)
    ensures 1 <= |r| && AllDigits(r)
  {
    if n < 10 then [DigitChar(n)] else NatToString(n / 10) + [DigitChar(n % 10)]
  }

  /** Decimal rendering of an integer, with a leading '-' when negative. */
  function IntToString(n: int): string {
    if n < 0 then "-" + NatToString(-n) else NatToString(n)
  }

  /** The value of a string of decimal digits. */
  function Value(s: string): nat
    requires AllDigits(s)
  {
    if s == [] then 0 else Value(s[..|s| - 1]) * 10 + DigitValue(s[|s| - 1])
  }

  lemma {:induction false} ValueOfNatToString(n: nat)
    ensures Value(NatToString(n)) == n
  {
    if n >= 10 {
      var r := NatToString(n);
      assert r[..|r| - 1] == NatToString(n / 10);
      ValueOfNatToString(n / 10);
    }
  }

  /** Four-digit numbers, and only they, render as four characters. */
  lemma NatToStringFourDigits(n: nat)
    requires 1000 <= n <= 9999
    ensures |NatToString(n)| == 4
  {
    assert |NatToString(n / 1000)| == 1;
    assert |NatToString(n / 100)| == 2 by {
      assert (n / 100) / 10 == n / 1000;
    }
    assert |NatToString(n / 10)| == 3 by {
      assert (n / 10) / 10 == n / 100;
    }
  }

  /** Position of the first occurrence of `c` in `s`. */
  function IndexOf(s: string, c: char): (i: nat)
    requires c in s
    ensures i < |s| && s[i] == c && c !in s[..i]
  {
    if s[0] == c then 0
    else
      var j := IndexOf(s[1..], c);
      assert s[..j + 1] == [s[0]] + s[1..][..j];
      j + 1
  }

  lemma IndexOfIsFirst(s: string, c: char, i: nat)
    requires i < |s| && s[i] == c && c !in s[..i]
    ensures c in s && IndexOf(s, c) == i
  {
  }

  /** Python's `s.split(sep)` for a one-character separator: the maximal
      separator-free pieces, empty pieces included. */
  function Split(s: string, sep: char): (parts: seq<string>)
    ensures |parts| >= 1
    ensures forall k :: 0 <= k < |parts| ==> sep !in parts[k]
    ensures sep in s ==> |parts| >= 2
    decreases |s|
  {
    if sep !in s then [s]
    else
      var i := IndexOf(s, sep);
      [s[..i]] + Split(s[i + 1..], sep)
  }

  /** Python's `sep.join(parts)`. */
  function Join(parts: seq<string>, sep: char): string
    requires |parts| >= 1
  {
    if |parts| == 1 then parts[0] else parts[0] + [sep] + Join(parts[1..], sep)
  }

  /** Splitting loses nothing: joining the pieces back gives the input. */
  lemma {:induction false} JoinSplit(s: string, sep: char)
    ensures Join(Split(s, sep), sep) == s
    decreases |s|
  {
    if sep in s {
      var i := IndexOf(s, sep);
      JoinSplit(s[i + 1..], sep);
      assert Split(s, sep)[1..] == Split(s[i + 1..], sep);
      assert s == s[..i] + [sep] + s[i + 1..];
    }
  }

  /** A string splits into exactly the two pieces `a` and `b` iff it is `a`,
      the separator and `b`, with no separator inside either piece. */
  lemma SplitInTwo(s: string, sep: char, a: string, b: string)
    ensures Split(s, sep) == [a, b] <==> (s == a + [sep] + b && sep !in a && sep !in b)
  {
    if s == a + [sep] + b && sep !in a && sep !in b {
      assert s[|a|] == sep && s[..|a|] == a;
      IndexOfIsFirst(s, sep, |a|);
      assert s[|a| + 1..] == b;
    }
    if Split(s, sep) == [a, b] {
      assert sep in s;
      var i := IndexOf(s, sep);
      var rest := Split(s[i + 1..], sep);
      assert [s[..i]] + rest == [a, b];
      assert |rest| == 1 && rest[0] == ([s[..i]] + rest)[1];
      assert rest == [b];
      assert a == ([s[..i]] + rest)[0] == s[..i];
      assert sep !in s[i + 1..];
      assert rest == [s[i + 1..]];
      assert s == s[..i] + [sep] + s[i + 1..];
    }
  }
}
