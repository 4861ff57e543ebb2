/** The invoice number, year-merchantcode-sequence, written and read back.

    Letters and white space are those of ASCII. A code may hold anything, hyphens
    included: what reads back, and what does not, is at the end, together with the proof
    that no two numbers are alike. */
module Numbering {
  import opened Common

  const MAX64: int := 0x7fff_ffff_ffff_ffff

  datatype Error = NoCode | BadYear | BadSequence

  datatype Number = Number(year: int, code: string, sequence: int)

  // ---------------------------------------------------------------------------- digits

  predicate IsDigit(c: char) { '0' <= c <= '9' }

  predicate AllDigits(s: string) { forall i :: 0 <= i < |s| ==> IsDigit(s[i]) }

  function DigitChar(d: nat): (c: char)
    requires d < 10
    ensures IsDigit(c) && DigitValue(c) == d
  {
    '0' + d as char
  }

  function DigitValue(c: char): nat
    requires IsDigit(c)
  {
    c as int - '0' as int
  }

  /** A number in decimal, without leading zeros. */
  function Decimal(n: nat): string {
    if n < 10 then [DigitChar(n)] else Decimal(n / 10) + [DigitChar(n % 10)]
  }

  function Value(s: string): nat
    requires AllDigits(s)
  {
    if s == [] then 0 else Value(s[..|s| - 1]) * 10 + DigitValue(s[|s| - 1])
  }

  lemma {:induction false} DecimalReadsBack(n: nat)
    ensures Decimal(n) != [] && AllDigits(Decimal(n)) && Value(Decimal(n)) == n
  {
    if n < 10 {
      assert Value([DigitChar(n)][..0]) == 0;
    } else {
      DecimalReadsBack(n / 10);
      assert Decimal(n)[..|Decimal(n)| - 1] == Decimal(n / 10);
    }
  }

  lemma {:induction false} DecimalLength(n: nat)
    requires 1000 <= n <= 9999
    ensures |Decimal(n)| == 4
  {
    assert |Decimal(n / 1000)| == 1;
    assert |Decimal(n / 100)| == 2;
    assert |Decimal(n / 10)| == 3;
  }

  // -------------------------------------------------------------------- strings in general

  predicate IsSpace(c: char) { c in {' ', '\t', '\n', '\r'} }

  function Upper(s: string): string {
    if s == [] then []
    else
      var c := s[|s| - 1];
      Upper(s[..|s| - 1]) + [if 'a' <= c <= 'z' then c - 'a' + 'A' else c]
  }

  function TrimLeft(s: string): string {
    if s != [] && IsSpace(s[0]) then TrimLeft(s[1..]) else s
  }

  function TrimRight(s: string): string {
    if s != [] && IsSpace(s[|s| - 1]) then TrimRight(s[..|s| - 1]) else s
  }

  function Trim(s: string): string { TrimRight(TrimLeft(s)) }

  /** The pieces between separators: always one more than there are separators. */
  function Split(s: string, sep: char): (parts: seq<string>)
    ensures parts != []
  {
    if s == [] then [[]]
    else
      var rest := Split(s[1..], sep);
      if s[0] == sep then [[]] + rest else [[s[0]] + rest[0]] + rest[1..]
  }

  function Count(s: string, c: char): nat {
    if s == [] then 0 else (if s[0] == c then 1 else 0) + Count(s[1..], c)
  }

  lemma {:induction false} SplitCounts(s: string, sep: char)
    ensures |Split(s, sep)| == Count(s, sep) + 1
  {
    if s != [] {
      SplitCounts(s[1..], sep);
    }
  }

  lemma {:induction false} SplitWhole(s: string, sep: char)
    requires sep !in s
    ensures Split(s, sep) == [s]
  {
    if s != [] {
      SplitWhole(s[1..], sep);
      assert [s[0]] + s[1..] == s;
    }
  }

  lemma {:induction false} SplitFirst(a: string, b: string, sep: char)
    requires sep !in a
    ensures Split(a + [sep] + b, sep) == [a] + Split(b, sep)
  {
    var s := a + [sep] + b;
    if a == [] {
      assert s[1..] == b;
    } else {
      assert s[1..] == a[1..] + [sep] + b;
      SplitFirst(a[1..], b, sep);
      assert [a[0]] + a[1..] == a;
      assert Split(s, sep) == [[s[0]] + Split(s[1..], sep)[0]] + Split(s[1..], sep)[1..];
    }
  }

  lemma {:induction false} CountConcat(a: string, b: string, c: char)
    ensures Count(a + b, c) == Count(a, c) + Count(b, c)
  {
    if a == [] {
      assert a + b == b;
    } else {
      assert (a + b)[1..] == a[1..] + b;
      CountConcat(a[1..], b, c);
    }
  }

  lemma {:induction false} CountNone(s: string, c: char)
    ensures Count(s, c) == 0 <==> c !in s
  {
    if s != [] {
      CountNone(s[1..], c);
      assert s == [s[0]] + s[1..];
    }
  }

  // ---------------------------------------------------------------------------- the format

  function Normal(code: string): string { Trim(Upper(code)) }

  function Format(year: int, code: string, sequence: int): Result<string, Error> {
    if Normal(code) == "" then Err(NoCode)
    else if year < 2000 || year > 9999 then Err(BadYear)
    else if sequence < 1 then Err(BadSequence)
    else Ok(Written(year, Normal(code), sequence))
  }

  /** A letter made capital, or anything else as it is. */
  predicate Capital(c: char, u: char) {
    if 97 <= c as int <= 122 then u as int == c as int - 32 else u == c
  }

  predicate AllSpace(s: string) { forall i :: 0 <= i < |s| ==> IsSpace(s[i]) }

  /** The code from i to j is what is left of it: in capitals, without the space around. */
  predicate Normalises(code: string, i: nat, j: nat, n: string) {
    && i <= j <= |code| && |n| == j - i
    && AllSpace(code[..i]) && AllSpace(code[j..])
    && (i < j ==> !IsSpace(code[i]) && !IsSpace(code[j - 1]))
    && forall k :: 0 <= k < |n| ==> Capital(code[i + k], n[k])
  }

  lemma {:induction false} UpperAt(s: string)
    ensures |Upper(s)| == |s|
    ensures forall k :: 0 <= k < |s| ==> Capital(s[k], Upper(s)[k]) && (IsSpace(Upper(s)[k]) <==> IsSpace(s[k]))
  {
    if s != [] {
      UpperAt(s[..|s| - 1]);
    }
  }

  lemma {:induction false} TrimLeftAt(s: string) returns (i: nat)
    ensures i <= |s| && TrimLeft(s) == s[i..] && AllSpace(s[..i]) && (i < |s| ==> !IsSpace(s[i]))
  {
    i := 0;
    if s != [] && IsSpace(s[0]) {
      var k := TrimLeftAt(s[1..]);
      i := k + 1;
      assert s[..i] == [s[0]] + s[1..][..k];
    }
  }

  lemma {:induction false} TrimRightAt(s: string) returns (j: nat)
    ensures j <= |s| && TrimRight(s) == s[..j] && AllSpace(s[j..]) && (j > 0 ==> !IsSpace(s[j - 1]))
  {
    j := |s|;
    if s != [] && IsSpace(s[|s| - 1]) {
      j := TrimRightAt(s[..|s| - 1]);
      assert s[j..] == s[..|s| - 1][j..] + [s[|s| - 1]];
    }
  }

  /** A number is made exactly of a code that is not all space, a year from 2000 to 9999
      and a sequence from 1 on, and of the code in capitals without the space around it;
      otherwise the error is the first of these that fails. */
  lemma FormatSays(year: int, code: string, sequence: int)
    ensures Format(year, code, sequence).Ok? <==> !AllSpace(code) && 2000 <= year <= 9999 && sequence >= 1
    ensures Format(year, code, sequence) == Err(NoCode) <==> AllSpace(code)
    ensures Format(year, code, sequence) == Err(BadYear) <==> !AllSpace(code) && !(2000 <= year <= 9999)
    ensures Format(year, code, sequence).Ok? ==>
              exists i, j, n :: Normalises(code, i, j, n) && Format(year, code, sequence).value == Written(year, n, sequence)
  {
    hide Written, Upper, TrimLeft, TrimRight, IsSpace, Capital;
    var up := Upper(code);
    UpperAt(code);
    var i := TrimLeftAt(up);
    var m := TrimRightAt(up[i..]);
    var j, n := i + m, Normal(code);
    assert n == up[i..j] && up[i..][m..] == up[j..];
    SpaceAlike(code, up, 0, i);
    SpaceAlike(code, up, j, |up|);
    assert code[..i] == code[0..i] && up[..i] == up[0..i] && code[j..] == code[j..|up|] && up[j..] == up[j..|up|];
    if n == "" {
      assert code == code[..i] + code[i..];
    } else {
      assert j > i && up[i..][m - 1] == up[j - 1];
      assert Normalises(code, i, j, n);
      assert !IsSpace(code[i]);
    }
  }

  lemma SpaceAlike(s: string, up: string, i: nat, j: nat)
    requires |up| == |s| && i <= j <= |s| && forall k :: 0 <= k < |s| ==> (IsSpace(up[k]) <==> IsSpace(s[k]))
    ensures AllSpace(up[i..j]) <==> AllSpace(s[i..j])
  {
    assert forall k :: 0 <= k < j - i ==> up[i..j][k] == up[i + k] && s[i..j][k] == s[i + k];
  }

  function Written(year: nat, code: string, sequence: nat): string {
    Decimal(year) + "-" + (code + "-" + Decimal(sequence))
  }

  // --------------------------------------------------------------------------- reading back

  /** The digits a string starts with. */
  function Leading(s: string): (d: string)
    ensures AllDigits(d)
  {
    if s == [] || !IsDigit(s[0]) then [] else [s[0]] + Leading(s[1..])
  }

  function SkipBlanks(s: string): string {
    if s != [] && s[0] in {' ', '\t', '\r'} then SkipBlanks(s[1..]) else s
  }

  /** Scanning a decimal integer off the front: blanks, a sign, digits; what follows is
      ignored, and a figure that is not a 64-bit word is an error. */
  function Scan(s: string): Option<int> {
    var t := SkipBlanks(s);
    var minus := t != [] && t[0] == '-';
    var u := if t != [] && t[0] in {'+', '-'} then t[1..] else t;
    var d := Leading(u);
    if d == [] then None
    else
      var v := (if minus then -1 else 1) * Value(d);
      if -MAX64 - 1 <= v <= MAX64 then Some(v) else None
  }

  function Parse(number: string): Option<Number> {
    var parts := Split(number, '-');
    if |parts| != 3 then None
    else
      var year, sequence := Scan(parts[0]), Scan(parts[2]);
      if year.None? || sequence.None? then None
      else Some(Number(year.value, parts[1], sequence.value))
  }

  lemma {:induction false} LeadingAll(s: string)
    requires AllDigits(s)
    ensures Leading(s) == s
  {
    if s != [] {
      LeadingAll(s[1..]);
    }
  }

  lemma ScanDecimal(n: nat)
    requires n <= MAX64
    ensures Scan(Decimal(n)) == Some(n)
  {
    hide Decimal, Value;
    DecimalReadsBack(n);
    var s := Decimal(n);
    assert IsDigit(s[0]);
    LeadingAll(s);
  }

  predicate IsBlank(s: string) { forall i :: 0 <= i < |s| ==> s[i] in {' ', '\t', '\r'} }

  lemma {:induction false} BlanksSkipped(blanks: string, s: string)
    requires IsBlank(blanks) && s != [] && s[0] !in {' ', '\t', '\r'}
    ensures SkipBlanks(blanks + s) == s
  {
    if blanks == [] {
      assert blanks + s == s;
    } else {
      assert (blanks + s)[1..] == blanks[1..] + s;
      BlanksSkipped(blanks[1..], s);
    }
  }

  lemma {:induction false} LeadingDigits(digits: string, rest: string)
    requires AllDigits(digits) && (rest == [] || !IsDigit(rest[0]))
    ensures Leading(digits + rest) == digits
  {
    if digits == [] {
      assert digits + rest == rest;
    } else {
      assert (digits + rest)[1..] == digits[1..] + rest;
      LeadingDigits(digits[1..], rest);
      assert [digits[0]] + digits[1..] == digits;
    }
  }

  /** Blanks, at most one sign, and digits are read as that number, whatever follows, as
      long as it is a 64-bit word. */
  lemma ScanReads(blanks: string, sign: string, digits: string, rest: string)
    requires IsBlank(blanks) && sign in {"", "+", "-"} && AllDigits(digits) && digits != []
    requires rest == [] || !IsDigit(rest[0])
    ensures var v := (if sign == "-" then -1 else 1) * Value(digits);
            Scan(blanks + (sign + (digits + rest))) ==
            if -0x8000_0000_0000_0000 <= v <= 0x7fff_ffff_ffff_ffff then Some(v) else None
  {
    hide Value, Leading, SkipBlanks;
    var t := sign + (digits + rest);
    assert IsDigit(digits[0]) && (digits + rest)[0] == digits[0];
    assert sign == "" ==> t == digits + rest;
    assert sign != "" ==> t[0] == sign[0] && t[1..] == digits + rest;
    BlanksSkipped(blanks, t);
    LeadingDigits(digits, rest);
  }

  /** A number is read exactly when it is three parts between two hyphens and the outer two
      are read. */
  lemma ParseReads(year: string, code: string, sequence: string)
    requires '-' !in year && '-' !in code && '-' !in sequence
    ensures Parse(year + "-" + (code + "-" + sequence)) ==
            if Scan(year).Some? && Scan(sequence).Some? then Some(Number(Scan(year).value, code, Scan(sequence).value)) else None
    ensures forall number :: Count(number, '-') != 2 ==> Parse(number) == None
  {
    hide Scan, Split;
    assert "-" == ['-'];
    SplitFirst(year, code + "-" + sequence, '-');
    SplitFirst(code, sequence, '-');
    SplitWhole(sequence, '-');
    forall number | Count(number, '-') != 2 ensures Parse(number) == None {
      SplitCounts(number, '-');
    }
  }

  lemma WrittenSplits(year: nat, code: string, sequence: nat)
    ensures Split(Written(year, code, sequence), '-') == [Decimal(year)] + Split(code + "-" + Decimal(sequence), '-')
  {
    hide Decimal;
    DecimalReadsBack(year);
    SplitFirst(Decimal(year), code + "-" + Decimal(sequence), '-');
    assert "-" == ['-'];
  }

  /** A number that was issued reads back as the year, the normalised code and the
      sequence it was made of, exactly when the code has no hyphen in it. */
  lemma ParseFormat(year: int, code: string, sequence: int)
    requires Format(year, code, sequence).Ok? && sequence <= MAX64
    ensures Parse(Format(year, code, sequence).value) ==
            if '-' in Normal(code) then None else Some(Number(year, Normal(code), sequence))
  {
    hide Decimal, Normal, Scan, Split;
    var c, d := Normal(code), Decimal(sequence);
    DecimalReadsBack(sequence);
    WrittenSplits(year, c, sequence);
    assert "-" == ['-'];
    if '-' in c {
      SplitCounts(c + "-" + d, '-');
      CountConcat(c + "-", d, '-');
      CountConcat(c, "-", '-');
      CountNone(c, '-');
      assert Count("-", '-') == 1;
    } else {
      SplitFirst(c, d, '-');
      SplitWhole(d, '-');
      ScanDecimal(year);
      ScanDecimal(sequence);
    }
  }

  lemma LastHyphen(a: string, x: string, b: string, y: string)
    requires '-' !in x && '-' !in y && a + "-" + x == b + "-" + y
    ensures a == b && x == y
  {
    var s, t := a + "-" + x, b + "-" + y;
    assert |s| == |a| + 1 + |x| && |t| == |b| + 1 + |y|;
    assert s[|a|] == '-' && t[|b|] == '-';
    assert s[..|a|] == a && t[..|b|] == b;
    assert s[|a| + 1..] == x && t[|b| + 1..] == y;
  }

  /** Different years, codes or sequences never make the same number, hyphens or not. */
  lemma FormatIsInjective(y1: int, c1: string, s1: int, y2: int, c2: string, s2: int)
    requires Format(y1, c1, s1).Ok? && Format(y1, c1, s1) == Format(y2, c2, s2)
    ensures y1 == y2 && Normal(c1) == Normal(c2) && s1 == s2
  {
    hide Decimal, Normal;
    var n := Written(y1, Normal(c1), s1);
    DecimalLength(y1);
    DecimalLength(y2);
    DecimalReadsBack(y1);
    DecimalReadsBack(y2);
    DecimalReadsBack(s1);
    DecimalReadsBack(s2);
    assert n[..4] == Decimal(y1) && n[..4] == Decimal(y2);
    assert n[5..] == Normal(c1) + "-" + Decimal(s1) && n[5..] == Normal(c2) + "-" + Decimal(s2);
    LastHyphen(Normal(c1), Decimal(s1), Normal(c2), Decimal(s2));
  }
}
