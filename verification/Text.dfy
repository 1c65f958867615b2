/** Go and JavaScript string operations the components rely on. Characters are Unicode scalar values. */
module Text {
  import opened Common

  /** unicode.IsSpace */
  predicate IsSpace(c: char) {
    var n := c as int;
    9 <= n <= 13 || n == 0x20 || n == 0x85 || n == 0xA0 || n == 0x1680 || 0x2000 <= n <= 0x200A ||
    n == 0x2028 || n == 0x2029 || n == 0x202F || n == 0x205F || n == 0x3000
  }

  function TrimLeft(s: string): (t: string)
    ensures |t| <= |s|
  {
    if s != "" && IsSpace(s[0]) then TrimLeft(s[1..]) else s
  }

  function TrimRight(s: string): (t: string)
    ensures |t| <= |s|
  {
    if s != "" && IsSpace(s[|s| - 1]) then TrimRight(s[..|s| - 1]) else s
  }

  /** strings.TrimSpace */
  function TrimSpace(s: string): (t: string)
    ensures |t| <= |s|
  {
    TrimRight(TrimLeft(s))
  }

  predicate Trimmed(s: string) {
    s == "" || (!IsSpace(s[0]) && !IsSpace(s[|s| - 1]))
  }

  lemma {:induction false} TrimRightPrefix(s: string)
    ensures var t := TrimRight(s);
            t == s[..|t|] && (t == "" || !IsSpace(t[|t| - 1])) && forall i :: |t| <= i < |s| ==> IsSpace(s[i])
  {
    if s != "" && IsSpace(s[|s| - 1]) {
      TrimRightPrefix(s[..|s| - 1]);
    }
  }

  lemma {:induction false} TrimLeftSuffix(s: string)
    ensures var t := TrimLeft(s);
            t == s[|s| - |t|..] && (t == "" || !IsSpace(t[0])) && forall i :: 0 <= i < |s| - |t| ==> IsSpace(s[i])
  {
    if s != "" && IsSpace(s[0]) {
      TrimLeftSuffix(s[1..]);
    }
  }

  lemma TrimSpaceIsTrimmed(s: string)
    ensures Trimmed(TrimSpace(s))
  {
    TrimLeftSuffix(s);
    TrimRightPrefix(TrimLeft(s));
  }

  lemma TrimmedIsFixed(s: string)
    requires Trimmed(s)
    ensures TrimSpace(s) == s
  {
  }

  /** t is what is left of s without the white space at its ends. */
  ghost predicate TrimsTo(s: string, t: string) {
    exists i :: TrimsAt(s, t, i)
  }

  predicate TrimsAt(s: string, t: string, i: int) {
    && 0 <= i <= |s| - |t| && s[i..i + |t|] == t && Trimmed(t)
    && (forall k :: 0 <= k < i ==> IsSpace(s[k])) && forall k :: i + |t| <= k < |s| ==> IsSpace(s[k])
  }

  lemma TrimSpaceIsExact(s: string, t: string)
    ensures TrimsTo(s, t) <==> t == TrimSpace(s)
  {
    var left := TrimLeft(s);
    var u, i := TrimRight(left), |s| - |left|;
    TrimSpaceIsTrimmed(s);
    TrimLeftSuffix(s);
    TrimRightPrefix(left);
    hide TrimLeft, TrimRight;
    assert forall k :: 0 <= k < |left| ==> left[k] == s[i + k];
    assert TrimsAt(s, u, i);
    hide TrimsAt;
    if TrimsTo(s, t) {
      var k :| TrimsAt(s, t, k);
      TrimsOnce(s, i, u, k, t);
    }
  }

  lemma TrimsOnce(s: string, i: int, t: string, k: int, u: string)
    requires TrimsAt(s, t, i) && TrimsAt(s, u, k)
    ensures t == u
  {
    if t != "" {
      assert t[0] == s[i] && t[|t| - 1] == s[i + |t| - 1];
    }
    if u != "" {
      assert u[0] == s[k] && u[|u| - 1] == s[k + |u| - 1];
    }
  }

  predicate HasPrefix(s: string, prefix: string) {
    prefix <= s
  }

  predicate HasSuffix(s: string, suffix: string) {
    |suffix| <= |s| && s[|s| - |suffix|..] == suffix
  }

  /** The place of the first c in s, or the length of s. */
  function IndexOf(s: string, c: char): (i: nat)
    ensures i <= |s| && (i < |s| ==> s[i] == c) && forall j :: 0 <= j < i ==> s[j] != c
  {
    if s == "" || s[0] == c then 0 else 1 + IndexOf(s[1..], c)
  }

  /** strings.Split with a separator of one character */
  function Split(s: string, c: char): (parts: seq<string>)
    ensures parts != []
  {
    var i := IndexOf(s, c);
    if i == |s| then [s] else [s[..i]] + Split(s[i + 1..], c)
  }

  /** strings.Join */
  function Join(parts: seq<string>, c: char): string {
    if parts == [] then ""
    else if |parts| == 1 then parts[0]
    else parts[0] + [c] + Join(parts[1..], c)
  }

  predicate CutBy(s: string, c: char, parts: seq<string>) {
    parts != [] && Join(parts, c) == s && forall p :: p in parts ==> c !in p
  }

  lemma {:induction false} SplitIsCut(s: string, c: char)
    ensures CutBy(s, c, Split(s, c))
    decreases |s|
  {
    var i := IndexOf(s, c);
    if i < |s| {
      var rest := s[i + 1..];
      SplitIsCut(rest, c);
      assert Split(s, c)[1..] == Split(rest, c);
      assert s == s[..i] + [c] + rest;
    }
  }

  lemma FirstPart(s: string, c: char, parts: seq<string>)
    requires CutBy(s, c, parts)
    ensures IndexOf(s, c) == |parts[0]| && parts[0] == s[..|parts[0]|]
    ensures |parts| == 1 <==> IndexOf(s, c) == |s|
    ensures |parts| > 1 ==> CutBy(s[|parts[0]| + 1..], c, parts[1..])
  {
    var first := parts[0];
    assert first in parts;
    assert forall j :: 0 <= j < |first| ==> first[j] in first;
    if |parts| > 1 {
      assert s == first + [c] + Join(parts[1..], c);
      assert s[|first|] == c;
      assert forall j :: 0 <= j < |first| ==> s[j] == first[j];
      assert s[|first| + 1..] == Join(parts[1..], c);
    }
  }

  /** Splitting is the one way to cut s at its separators: the parts hold none, and joined they are s again. */
  lemma {:induction false} SplitIsTheCut(s: string, c: char, parts: seq<string>)
    ensures parts == Split(s, c) <==> CutBy(s, c, parts)
    decreases |s|
  {
    SplitIsCut(s, c);
    if CutBy(s, c, parts) {
      FirstPart(s, c, parts);
      hide CutBy, IndexOf, Join;
      if |parts| == 1 {
        assert parts == [parts[0]];
      } else {
        SplitIsTheCut(s[|parts[0]| + 1..], c, parts[1..]);
        assert parts == [parts[0]] + parts[1..];
      }
    }
  }

  /** Go's string order. UTF-8 preserves it, so comparing scalar values is comparing bytes. */
  predicate Less(a: string, b: string) {
    b != "" && (a == "" || a[0] < b[0] || (a[0] == b[0] && Less(a[1..], b[1..])))
  }

  lemma {:induction false} LessIsTransitive(a: string, b: string, c: string)
    requires Less(a, b) && Less(b, c)
    ensures Less(a, c)
  {
    if a != "" && a[0] == b[0] && b[0] == c[0] {
      LessIsTransitive(a[1..], b[1..], c[1..]);
    }
  }

  lemma {:induction false} LessIsTotal(a: string, b: string)
    ensures Less(a, b) || Less(b, a) || a == b
    ensures !(Less(a, b) && Less(b, a))
  {
    if a != "" && b != "" && a[0] == b[0] {
      LessIsTotal(a[1..], b[1..]);
      assert a == [a[0]] + a[1..] && b == [b[0]] + b[1..];
    }
  }

  lemma {:induction false} LessIsIrreflexive(a: string)
    ensures !Less(a, a)
  {
    LessIsTotal(a, a);
  }

  /** a and b agree up to k, where a ends or has the smaller character. */
  predicate DiffersAt(a: string, b: string, k: nat) {
    && k <= |a| && k < |b| && (forall i :: 0 <= i < k ==> a[i] == b[i])
    && (k < |a| ==> a[k] < b[k])
  }

  /** The order is lexicographic. */
  lemma {:induction false} LessIsLexicographic(a: string, b: string)
    ensures Less(a, b) <==> exists k: nat :: DiffersAt(a, b, k)
  {
    if a != "" && b != "" && a[0] == b[0] {
      LessIsLexicographic(a[1..], b[1..]);
      if k: nat :| DiffersAt(a[1..], b[1..], k) {
        assert DiffersAt(a, b, k + 1);
      }
      if k: nat :| DiffersAt(a, b, k) {
        assert DiffersAt(a[1..], b[1..], k - 1);
      }
    } else if Less(a, b) {
      assert DiffersAt(a, b, 0);
    }
  }

  /** The number of bytes UTF-8 spends on one character. */
  function Utf8Width(c: char): nat {
    var n := c as int;
    if n < 0x80 then 1 else if n < 0x800 then 2 else if n < 0x10000 then 3 else 4
  }

  /** The largest number that fits into so many bytes of UTF-8, and one more. */
  function Utf8Room(bytes: nat): int
    requires 1 <= bytes <= 4
  {
    if bytes == 1 then 128 else if bytes == 2 then 32 * 64 else if bytes == 3 then 16 * 64 * 64 else 8 * 64 * 64 * 64
  }

  /** A character takes as many bytes as its number needs: seven bits in one byte, else six in each but the first. */
  lemma WidthIsLeast(c: char)
    ensures var w := Utf8Width(c);
            1 <= w <= 4 && (c as int) < Utf8Room(w) && (w > 1 ==> c as int >= Utf8Room(w - 1))
  {
  }

  /** len(s) in Go, and the length a TextEncoder reports in JavaScript. */
  function Utf8Length(s: string): nat {
    if s == "" then 0 else Utf8Length(s[..|s| - 1]) + Utf8Width(s[|s| - 1])
  }

  lemma {:induction false} Utf8LengthOfConcat(a: string, b: string)
    ensures Utf8Length(a + b) == Utf8Length(a) + Utf8Length(b)
  {
    if b == "" {
      assert a + b == a;
    } else {
      assert (a + b)[..|a + b| - 1] == a + b[..|b| - 1];
      Utf8LengthOfConcat(a, b[..|b| - 1]);
    }
  }

  lemma Utf8LengthOfPrefix(s: string, n: nat)
    requires n <= |s|
    ensures Utf8Length(s[..n]) <= Utf8Length(s)
  {
    assert s == s[..n] + s[n..];
    Utf8LengthOfConcat(s[..n], s[n..]);
  }

  /** No character takes more than four bytes. */
  lemma {:induction false} Utf8LengthAtMost(s: string)
    ensures Utf8Length(s) <= 4 * |s|
  {
    if s != "" {
      Utf8LengthAtMost(s[..|s| - 1]);
    }
  }

  // ---- decimal numbers ----

  function Digit(n: nat): (c: char)
    requires n < 10
    ensures '0' <= c <= '9'
  {
    ('0' as int + n) as char
  }

  predicate IsDigit(c: char) {
    '0' <= c <= '9'
  }

  predicate AllDigits(s: string) {
    forall i :: 0 <= i < |s| ==> IsDigit(s[i])
  }

  /** strconv.Itoa and fmt's %d on a natural number. */
  function Decimal(n: nat): (s: string)
    ensures s != "" && AllDigits(s)
  {
    if n < 10 then [Digit(n)] else Decimal(n / 10) + [Digit(n % 10)]
  }

  /** The number a string of decimal digits denotes. */
  function DigitsValue(s: string): nat
    requires AllDigits(s)
  {
    if s == "" then 0 else DigitsValue(s[..|s| - 1]) * 10 + (s[|s| - 1] as int - '0' as int)
  }

  lemma {:induction false} DecimalRoundTrip(n: nat)
    ensures DigitsValue(Decimal(n)) == n
  {
    var s := Decimal(n);
    if n >= 10 {
      DecimalRoundTrip(n / 10);
      assert s[..|s| - 1] == Decimal(n / 10);
    } else {
      assert s[..|s| - 1] == "";
    }
  }

  lemma DecimalIsInjective(m: nat, n: nat)
    requires Decimal(m) == Decimal(n)
    ensures m == n
  {
    DecimalRoundTrip(m);
    DecimalRoundTrip(n);
  }

  const MAX_INT64: int := 0x7fff_ffff_ffff_ffff

  /** strconv.Atoi on a 64-bit platform: an optional sign, digits, and a range check. */
  function Atoi(s: string): Option<int> {
    var negative := s != "" && s[0] == '-';
    var digits := if s != "" && (s[0] == '-' || s[0] == '+') then s[1..] else s;
    if digits == "" || !AllDigits(digits) then None
    else
      var v: int := DigitsValue(digits);
      if negative then (if v <= MAX_INT64 + 1 then Some(-v) else None)
      else if v <= MAX_INT64 then Some(v) else None
  }

  lemma AtoiReadsDecimal(n: nat)
    requires n <= MAX_INT64
    ensures Atoi(Decimal(n)) == Some(n)
  {
    DecimalRoundTrip(n);
    assert IsDigit(Decimal(n)[0]);
  }

  predicate AllZeros(s: string) {
    forall i :: 0 <= i < |s| ==> s[i] == '0'
  }

  /** s is the number's size in decimal, after any zeros and the sign. */
  predicate SpelledWith(s: string, sign: string, zeros: string, size: nat) {
    s == sign + (zeros + Decimal(size)) && AllZeros(zeros)
  }

  function Size(v: int): nat {
    if v < 0 then -v else v
  }

  predicate Signs(sign: string, v: int) {
    ((sign == "" || sign == "+") && v >= 0) || (sign == "-" && v <= 0)
  }

  /** s spells v in decimal: zeros may lead, a plus sign may, and a minus sign does if v is negative. */
  ghost predicate Spells(s: string, v: int) {
    exists sign, zeros :: SpelledWith(s, sign, zeros, Size(v)) && Signs(sign, v)
  }

  lemma OneMoreDigit(front: string, zeros: string, c: char) returns (more: string)
    requires AllDigits(front) && IsDigit(c) && front == zeros + Decimal(DigitsValue(front)) && AllZeros(zeros)
    ensures AllDigits(front + [c]) && AllZeros(more) && front + [c] == more + Decimal(DigitsValue(front + [c]))
  {
    var v, s := DigitsValue(front), front + [c];
    assert s[..|s| - 1] == front && [Digit(c as int - '0' as int)] == [c];
    assert DigitsValue(s) == v * 10 + (c as int - '0' as int);
    hide DigitsValue;
    if v == 0 {
      more := zeros + "0";
    } else {
      more := zeros;
      assert zeros + (Decimal(v) + [c]) == front + [c];
    }
  }

  lemma {:induction false} DigitsAreDecimal(s: string) returns (zeros: string)
    requires s != "" && AllDigits(s)
    ensures AllZeros(zeros) && s == zeros + Decimal(DigitsValue(s))
  {
    var front, last := s[..|s| - 1], s[|s| - 1];
    assert s == front + [last];
    if front == "" {
      zeros := "";
      assert [Digit(last as int - '0' as int)] == [last];
    } else {
      hide Decimal, DigitsValue;
      zeros := DigitsAreDecimal(front);
      zeros := OneMoreDigit(front, zeros, last);
    }
  }

  lemma {:induction false} LeadingZerosCount(zeros: string, s: string)
    requires AllZeros(zeros) && AllDigits(s)
    ensures AllDigits(zeros + s) && DigitsValue(zeros + s) == DigitsValue(s)
  {
    var t := zeros + s;
    if s != "" {
      assert t[..|t| - 1] == zeros + s[..|s| - 1];
      LeadingZerosCount(zeros, s[..|s| - 1]);
    } else if zeros != "" {
      assert t[..|t| - 1] == zeros[..|zeros| - 1] + "" && t[|t| - 1] == '0';
      LeadingZerosCount(zeros[..|zeros| - 1], "");
    }
  }

  /** What is left to read once the sign is off. */
  function Unsigned(s: string): string {
    if s != "" && (s[0] == '-' || s[0] == '+') then s[1..] else s
  }

  lemma AtoiIs(s: string, v: int)
    ensures Atoi(s) == Some(v) <==>
              && Unsigned(s) != "" && AllDigits(Unsigned(s)) && DigitsValue(Unsigned(s)) == Size(v)
              && -0x8000_0000_0000_0000 <= v <= 0x7fff_ffff_ffff_ffff && (if s[0] == '-' then v <= 0 else v >= 0)
  {
    hide AllDigits, DigitsValue;
  }

  lemma UnsignedOf(sign: string, digits: string)
    requires digits != "" && IsDigit(digits[0]) && (sign == "" || sign == "+" || sign == "-")
    ensures Unsigned(sign + digits) == digits && ((sign + digits)[0] == '-' <==> sign == "-")
  {
    if sign == "" {
      assert sign + digits == digits;
    } else {
      assert (sign + digits)[1..] == digits;
    }
  }

  lemma SpelledIs(s: string, sign: string, zeros: string, v: int)
    requires SpelledWith(s, sign, zeros, Size(v)) && Signs(sign, v)
    ensures Unsigned(s) != "" && AllDigits(Unsigned(s)) && DigitsValue(Unsigned(s)) == Size(v)
    ensures if s[0] == '-' then v <= 0 else v >= 0
  {
    LeadingZerosCount(zeros, Decimal(Size(v)));
    DecimalRoundTrip(Size(v));
    assert IsDigit((zeros + Decimal(Size(v)))[0]);
    hide Decimal, DigitsValue, AllDigits, AllZeros, Size, Unsigned;
    UnsignedOf(sign, zeros + Decimal(Size(v)));
  }

  lemma SignOf(s: string) returns (sign: string)
    requires Unsigned(s) != ""
    ensures s == sign + Unsigned(s) && (sign == "" || sign == "+" || sign == "-") && (s[0] == '-' <==> sign == "-")
  {
    if s[0] == '-' {
      sign := "-";
      assert s == "-" + s[1..];
    } else if s[0] == '+' {
      sign := "+";
      assert s == "+" + s[1..];
    } else {
      sign := "";
      assert s == "" + s;
    }
  }

  lemma UnsignedIsSpelled(s: string, v: int)
    requires Unsigned(s) != "" && AllDigits(Unsigned(s)) && DigitsValue(Unsigned(s)) == Size(v)
    requires if s[0] == '-' then v <= 0 else v >= 0
    ensures Spells(s, v)
  {
    var sign := SignOf(s);
    var zeros := DigitsAreDecimal(Unsigned(s));
    hide Decimal, DigitsValue, AllDigits, AllZeros, Size, Unsigned;
    assert SpelledWith(s, sign, zeros, Size(v));
    hide SpelledWith;
    assert Signs(sign, v);
  }

  /** A string is read as a number if and only if it spells it and it fits 64 bits. */
  lemma AtoiExactly(s: string, v: int)
    ensures Atoi(s) == Some(v) <==> Spells(s, v) && -0x8000_0000_0000_0000 <= v <= 0x7fff_ffff_ffff_ffff
  {
    AtoiIs(s, v);
    hide Atoi, DigitsValue, AllDigits, Unsigned, Signs, SpelledWith, Size;
    if Spells(s, v) {
      var sign, zeros :| SpelledWith(s, sign, zeros, Size(v)) && Signs(sign, v);
      SpelledIs(s, sign, zeros, v);
    } else if Atoi(s) == Some(v) {
      UnsignedIsSpelled(s, v);
    }
  }
}
