/** The string operations that the broker, the context and the config resolver share. */
module Text {
  import opened Common

  /** The characters `String.prototype.trim` removes. */
  predicate IsSpace(c: char) {
    var k := c as int;
    || 0x09 <= k <= 0x0D
    || k in {0x20, 0xA0, 0x1680, 0x2028, 0x2029, 0x202F, 0x205F, 0x3000, 0xFEFF}
    || 0x2000 <= k <= 0x200A
  }

  function TrimStart(s: string): string {
    if s != "" && IsSpace(s[0]) then TrimStart(s[1..]) else s
  }

  function TrimEnd(s: string): string {
    if s != "" && IsSpace(s[|s| - 1]) then TrimEnd(s[..|s| - 1]) else s
  }

  function Trim(s: string): string {
    TrimEnd(TrimStart(s))
  }

  /** Lower case, modelled on the ASCII letters. */
  function LowerChar(c: char): char {
    if 'A' <= c <= 'Z' then (c as int + 32) as char else c
  }

  function Lower(s: string): string {
    seq(|s|, i requires 0 <= i < |s| => LowerChar(s[i]))
  }

  /** The canonical form of channel names: trimmed and lower-cased. */
  function Normalize(s: string): string {
    Lower(Trim(s))
  }

  /** No space at either end. */
  predicate Tight(s: string) {
    s == "" || (!IsSpace(s[0]) && !IsSpace(s[|s| - 1]))
  }

  lemma {:induction false} TrimStartIsTight(s: string)
    ensures var r := TrimStart(s); r == "" || !IsSpace(r[0])
  {
    if s == "" || !IsSpace(s[0]) {
    } else {
      TrimStartIsTight(s[1..]);
    }
  }

  lemma {:induction false} TrimEndIsTight(s: string)
    ensures var r := TrimEnd(s); r == "" || (!IsSpace(r[|r| - 1]) && r[0] == s[0])
  {
    if s == "" || !IsSpace(s[|s| - 1]) {
    } else {
      TrimEndIsTight(s[..|s| - 1]);
    }
  }

  lemma {:induction false} TrimStartShortens(s: string)
    ensures |TrimStart(s)| <= |s| && (|TrimStart(s)| == |s| ==> TrimStart(s) == s)
  {
    if s == "" || !IsSpace(s[0]) {
    } else {
      TrimStartShortens(s[1..]);
    }
  }

  lemma {:induction false} TrimEndShortens(s: string)
    ensures |TrimEnd(s)| <= |s| && (|TrimEnd(s)| == |s| ==> TrimEnd(s) == s)
  {
    if s == "" || !IsSpace(s[|s| - 1]) {
    } else {
      TrimEndShortens(s[..|s| - 1]);
    }
  }

  /** The names normalising leaves alone: no space at either end, and no upper-case letter. */
  lemma NormalMeans(s: string)
    ensures Normalize(s) == s <==> Tight(s) && Lower(s) == s
  {
    TrimStartIsTight(s);
    TrimEndIsTight(TrimStart(s));
    TrimStartShortens(s);
    TrimEndShortens(TrimStart(s));
    if Normalize(s) == s {
      assert |Trim(s)| == |s|;
      assert Trim(s) == s;
    }
  }

  predicate AllSpace(s: string) {
    forall i | 0 <= i < |s| :: IsSpace(s[i])
  }

  lemma {:induction false} TrimStartCuts(s: string)
    ensures |TrimStart(s)| <= |s|
    ensures var k := |s| - |TrimStart(s)|; TrimStart(s) == s[k..] && AllSpace(s[..k])
  {
    if s != "" && IsSpace(s[0]) {
      TrimStartCuts(s[1..]);
      var k := |s| - |TrimStart(s)|;
      assert s[..k] == [s[0]] + s[1..][..k - 1];
    }
  }

  lemma {:induction false} TrimEndCuts(s: string)
    ensures |TrimEnd(s)| <= |s|
    ensures var k := |TrimEnd(s)|; TrimEnd(s) == s[..k] && AllSpace(s[k..])
  {
    if s != "" && IsSpace(s[|s| - 1]) {
      TrimEndCuts(s[..|s| - 1]);
      var k := |TrimEnd(s)|;
      assert s[k..] == s[..|s| - 1][k..] + [s[|s| - 1]];
    }
  }

  /** Trimming takes white space off both ends and nothing else, and leaves none there. */
  lemma TrimCuts(s: string) returns (i: nat, j: nat)
    ensures i <= j <= |s| && Trim(s) == s[i..j] && AllSpace(s[..i]) && AllSpace(s[j..]) && Tight(Trim(s))
  {
    TrimStartCuts(s);
    TrimEndCuts(TrimStart(s));
    TrimStartIsTight(s);
    TrimEndIsTight(TrimStart(s));
    i := |s| - |TrimStart(s)|;
    j := i + |Trim(s)|;
    assert TrimStart(s)[|Trim(s)|..] == s[j..];
  }

  /** Text is blank exactly when it holds nothing but white space. */
  lemma TrimIsBlank(s: string)
    ensures Trim(s) == "" <==> AllSpace(s)
  {
    var i, j := TrimCuts(s);
    assert s == s[..i] + s[i..j] + s[j..];
    if Trim(s) != "" {
      assert s[i] == Trim(s)[0];
    }
  }

  /** Only the case of letters changes: each upper-case letter becomes its lower-case one. */
  lemma LowerMaps(s: string, i: nat)
    requires i < |s|
    ensures |Lower(s)| == |s|
    ensures if 'A' <= s[i] <= 'Z' then 'a' <= Lower(s)[i] <= 'z'
              && Lower(s)[i] as int - 'a' as int == s[i] as int - 'A' as int
            else Lower(s)[i] == s[i]
  {
  }

  lemma LowerTwice(s: string)
    ensures Lower(Lower(s)) == Lower(s)
  {
  }

  lemma LowerStaysTight(s: string)
    requires Tight(s)
    ensures Tight(Lower(s))
  {
    var n := Lower(s);
    assert s != "" ==> n[0] == LowerChar(s[0]) && n[|n| - 1] == LowerChar(s[|s| - 1]);
    assert forall c: char :: IsSpace(LowerChar(c)) ==> IsSpace(c);
  }

  /** Normalising twice is normalising once, so names the broker stored compare equal on the listener's side. */
  lemma NormalizeIdempotent(s: string)
    ensures Normalize(Normalize(s)) == Normalize(s)
  {
    TrimStartIsTight(s);
    TrimEndIsTight(TrimStart(s));
    assert Tight(Trim(s));
    LowerStaysTight(Trim(s));
    LowerTwice(Trim(s));
    NormalMeans(Normalize(s));
  }

  // ---------------------------------------------------------------- decimal numbers

  predicate IsDigit(c: char) {
    '0' <= c <= '9'
  }

  function Digits(n: nat): (s: string)
    ensures |s| > 0 && forall i | 0 <= i < |s| :: IsDigit(s[i])
  {
    var last := ['0' + (n % 10) as char];
    if n < 10 then last else Digits(n / 10) + last
  }

  /** `String(n)` for a whole number. */
  function Decimal(n: int): string {
    if n < 0 then "-" + Digits(-n) else Digits(n)
  }

  function Value(s: string): int {
    if s == [] then 0 else 10 * Value(s[..|s| - 1]) + (s[|s| - 1] as int - '0' as int)
  }

  lemma {:induction false} DigitsRead(n: nat)
    ensures Value(Digits(n)) == n
  {
    if n < 10 {
    } else {
      var front, last := Digits(n / 10), ['0' + (n % 10) as char];
      DigitsRead(n / 10);
      assert (front + last)[..|front + last| - 1] == front;
    }
  }

  lemma DecimalIsInjective(m: int, n: int)
    requires Decimal(m) == Decimal(n)
    ensures m == n
  {
    var a, b := if m < 0 then -m else m, if n < 0 then -n else n;
    DigitsRead(a);
    DigitsRead(b);
    assert Digits(a)[0] != '-' && Digits(b)[0] != '-';
    assert m < 0 <==> Decimal(m)[0] == '-';
    assert n < 0 <==> Decimal(n)[0] == '-';
    assert m < 0 ==> Decimal(m)[1..] == Digits(a);
    assert n < 0 ==> Decimal(n)[1..] == Digits(b);
  }

  function DigitPrefix(s: string): string {
    if s != "" && IsDigit(s[0]) then [s[0]] + DigitPrefix(s[1..]) else ""
  }

  /** `Number.parseInt(s, 10)` of a trimmed string; `None` for NaN. */
  function ParseInt(s: string): Option<int> {
    var signed := s != "" && (s[0] == '-' || s[0] == '+');
    var digits := DigitPrefix(if signed then s[1..] else s);
    if digits == "" then None else Some(if signed && s[0] == '-' then -Value(digits) else Value(digits))
  }

  lemma {:induction false} AllDigits(s: string)
    requires forall i | 0 <= i < |s| :: IsDigit(s[i])
    ensures DigitPrefix(s) == s
  {
    if s == "" {
    } else {
      AllDigits(s[1..]);
    }
  }

  lemma {:induction false} DigitsThenOther(a: string, b: string)
    requires (forall i | 0 <= i < |a| :: IsDigit(a[i])) && (b == "" || !IsDigit(b[0]))
    ensures DigitPrefix(a + b) == a
  {
    if a == "" {
      assert a + b == b;
    } else {
      assert (a + b)[1..] == a[1..] + b;
      DigitsThenOther(a[1..], b);
    }
  }

  lemma DigitsAreRead(n: nat, rest: string)
    requires rest == "" || !IsDigit(rest[0])
    ensures DigitPrefix(Digits(n) + rest) == Digits(n) && Value(Digits(n)) == n
  {
    DigitsThenOther(Digits(n), rest);
    DigitsRead(n);
  }

  /** What is read from text: the whole number it begins with, a sign included; what comes after does not matter. */
  lemma ParseIntReads(n: nat, rest: string)
    requires rest == "" || !IsDigit(rest[0])
    ensures ParseInt(Digits(n) + rest) == Some(n)
    ensures ParseInt("+" + (Digits(n) + rest)) == Some(n)
    ensures ParseInt("-" + (Digits(n) + rest)) == Some(0 - n as int)
  {
    var s := Digits(n) + rest;
    DigitsAreRead(n, rest);
    assert s[0] == Digits(n)[0] && IsDigit(s[0]);
    assert ("-" + s)[1..] == s && ("+" + s)[1..] == s;
  }

  /** Text that does not begin with a number is none. */
  lemma ParseIntOfOther(text: string)
    requires text == "" || (!IsDigit(text[0]) && text[0] != '-' && text[0] != '+')
    ensures ParseInt(text) == None
  {
  }

  /** Reading back a number that was written. */
  lemma NumberReadsBack(n: nat)
    ensures ParseInt(Trim(Decimal(n))) == Some(n)
  {
    var s := Digits(n);
    assert !IsSpace(s[0]) && !IsSpace(s[|s| - 1]);
    assert Trim(s) == s;
    AllDigits(s);
    DigitsRead(n);
  }
}
