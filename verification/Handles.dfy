/** The short `M-NN` handles by which an agent names a memory in a tool call. */
module Handles {
  import opened Common

  const MAX_HANDLE: nat := 9999
  const U32_MAX: nat := 0xFFFF_FFFF

  predicate IsDigit(c: char) {
    '0' <= c <= '9'
  }

  predicate AllDigits(s: string) {
    forall i :: 0 <= i < |s| ==> IsDigit(s[i])
  }

  function Decimal(n: nat): (s: string)
    ensures s != [] && AllDigits(s)
    ensures n > 0 ==> s[0] != '0'
  {
    if n < 10 then ['0' + n as char] else Decimal(n / 10) + ['0' + (n % 10) as char]
  }

  function Value(s: string): nat
    requires AllDigits(s)
  {
    if s == [] then 0 else Value(s[..|s| - 1]) * 10 + (s[|s| - 1] - '0') as nat
  }

  /** An unsigned 32-bit number in decimal, with the optional plus sign the standard parser takes. */
  function ParseU32(s: string): Option<nat> {
    var digits := if s != [] && s[0] == '+' then s[1..] else s;
    if digits == [] || !AllDigits(digits) || Value(digits) > U32_MAX then None else Some(Value(digits))
  }

  function Checked(n: nat): Option<nat> {
    if n == 0 || n > MAX_HANDLE then None else Some(n)
  }

  function Show(handle: nat): string {
    "M-" + Decimal(handle)
  }

  function Parse(raw: string): Option<nat> {
    if "M-" <= raw then
      match ParseU32(raw[2..])
      case None => None
      case Some(n) => Checked(n)
    else None
  }

  lemma {:induction false} ValueOfDecimal(n: nat)
    ensures Value(Decimal(n)) == n
  {
    var s := Decimal(n);
    assert s == Decimal(n)[..|s| - 1] + [s[|s| - 1]];
    if n >= 10 {
      ValueOfDecimal(n / 10);
      assert s[..|s| - 1] == Decimal(n / 10);
    } else {
      assert s[..|s| - 1] == [];
    }
  }

  lemma {:induction false} DecimalOfValue(s: string)
    requires s != [] && AllDigits(s) && s[0] != '0'
    ensures Value(s) > 0 && Decimal(Value(s)) == s
  {
    var front, last := s[..|s| - 1], (s[|s| - 1] - '0') as nat;
    assert s == front + [s[|s| - 1]];
    if front == [] {
      assert Value(front) == 0;
    } else {
      DecimalOfValue(front);
      var n := Value(s);
      assert n / 10 == Value(front) && n % 10 == last;
    }
  }

  /** What is printed is read back as the same handle. */
  lemma ShowThenParse(handle: nat)
    requires 1 <= handle <= 9999
    ensures Parse(Show(handle)) == Some(handle)
  {
    ValueOfDecimal(handle);
    assert Show(handle)[2..] == Decimal(handle);
  }

  /**
   Reading is not restricted to the printed form: a leading plus sign and leading zeros pass. The text read
   is the printed form of the handle exactly when a non-zero digit follows the prefix.
   */
  lemma CanonicalIff(raw: string)
    requires Parse(raw).Some?
    ensures |raw| > 2
    ensures Show(Parse(raw).value) == raw <==> '1' <= raw[2] <= '9'
  {
    var handle, digits := Parse(raw).value, raw[2..];
    assert raw == "M-" + digits;
    if '1' <= raw[2] <= '9' {
      DecimalOfValue(digits);
    } else {
      assert Show(handle)[2] == Decimal(handle)[0];
    }
  }

  lemma NonCanonicalAccepted()
    ensures Parse("M-+7") == Some(7) && Parse("M-07") == Some(7) && Show(7) == "M-7"
  {
    assert "M-+7"[2..] == "+7" && "+7"[1..] == "7" && "M-07"[2..] == "07";
    assert "7"[..0] == [] && "07"[..1] == "0" && "0"[..0] == [];
    assert Value("7") == 7 && Value("0") == 0 && Value("07") == 7;
  }

  /** The printed handle has one to four digits, spelled out here for each length. */
  lemma ShowDigits(n: nat)
    requires 1 <= n <= 9999
    ensures Show(n) ==
              if n < 10 then ['M', '-', Digit(n)]
              else if n < 100 then ['M', '-', Digit(n / 10), Digit(n % 10)]
              else if n < 1000 then ['M', '-', Digit(n / 100), Digit(n / 10 % 10), Digit(n % 10)]
              else ['M', '-', Digit(n / 1000), Digit(n / 100 % 10), Digit(n / 10 % 10), Digit(n % 10)]
  {
    if n < 100 {
      TwoDigits(n);
    } else {
      assert n / 10 / 10 == n / 100 && n / 100 / 10 == n / 1000 && n / 100 % 10 == n / 10 / 10 % 10;
      TwoDigits(n / 100);
      LastDigit(n / 10);
      LastDigit(n);
    }
  }

  lemma TwoDigits(n: nat)
    requires n < 100
    ensures Decimal(n) == if n < 10 then [Digit(n)] else [Digit(n / 10), Digit(n % 10)]
  {
    LastDigit(n);
    LastDigit(n / 10);
  }

  lemma LastDigit(n: nat)
    ensures Decimal(n) == (if n < 10 then [] else Decimal(n / 10)) + [Digit(n % 10)]
  {
    var d := n % 10;
    assert d == 0 || d == 1 || d == 2 || d == 3 || d == 4 || d == 5 || d == 6 || d == 7 || d == 8 || d == 9;
  }

  function Digit(d: nat): char
    requires d < 10
  {
    ['0', '1', '2', '3', '4', '5', '6', '7', '8', '9'][d]
  }

  predicate Zeros(s: string) {
    forall i :: 0 <= i < |s| ==> s[i] == '0'
  }

  lemma {:induction false} LeadingZeros(digits: string) returns (zeros: string)
    requires AllDigits(digits) && Value(digits) > 0
    ensures Zeros(zeros) && digits == zeros + Decimal(Value(digits))
  {
    if digits[0] != '0' {
      DecimalOfValue(digits);
      zeros := "";
    } else {
      ValueWithZero(digits[1..]);
      assert digits == "0" + digits[1..];
      var rest := LeadingZeros(digits[1..]);
      zeros := "0" + rest;
    }
  }

  lemma {:induction false} ValueWithZero(digits: string)
    requires AllDigits(digits)
    ensures AllDigits("0" + digits) && Value("0" + digits) == Value(digits)
  {
    var all := "0" + digits;
    if digits == [] {
      assert all[..0] == [];
    } else {
      ValueWithZero(digits[..|digits| - 1]);
      assert all[..|all| - 1] == "0" + digits[..|digits| - 1];
    }
  }

  lemma {:induction false} ValueWithZeros(zeros: string, digits: string)
    requires Zeros(zeros) && AllDigits(digits)
    ensures AllDigits(zeros + digits) && Value(zeros + digits) == Value(digits)
  {
    if zeros == [] {
      assert zeros + digits == digits;
    } else {
      ValueWithZeros(zeros[1..], digits);
      ValueWithZero(zeros[1..] + digits);
      assert zeros + digits == "0" + (zeros[1..] + digits);
    }
  }

  /** The texts that are read as handle `n`: the prefix, perhaps a plus sign, any zeros, and the number as printed. */
  ghost predicate Spells(raw: string, n: nat) {
    exists sign: string, zeros: string ::
      (sign == "" || sign == "+") && Zeros(zeros) && raw == "M-" + sign + zeros + Decimal(n)
  }

  lemma ParsesIffSpelled(raw: string, n: nat)
    ensures Parse(raw) == Some(n) <==> 1 <= n <= 9999 && Spells(raw, n)
  {
    if Parse(raw) == Some(n) { ParsedIsSpelled(raw, n); }
    if 1 <= n <= 9999 && Spells(raw, n) {
      var sign: string, zeros: string :|
        (sign == "" || sign == "+") && Zeros(zeros) && raw == "M-" + sign + zeros + Decimal(n);
      SpelledParses(sign, zeros, n);
      Regroup(sign, zeros, Decimal(n));
    }
  }

  lemma Regroup(sign: string, zeros: string, digits: string)
    ensures "M-" + sign + zeros + digits == "M-" + (sign + (zeros + digits))
  {
  }

  lemma ParsedIsSpelled(raw: string, n: nat)
    requires Parse(raw) == Some(n)
    ensures 1 <= n <= 9999 && Spells(raw, n)
  {
    var text := raw[2..];
    var sign := if text[0] == '+' then "+" else "";
    var digits := text[|sign|..];
    assert raw == "M-" + (sign + digits);
    var zeros := LeadingZeros(digits);
    Regroup(sign, zeros, Decimal(n));
  }

  lemma SpelledParses(sign: string, zeros: string, n: nat)
    requires (sign == "" || sign == "+") && Zeros(zeros) && 1 <= n <= 9999
    ensures Parse("M-" + (sign + (zeros + Decimal(n)))) == Some(n)
  {
    var digits := zeros + Decimal(n);
    ValueOfDecimal(n);
    ValueWithZeros(zeros, Decimal(n));
    assert ("M-" + (sign + digits))[2..] == sign + digits;
    assert sign == "+" ==> (sign + digits)[1..] == digits;
    assert sign == "" ==> sign + digits == digits;
    assert IsDigit(digits[0]);
  }

  lemma DecimalLength(n: nat)
    requires n <= MAX_HANDLE
    ensures |Decimal(n)| <= 4
  {
    assert n / 10 / 10 / 10 < 10;
    assert n >= 1000 ==> Decimal(n) == Decimal(n / 10) + ['0' + (n % 10) as char];
    assert |Decimal(n / 10 / 10)| <= 2;
    assert |Decimal(n / 10)| <= 3;
  }
}
