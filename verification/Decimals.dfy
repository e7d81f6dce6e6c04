/** Numbers as decimal text, as %d prints them and Atoi reads them. */
module Decimals {
  import opened Events
  import Words

  function Digit(d: nat): (c: char)
    requires d < 10
    ensures '0' <= c <= '9'
  {
    '0' + d as char
  }

  function Digits(n: nat): (s: string)
    ensures |s| >= 1 && AllDigits(s)
  {
    if n < 10 then [Digit(n)] else Digits(n / 10) + [Digit(n % 10)]
  }

  predicate AllDigits(s: string) {
    forall i :: 0 <= i < |s| ==> '0' <= s[i] <= '9'
  }

  function Value(s: string): nat
    requires AllDigits(s)
  {
    if |s| == 0 then 0 else 10 * Value(s[..|s| - 1]) + (s[|s| - 1] - '0') as nat
  }

  lemma {:induction false} ValueOfDigits(n: nat)
    ensures Value(Digits(n)) == n
  {
    if n >= 10 {
      ValueOfDigits(n / 10);
      assert Digits(n)[..|Digits(n)| - 1] == Digits(n / 10);
    }
  }

  /** %d */
  function Print(n: int): string {
    if n < 0 then "-" + Digits(-n) else Digits(n)
  }

  lemma {:induction false} NoLeadingZero(n: nat)
    ensures n > 0 ==> Digits(n)[0] != '0'
  {
    if n >= 10 {
      NoLeadingZero(n / 10);
    }
  }

  /** What %d prints: digits that stand for the number, none in front that could be
      left out, and a minus sign for negative numbers only. */
  lemma PrintIs(n: int)
    ensures n >= 0 ==> |Print(n)| > 0 && AllDigits(Print(n)) && Value(Print(n)) == n
    ensures n > 0 ==> Print(n)[0] != '0'
    ensures Print(0) == "0"
    ensures n < 0 ==> Print(n) == "-" + Print(-n)
  {
    if n >= 0 {
      ValueOfDigits(n);
      NoLeadingZero(n);
    }
  }

  /** An optional sign and at least one digit. */
  function Read(s: string): Option<int> {
    if |s| > 0 && s[0] == '-' then Unsigned(s[1..], -1)
    else if |s| > 0 && s[0] == '+' then Unsigned(s[1..], 1)
    else Unsigned(s, 1)
  }

  function Unsigned(s: string, sign: int): Option<int> {
    if |s| > 0 && AllDigits(s) then Some(sign * Value(s)) else None
  }

  /** strconv.Atoi: what does not fit a word is an error. */
  function Atoi(s: string): Option<int> {
    match Read(s)
    case None => None
    case Some(n) => if Words.IsWord(n) then Some(n) else None
  }

  lemma ReadDigits(s: string)
    requires |s| > 0 && AllDigits(s)
    ensures Read(s) == Some(Value(s))
  {
    assert '0' <= s[0] <= '9';
  }

  lemma ReadUndoesPrint(n: int)
    ensures Read(Print(n)) == Some(n)
  {
    if n < 0 {
      ValueOfDigits(-n);
      assert ("-" + Digits(-n))[1..] == Digits(-n);
      assert Read("-" + Digits(-n)) == Unsigned(Digits(-n), -1);
    } else {
      ValueOfDigits(n);
      ReadDigits(Digits(n));
    }
  }

  lemma PrintInjective(m: int, n: int)
    requires Print(m) == Print(n)
    ensures m == n
  {
    ReadUndoesPrint(m);
    ReadUndoesPrint(n);
  }

  /** %0kd for a number of at most k digits. */
  function Pad(k: nat, n: nat): (s: string)
    ensures |s| == k && AllDigits(s)
  {
    if k == 0 then "" else Pad(k - 1, n / 10) + [Digit(n % 10)]
  }

  function Power10(k: nat): nat {
    if k == 0 then 1 else 10 * Power10(k - 1)
  }

  lemma {:induction false} PadInjective(k: nat, m: nat, n: nat)
    requires m < Power10(k) && n < Power10(k) && Pad(k, m) == Pad(k, n)
    ensures m == n
  {
    if k > 0 {
      var a, b := Pad(k - 1, m / 10), Pad(k - 1, n / 10);
      assert Pad(k, m)[..k - 1] == a && Pad(k, n)[..k - 1] == b;
      assert Pad(k, m)[k - 1] == Digit(m % 10) && Pad(k, n)[k - 1] == Digit(n % 10);
      PadInjective(k - 1, m / 10, n / 10);
      DigitInjective(m % 10, n % 10);
    }
  }

  lemma DigitInjective(a: nat, b: nat)
    requires a < 10 && b < 10 && Digit(a) == Digit(b)
    ensures a == b
  {
    assert (Digit(a) - '0') as nat == a && (Digit(b) - '0') as nat == b;
  }

  lemma {:induction false} ValueOfPad(k: nat, n: nat)
    requires n < Power10(k)
    ensures Value(Pad(k, n)) == n
  {
    if k > 0 {
      ValueOfPad(k - 1, n / 10);
      assert Pad(k, n)[..k - 1] == Pad(k - 1, n / 10);
    }
  }

  /** Zero-padded to k digits, or longer when it has to be. */
  function AtLeast(k: nat, n: nat): (s: string)
    ensures AllDigits(s)
  {
    if n < Power10(k) then Pad(k, n) else Digits(n)
  }

  lemma ValueOfAtLeast(k: nat, n: nat)
    ensures Value(AtLeast(k, n)) == n
  {
    if n < Power10(k) {
      ValueOfPad(k, n);
    } else {
      ValueOfDigits(n);
    }
  }
}
