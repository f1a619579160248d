/** JavaScript strings: finite sequences of UTF-16 code units, their literals, decimal numerals and order. */
module JsText {

  newtype CodeUnit = u: int | 0 <= u < 0x1_0000

  type Text = seq<CodeUnit>

  datatype Option<+T> = None | Some(value: T)

  /** The text of an ASCII literal. */
  function T(s: string): (t: Text)
    ensures |t| == |s|
  {
    seq(|s|, i requires 0 <= i < |s| => (s[i] as int % 0x1_0000) as CodeUnit)
  }

  /** Decimal digits of a natural number, most significant first, no leading zero. */
  function Digits(n: nat): (t: Text)
    ensures t != []
    ensures forall i :: 0 <= i < |t| ==> IsDigit(t[i])
    ensures t[0] == 48 ==> n == 0
    ensures n == 0 ==> t == [48]
  {
    if n < 10 then [48 + n as CodeUnit] else Digits(n / 10) + [48 + (n % 10) as CodeUnit]
  }

  predicate IsDigit(u: CodeUnit) {
    48 <= u <= 57
  }

  /** The number a digit string denotes. */
  function DigitsValue(t: Text): nat
    requires forall i :: 0 <= i < |t| ==> IsDigit(t[i])
  {
    if t == [] then 0
    else assert IsDigit(t[|t| - 1]); 10 * DigitsValue(t[..|t| - 1]) + (t[|t| - 1] as int - 48)
  }

  lemma {:induction false} DigitsValueInverse(n: nat)
    ensures DigitsValue(Digits(n)) == n
  {
    if n >= 10 {
      DigitsValueInverse(n / 10);
      assert Digits(n)[..|Digits(n)| - 1] == Digits(n / 10);
    }
  }

  /** `String(n)` of an integer. */
  function Decimal(n: int): (t: Text)
    ensures t != []
  {
    if n < 0 then [45] + Digits(-n) else Digits(n)
  }

  lemma DecimalInjective(m: int, n: int)
    requires Decimal(m) == Decimal(n)
    ensures m == n
  {
    assert IsDigit(Digits(if m < 0 then -m else m)[0]);
    assert IsDigit(Digits(if n < 0 then -n else n)[0]);
    if m < 0 {
      assert Decimal(m)[0] == 45;
      assert Decimal(m)[1..] == Digits(-m);
      assert Decimal(n)[1..] == Digits(-n);
      DigitsValueInverse(-m);
      DigitsValueInverse(-n);
    } else {
      assert Decimal(m)[0] != 45;
      DigitsValueInverse(m);
      DigitsValueInverse(n);
    }
  }

  // ----- The code-unit order of `Array.prototype.sort` on strings

  predicate Less(a: Text, b: Text) {
    b != [] && (a == [] || a[0] < b[0] || (a[0] == b[0] && Less(a[1..], b[1..])))
  }

  lemma {:induction false} LessIrreflexive(a: Text)
    ensures !Less(a, a)
  {
    if a != [] {
      LessIrreflexive(a[1..]);
    }
  }

  lemma {:induction false} LessTransitive(a: Text, b: Text, c: Text)
    requires Less(a, b) && Less(b, c)
    ensures Less(a, c)
  {
    if a != [] && a[0] == b[0] == c[0] {
      LessTransitive(a[1..], b[1..], c[1..]);
    }
  }

  lemma {:induction false} LessConnected(a: Text, b: Text)
    requires a != b
    ensures Less(a, b) || Less(b, a)
  {
    if a != [] && b != [] && a[0] == b[0] {
      assert a == [a[0]] + a[1..] && b == [b[0]] + b[1..];
      LessConnected(a[1..], b[1..]);
    }
  }
}
