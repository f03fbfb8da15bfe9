// The string keys under which communicators, streams and bootstrap addresses are
// filed: decimal device indices and counters ("3"), rank pairs ("0:2") and
// per-stream entries ("3_17").  All of them share flat string maps, so the model
// needs to know that two different keys never render to the same text.
module Keys {

  // std::to_string of an unsigned number.
  function Decimal(n: nat): (s: string)
  {
    if n < 10 then [Digit(n)] else Decimal(n / 10) + [Digit(n % 10)]
  }

  function Digit(d: nat): (c: char)
    requires d < 10
  {
    "0123456789"[d]
  }

  // std::to_string of a signed number (stream ids are signed 64-bit values).
  function SignedDecimal(i: int): (s: string)
  {
    if i < 0 then ['-'] + Decimal(-i) else Decimal(i)
  }

  datatype Key =
    | Number(n: nat)             // device index, or bootstrap counter
    | Pair(lo: nat, hi: nat)     // the two ranks of a point-to-point communicator
    | Stream(dev: nat, id: int)  // device index and stream id

  function Render(k: Key): (s: string)
  {
    match k
    case Number(n) => Decimal(n)
    case Pair(lo, hi) => Decimal(lo) + [':'] + Decimal(hi)
    case Stream(dev, id) => Decimal(dev) + ['_'] + SignedDecimal(id)
  }

  predicate IsDigit(c: char) { '0' <= c <= '9' }

  lemma {:induction false} DecimalShape(n: nat)
    ensures |Decimal(n)| > 0
    ensures forall i :: 0 <= i < |Decimal(n)| ==> IsDigit(Decimal(n)[i])
  {
    if n >= 10 {
      DecimalShape(n / 10);
    }
  }

  lemma {:induction false} DecimalInjective(m: nat, n: nat)
    requires Decimal(m) == Decimal(n)
    ensures m == n
  {
    hide *;
    DecimalShape(m / 10);
    DecimalShape(n / 10);
    LastDigit(m);
    LastDigit(n);
    DigitInjective(m % 10, n % 10);
    if m >= 10 && n >= 10 {
      DecimalInjective(m / 10, n / 10);
    }
  }

  lemma DigitInjective(a: nat, b: nat)
    requires a < 10 && b < 10 && Digit(a) == Digit(b)
    ensures a == b
  {
  }

  lemma LastDigit(n: nat)
    ensures Decimal(n) == (if n < 10 then "" else Decimal(n / 10)) + [Digit(n % 10)]
    ensures var s := Decimal(n); s[|s| - 1] == Digit(n % 10) && s[..|s| - 1] == if n < 10 then "" else Decimal(n / 10)
  {
    assert n < 10 ==> "" + [Digit(n)] == [Digit(n)];
  }

  lemma SignedDecimalInjective(i: int, j: int)
    requires SignedDecimal(i) == SignedDecimal(j)
    ensures i == j
  {
    var a, b := if i < 0 then -i else i, if j < 0 then -j else j;
    DecimalShape(a);
    DecimalShape(b);
    assert i < 0 <==> SignedDecimal(i)[0] == '-';
    assert j < 0 <==> SignedDecimal(j)[0] == '-';
    if i < 0 {
      assert SignedDecimal(i)[1..] == Decimal(a);
      assert SignedDecimal(j)[1..] == Decimal(b);
    }
    DecimalInjective(a, b);
  }

  // A separator that occurs in neither left part pins down where the text splits.
  lemma SplitUnique(a: string, x: char, b: string, c: string, y: char, d: string)
    requires a + [x] + b == c + [y] + d
    requires forall i :: 0 <= i < |a| ==> IsDigit(a[i])
    requires forall i :: 0 <= i < |c| ==> IsDigit(c[i])
    requires !IsDigit(x) && !IsDigit(y)
    ensures a == c && x == y && b == d
  {
    var s, t := a + [x] + b, c + [y] + d;
    assert !IsDigit(s[|a|]) && forall i :: 0 <= i < |a| ==> IsDigit(s[i]);
    assert !IsDigit(t[|c|]) && forall i :: 0 <= i < |c| ==> IsDigit(t[i]);
    assert |a| == |c|;
    assert s[..|a|] == a && t[..|c|] == c;
    assert s[|a| + 1..] == b && t[|c| + 1..] == d;
  }

  predicate AllDigits(s: string) { forall i :: 0 <= i < |s| ==> IsDigit(s[i]) }

  function First(k: Key): nat
  {
    match k case Number(n) => n case Pair(lo, _) => lo case Stream(dev, _) => dev
  }

  lemma OnlyNumbersAreAllDigits(k: Key)
    ensures AllDigits(Render(k)) <==> k.Number?
  {
    DecimalShape(First(k));
    if !k.Number? {
      assert !IsDigit(Render(k)[|Decimal(First(k))|]);
    }
  }

  // Different keys never collide in the string-keyed maps.
  lemma RenderInjective(j: Key, k: Key)
    requires Render(j) == Render(k)
    ensures j == k
  {
    OnlyNumbersAreAllDigits(j);
    OnlyNumbersAreAllDigits(k);
    if j.Number? {
      DecimalInjective(j.n, k.n);
    } else {
      DecimalShape(First(j));
      DecimalShape(First(k));
      SplitUnique(Decimal(First(j)), if j.Pair? then ':' else '_', if j.Pair? then Decimal(j.hi) else SignedDecimal(j.id),
                  Decimal(First(k)), if k.Pair? then ':' else '_', if k.Pair? then Decimal(k.hi) else SignedDecimal(k.id));
      DecimalInjective(First(j), First(k));
      if j.Pair? {
        DecimalInjective(j.hi, k.hi);
      } else {
        SignedDecimalInjective(j.id, k.id);
      }
    }
  }

  // How the keys look.
  lemma Rendered()
    ensures Render(Number(7)) == "7" && Render(Number(10)) == "10" && Render(Pair(0, 12)) == "0:12"
    ensures Render(Stream(3, -17)) == "3_-17" && Render(Stream(3, 17)) == "3_17"
  {
  }
}
