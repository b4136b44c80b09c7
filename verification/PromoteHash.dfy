/** The request hash Promote derives for its idempotency entry, and what it tells apart. */
module PromoteHash {

  function Digit(d: nat): char
    requires d < 10
  {
    ['0', '1', '2', '3', '4', '5', '6', '7', '8', '9'][d]
  }

  /** Decimal digits of n, without leading zeros. */
  function Digits(n: nat): (s: string) {
    if n < 10 then [Digit(n)] else Digits(n / 10) + [Digit(n % 10)]
  }

  /** Signed decimal printing. */
  function Decimal(n: int): string {
    if n < 0 then "-" + Digits(-n) else Digits(n)
  }

  function RequestHash(memoryId: string, sourceEventId: string, expectedVersion: int): string {
    "promote:" + (memoryId + (":" + (sourceEventId + (":" + Decimal(expectedVersion)))))
  }

  // ------------------------------------------------------- injective printing

  lemma DigitInjective(d: nat, e: nat)
    requires d < 10 && e < 10 && Digit(d) == Digit(e)
    ensures d == e
  {
  }

  lemma {:induction false} DigitsAreDigits(n: nat)
    ensures |Digits(n)| > 0
    ensures forall i :: 0 <= i < |Digits(n)| ==> '0' <= Digits(n)[i] <= '9'
  {
    if n >= 10 {
      DigitsAreDigits(n / 10);
    }
  }

  lemma {:induction false} DigitsInjective(m: nat, n: nat)
    requires Digits(m) == Digits(n)
    ensures m == n
    decreases m
  {
    DigitsAreDigits(m / 10);
    DigitsAreDigits(n / 10);
    var s := Digits(m);
    assert s[|s| - 1] == Digit(m % 10) == Digit(n % 10);
    DigitInjective(m % 10, n % 10);
    if m >= 10 && n >= 10 {
      assert Digits(m / 10) == s[..|s| - 1] == Digits(n / 10);
      DigitsInjective(m / 10, n / 10);
    }
  }

  lemma DecimalSign(n: int)
    ensures |Decimal(n)| > 0 && (Decimal(n)[0] == '-' <==> n < 0)
    ensures n < 0 ==> Decimal(n)[1..] == Digits(-n)
  {
    DigitsAreDigits(if n < 0 then -n else n);
  }

  lemma DecimalInjective(m: int, n: int)
    requires Decimal(m) == Decimal(n)
    ensures m == n
  {
    DecimalSign(m);
    DecimalSign(n);
    if m < 0 {
      DigitsInjective(-m, -n);
    } else {
      DigitsInjective(m, n);
    }
  }

  lemma DecimalHasNoColon(n: int)
    ensures ':' !in Decimal(n)
  {
    DigitsAreDigits(if n < 0 then -n else n);
  }

  // -------------------------------------------------------- splitting at colons

  /** The part before the first separator is determined when it holds no colon itself. */
  lemma {:induction false} FirstColonSplits(a: string, x: string, b: string, y: string)
    requires ':' !in a && ':' !in b && a + (":" + x) == b + (":" + y)
    ensures a == b && x == y
  {
    var s := a + (":" + x);
    assert s[|a|] == ':' && s[|b|] == ':';
    assert forall i :: 0 <= i < |a| ==> s[i] == a[i];
    assert forall i :: 0 <= i < |b| ==> s[i] == b[i];
    assert |a| == |b|;
    assert a == s[..|a|] && b == s[..|b|];
    assert x == s[|a| + 1..] && y == s[|b| + 1..];
  }

  /** The part after the last separator is determined when it holds no colon itself. */
  lemma LastColonSplits(x: string, a: string, y: string, b: string)
    requires ':' !in a && ':' !in b && x + (":" + a) == y + (":" + b)
    ensures x == y && a == b
  {
    var s := x + (":" + a);
    assert s[|x|] == ':' && s[|y|] == ':';
    assert forall i :: |x| < i < |s| ==> s[i] == a[i - |x| - 1] != ':';
    assert forall i :: |y| < i < |s| ==> s[i] == b[i - |y| - 1] != ':';
    assert |x| == |y|;
    assert x == s[..|x|] && y == s[..|y|];
    assert a == s[|x| + 1..] && b == s[|y| + 1..];
  }

  // --------------------------------------------------------------- separation

  /**
   * Requests for memory ids without a colon are told apart by their hashes, whatever their
   * source event ids look like.
   */
  lemma HashSeparates(m: string, e: string, v: int, m': string, e': string, v': int)
    requires ':' !in m && ':' !in m'
    requires RequestHash(m, e, v) == RequestHash(m', e', v')
    ensures m == m' && e == e' && v == v'
  {
    var tail, tail' := e + (":" + Decimal(v)), e' + (":" + Decimal(v'));
    assert RequestHash(m, e, v)[8..] == m + (":" + tail);
    assert RequestHash(m', e', v')[8..] == m' + (":" + tail');
    FirstColonSplits(m, tail, m', tail');
    DecimalHasNoColon(v);
    DecimalHasNoColon(v');
    LastColonSplits(e, Decimal(v), e', Decimal(v'));
    DecimalInjective(v, v');
  }

  lemma Regroup(x: string, y: string, z: string)
    ensures (x + (":" + y)) + (":" + z) == x + (":" + (y + (":" + z)))
  {
  }

  /** Moving the text around a colon from one id to the other keeps the hash. */
  lemma ColonMoves(x: string, y: string, e: string, v: int)
    ensures RequestHash(x + (":" + y), e, v) == RequestHash(x, y + (":" + e), v)
  {
    Regroup(x, y, e + (":" + Decimal(v)));
    Regroup(y, e, Decimal(v));
  }

  /** No other request at all has this request's hash. */
  ghost predicate Unambiguous(m: string, e: string, v: int) {
    forall m': string, e': string, v': int :: RequestHash(m', e', v') == RequestHash(m, e, v) ==>
      m' == m && e' == e && v' == v
  }

  /** A hash identifies its request among all requests exactly when neither id holds a colon. */
  lemma UnambiguousExactlyWithoutColons(m: string, e: string, v: int)
    ensures Unambiguous(m, e, v) <==> ':' !in m && ':' !in e
  {
    if i :| 0 <= i < |m| && m[i] == ':' {
      var x, y := m[..i], m[i + 1..];
      assert m == x + (":" + y);
      ColonMoves(x, y, e, v);
      assert x != m;
    } else if i :| 0 <= i < |e| && e[i] == ':' {
      var x, y := e[..i], e[i + 1..];
      assert e == x + (":" + y);
      ColonMoves(m, x, y, v);
      assert m + (":" + x) != m;
    } else {
      forall m': string, e': string, v': int | RequestHash(m', e', v') == RequestHash(m, e, v)
        ensures m' == m && e' == e && v' == v
      {
        SameHashNoColons(m, e, v, m', e', v');
      }
    }
  }

  /** A string with one colon is split there only. */
  lemma OnlyColonSplits(a: string, b: string, x: string, y: string)
    requires ':' !in a && ':' !in b && a + (":" + b) == x + (":" + y)
    ensures a == x && b == y
  {
    var s := a + (":" + b);
    assert forall i :: 0 <= i < |a| ==> s[i] == a[i] != ':';
    assert forall i :: |a| < i < |s| ==> s[i] == b[i - |a| - 1] != ':';
    assert s[|x|] == ':';
    assert a == s[..|a|] && x == s[..|x|];
    assert b == s[|a| + 1..] && y == s[|x| + 1..];
  }

  lemma SameHashNoColons(m: string, e: string, v: int, m': string, e': string, v': int)
    requires ':' !in m && ':' !in e && RequestHash(m', e', v') == RequestHash(m, e, v)
    ensures m' == m && e' == e && v' == v
  {
    var rest, rest' := m + (":" + e), m' + (":" + e');
    Regroup(m, e, Decimal(v));
    Regroup(m', e', Decimal(v'));
    assert RequestHash(m, e, v)[8..] == rest + (":" + Decimal(v));
    assert RequestHash(m', e', v')[8..] == rest' + (":" + Decimal(v'));
    DecimalHasNoColon(v);
    DecimalHasNoColon(v');
    LastColonSplits(rest, Decimal(v), rest', Decimal(v'));
    DecimalInjective(v, v');
    OnlyColonSplits(m, e, m', e');
  }
}
