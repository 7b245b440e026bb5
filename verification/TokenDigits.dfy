/** The four digits shown for an authentication token (share_session.cc, lines 55-70). */
module TokenDigits {
  import opened Wrappers

  const HASH_MODULO := 9973
  const HASH_BASE_MULTIPLIER := 31

  newtype byte = x: int | 0 <= x < 256

  // A C int: an operation whose result leaves this range does not verify.
  newtype int32 = x: int | -0x8000_0000 <= x < 0x8000_0000

  // The remainder of C division by HASH_MODULO, which takes the sign of the dividend.
  function Rem(a: int): (r: int)
    ensures -HASH_MODULO < r < HASH_MODULO && Congruent(a, r)
    ensures (a >= 0 ==> r >= 0) && (a <= 0 ==> r <= 0)
  {
    if a >= 0 then a % HASH_MODULO else -(-a % HASH_MODULO)
  }

  function Rem32(a: int32): (r: int32)
    ensures r as int == Rem(a as int)
  {
    Rem(a as int) as int32
  }

  predicate Congruent(x: int, y: int) {
    (x - y) % HASH_MODULO == 0
  }

  // The byte as two's complement.
  function Signed(b: byte): int {
    if b < 128 then b as int else b as int - 256
  }

  function Power(i: nat): nat {
    if i == 0 then 1 else Power(i - 1) * HASH_BASE_MULTIPLIER
  }

  // The sum of the signed bytes, each weighted by the power of its position.
  function Polynomial(bytes: seq<byte>): int {
    if bytes == [] then 0
    else Polynomial(Init(bytes)) + Signed(Last(bytes)) * Power(|bytes| - 1)
  }

  // Replacing a factor by its remainder keeps the product's class.
  lemma ScaleRemainder(s: int, p: nat)
    ensures Congruent(s * p, s * (p % HASH_MODULO))
  {
    var q := p / HASH_MODULO;
    assert p == HASH_MODULO * q + p % HASH_MODULO;
    assert s * p - s * (p % HASH_MODULO) == (s * q) * HASH_MODULO by {
      assert s * (HASH_MODULO * q) == (s * q) * HASH_MODULO;
      assert s * p == s * (HASH_MODULO * q) + s * (p % HASH_MODULO);
    }
  }

  lemma Monotone(a: int, b: int, m: nat)
    requires a <= b
    ensures a * m <= b * m
  {
    assert (b - a) * m >= 0;
  }

  lemma PowerRemainder(p: nat)
    ensures (p * HASH_BASE_MULTIPLIER) % HASH_MODULO == ((p % HASH_MODULO) * HASH_BASE_MULTIPLIER) % HASH_MODULO
  {
    var q, r := p / HASH_MODULO, p % HASH_MODULO;
    assert p * HASH_BASE_MULTIPLIER == (q * HASH_BASE_MULTIPLIER) * HASH_MODULO + r * HASH_BASE_MULTIPLIER;
    AddMultiple(q * HASH_BASE_MULTIPLIER, r * HASH_BASE_MULTIPLIER);
  }

  lemma AddMultiple(k: int, x: int)
    ensures (k * HASH_MODULO + x) % HASH_MODULO == x % HASH_MODULO
  {
  }

  lemma CongruentSum(a: int, b: int, c: int, d: int)
    requires Congruent(a, b) && Congruent(c, d)
    ensures Congruent(a + c, b + d)
  {
    AddMultiple((a - b) / HASH_MODULO, c - d);
  }

  lemma SameClass(x: int, y: int, z: int)
    requires Congruent(y, x) && Congruent(y, z)
    ensures Congruent(x, z)
  {
  }

  // One step of the loop: the sum neither overflows nor leaves the polynomial's class.
  lemma HashStep(hash: int, signed: int, power: nat, polynomial: int)
    requires -HASH_MODULO < hash < HASH_MODULO && -128 <= signed <= 127
    requires Congruent(hash, polynomial)
    ensures var term := signed * (power % HASH_MODULO);
            && -128 * HASH_MODULO <= term <= 127 * HASH_MODULO
            && Congruent(hash + term, polynomial + signed * power)
  {
    var m := power % HASH_MODULO;
    Monotone(-128, signed, m);
    Monotone(signed, 127, m);
    ScaleRemainder(signed, power);
    assert Congruent(signed * m, signed * power) by {
      AddMultiple(-((signed * power - signed * m) / HASH_MODULO), 0);
    }
    CongruentSum(hash, polynomial, signed * m, signed * power);
  }

  // The hash after all bytes: each remainder keeps the sign of its sum, so the result is not
  // the polynomial's own remainder, only congruent to it.
  function HashOf(bytes: seq<byte>): (hash: int)
    ensures -HASH_MODULO < hash < HASH_MODULO && Congruent(hash, Polynomial(bytes))
  {
    if bytes == [] then 0
    else
      var before, power := HashOf(Init(bytes)), Power(|bytes| - 1);
      HashStep(before, Signed(Last(bytes)), power, Polynomial(Init(bytes)));
      var sum := before + Signed(Last(bytes)) * (power % HASH_MODULO);
      SameClass(Rem(sum), sum, Polynomial(bytes));
      Rem(sum)
  }

  // The hash of one byte more is the only number below the modulus, in absolute value, that is
  // congruent to the new sum and has its sign.
  lemma HashDetermined(bytes: seq<byte>, hash: int)
    requires bytes != [] && -9973 < hash < 9973
    requires var sum := HashOf(Init(bytes)) + Signed(Last(bytes)) * (Power(|bytes| - 1) % 9973);
             (hash - sum) % 9973 == 0 && (sum >= 0 ==> hash >= 0) && (sum <= 0 ==> hash <= 0)
    ensures hash == HashOf(bytes)
  {
    var sum := HashOf(Init(bytes)) + Signed(Last(bytes)) * (Power(|bytes| - 1) % 9973);
    OnlyRemainder(sum, hash, Rem(sum));
  }

  lemma OnlyRemainder(sum: int, a: int, b: int)
    requires -9973 < a < 9973 && -9973 < b < 9973 && (a - sum) % 9973 == (sum - b) % 9973 == 0
    requires (sum >= 0 ==> a >= 0 && b >= 0) && (sum <= 0 ==> a <= 0 && b <= 0)
    ensures a == b
  {
    assert (a - b) % 9973 == 0;
  }

  // The first byte counts once, and every other 31 times as much as the one before it.
  lemma PowerIs(i: nat)
    ensures Power(0) == 1 && Power(i + 1) == 31 * Power(i)
  {
  }

  // The loop computes it in 32-bit arithmetic without overflow.
  method Hash(bytes: seq<byte>) returns (hash: int32)
    ensures hash as int == HashOf(bytes)
  {
    hash := 0;
    var multiplier: int32 := 1;
    var i := 0;
    while i < |bytes|
      invariant 0 <= i <= |bytes|
      invariant hash as int == HashOf(bytes[..i])
      invariant multiplier as int == Power(i) % HASH_MODULO
    {
      var signed := Signed(bytes[i]) as int32;
      HashStep(hash as int, signed as int, Power(i), Polynomial(bytes[..i]));
      assert Init(bytes[..i + 1]) == bytes[..i];
      hash := Rem32(hash + signed * multiplier);
      PowerRemainder(Power(i));
      multiplier := Rem32(multiplier * 31);
      i := i + 1;
    }
    assert bytes[..i] == bytes;
  }

  // Decimal digits ------------------------------------------------------------------

  function Digit(d: int): char
    requires 0 <= d <= 9
  {
    '0' + d as char
  }

  function Decimal(n: nat): (s: string)
    ensures s != []
  {
    if n < 10 then [Digit(n)] else Decimal(n / 10) + [Digit(n % 10)]
  }

  // "%04d" of a number that is not negative.
  function Format04(n: nat): string {
    Zeros(4 - |Decimal(n)|) + Decimal(n)
  }

  function Zeros(k: int): string {
    if k <= 0 then "" else "0" + Zeros(k - 1)
  }

  // The number that a string of digits denotes, or -1.
  function Value(s: string): int {
    if s == [] then 0
    else
      var front := Value(Init(s));
      if front < 0 || !('0' <= Last(s) <= '9') then -1 else 10 * front + (Last(s) as int - '0' as int)
  }

  lemma {:induction false} ZerosAddNothing(k: nat, s: string)
    ensures |Zeros(k)| == k && Value(Zeros(k) + s) == Value(s)
    decreases k, |s|
  {
    if s != [] {
      ZerosAddNothing(k, Init(s));
      assert Init(Zeros(k) + s) == Zeros(k) + Init(s);
    } else if k > 0 {
      ZerosAddNothing(k - 1, []);
      ZerosAreZero(k);
      assert Zeros(k) + [] == Zeros(k);
    }
  }

  lemma {:induction false} ZerosAreZero(k: nat)
    ensures |Zeros(k)| == k && (forall i :: 0 <= i < k ==> Zeros(k)[i] == '0') && Value(Zeros(k)) == 0
  {
    if k > 0 {
      ZerosAreZero(k - 1);
      assert Zeros(k) == "0" + Zeros(k - 1);
      AllZero(Zeros(k));
    }
  }

  lemma {:induction false} AllZero(s: string)
    requires forall i :: 0 <= i < |s| ==> s[i] == '0'
    ensures Value(s) == 0
  {
    if s != [] {
      AllZero(Init(s));
    }
  }

  lemma {:induction false} DecimalValue(n: nat)
    ensures Value(Decimal(n)) == n
  {
    if n < 10 {
      assert Init([Digit(n)]) == [];
    } else {
      DecimalValue(n / 10);
      assert Init(Decimal(n)) == Decimal(n / 10);
    }
  }

  // Every number below 10000 is printed as exactly four digits that denote it.
  lemma FourDigits(n: nat)
    requires n < 10000
    ensures |Format04(n)| == 4 && Value(Format04(n)) == n
  {
    assert |Decimal(n)| <= 4 by {
      assert n / 10 < 1000 && n / 10 / 10 < 100 && n / 10 / 10 / 10 < 10;
      assert |Decimal(n / 10 / 10 / 10)| == 1;
      assert |Decimal(n / 10 / 10)| <= 2;
      assert |Decimal(n / 10)| <= 3;
    }
    ZerosAddNothing(4 - |Decimal(n)|, Decimal(n));
    DecimalValue(n);
  }

  // The token shown is four digits that denote the size of the hash.
  method TokenToFourDigitString(bytes: seq<byte>) returns (s: string)
    ensures |s| == 4 && Value(s) == (if HashOf(bytes) < 0 then -HashOf(bytes) else HashOf(bytes))
  {
    var hash := Hash(bytes);
    var shown := if hash < 0 then -hash else hash;
    FourDigits(shown as nat);
    s := Format04(shown as nat);
  }
}
