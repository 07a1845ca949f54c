/**
 The allow-list test of webhook-security.ts (`isIpInCidr`, `ipToNumber`): the
 prefix rule of section 3.1 of RFC 4632 by shifts and masks on 32-bit words.

 A word is an integer in `0 .. 2^32`, and the bitwise operators are written out
 bit by bit. A dotted part arrives as what `parseInt` made of it.
 */
module Cidr {
  import opened Wrappers

  function Pow2(n: nat): (p: nat)
    ensures p >= 1
  {
    if n == 0 then 1 else 2 * Pow2(n - 1)
  }

  /** The number of 32-bit words. */
  const WORDS: nat := 0x1_0000_0000

  lemma WordsIsPow()
    ensures WORDS == Pow2(32)
  {
    PowSum(16, 16);
    PowSum(8, 8);
    assert Pow2(8) == 256;
  }

  /** Bitwise `&` and `|` of the low `w` bits. */
  function And(x: nat, y: nat, w: nat): nat {
    if w == 0 then 0 else (if x % 2 == 1 && y % 2 == 1 then 1 else 0) + 2 * And(x / 2, y / 2, w - 1)
  }

  function Or(x: nat, y: nat, w: nat): nat {
    if w == 0 then 0 else (if x % 2 == 1 || y % 2 == 1 then 1 else 0) + 2 * Or(x / 2, y / 2, w - 1)
  }

  /** `x << n`, keeping 32 bits. */
  function Shl(x: nat, n: nat): nat {
    (x * Pow2(n)) % WORDS
  }

  function Mask(bits: nat): nat
    requires bits <= 32
  {
    if bits == 0 then 0 else Shl(WORDS - 1, 32 - bits)
  }

  predicate Octet(part: Option<int>) {
    part.Some? && 0 <= part.value <= 255
  }

  predicate DottedQuad(parts: seq<Option<int>>) {
    |parts| == 4 && forall i | 0 <= i < 4 :: Octet(parts[i])
  }

  /** The parts read as digits in base 256. */
  function Number(parts: seq<Option<int>>): nat
    requires forall i | 0 <= i < |parts| :: Octet(parts[i])
  {
    if parts == [] then 0
    else
      assert Octet(parts[|parts| - 1]);
      Number(parts[..|parts| - 1]) * 256 + parts[|parts| - 1].value
  }

  method IpToNumber(parts: seq<Option<int>>) returns (r: Option<nat>)
    ensures r.Some? <==> DottedQuad(parts)
    ensures r.Some? ==> r.value == Number(parts)
  {
    hide Or, Shl, Pow2;
    if |parts| != 4 {
      return None;
    }
    var num := 0;
    NoBits();
    for i := 0 to 4
      invariant forall j | 0 <= j < i :: Octet(parts[j])
      invariant num == Number(parts[..i]) < Pow2(8 * i)
    {
      var part := parts[i];
      if part == None || part.value < 0 || part.value > 255 {
        return None;
      }
      ShiftOr(num, part.value, i);
      assert parts[..i + 1][..i] == parts[..i];
      num := Or(Shl(num, 8), part.value, 32);
    }
    assert parts[..4] == parts;
    return Some(num);
  }

  method IsIpInCidr(ip: seq<Option<int>>, range: seq<Option<int>>, bits: Option<int>) returns (inside: bool)
    ensures inside <==> Inside(ip, range, bits)
  {
    if bits == None || bits.value < 0 || bits.value > 32 {
      return false;
    }
    var ipNum := IpToNumber(ip);
    var rangeNum := IpToNumber(range);
    if ipNum == None || rangeNum == None {
      return false;
    }
    NumberBound(ip);
    NumberBound(range);
    hide Pow2, Number, DottedQuad, Mask, And;
    WordsIsPow();
    MaskValue(bits.value);
    MaskCuts(ipNum.value, 32 - bits.value, 32);
    MaskCuts(rangeNum.value, 32 - bits.value, 32);
    SamePrefix(ipNum.value, rangeNum.value, Pow2(32 - bits.value));
    var mask := Mask(bits.value);
    return And(ipNum.value, mask, 32) == And(rangeNum.value, mask, 32);
  }

  /** Both are addresses, and they agree on the first `bits` bits. */
  predicate Inside(ip: seq<Option<int>>, range: seq<Option<int>>, bits: Option<int>) {
    && bits.Some? && 0 <= bits.value <= 32
    && DottedQuad(ip) && DottedQuad(range)
    && Number(ip) / Pow2(32 - bits.value) == Number(range) / Pow2(32 - bits.value)
  }

  // ---- Shifts and masks are multiplications and divisions ----

  lemma NoBits()
    ensures Pow2(0) == 1
  {
  }

  lemma {:induction false} PowSum(a: nat, b: nat)
    ensures Pow2(a + b) == Pow2(a) * Pow2(b)
    ensures Pow2(a) >= 1
  {
    if a > 0 {
      PowSum(a - 1, b);
      assert Pow2(a + b) == 2 * Pow2(a - 1 + b) && Pow2(a) == 2 * Pow2(a - 1);
      hide Pow2;
      Twice(Pow2(b), Pow2(a - 1));
    }
  }

  lemma {:induction false} OrZero(x: nat, w: nat)
    requires x < Pow2(w)
    ensures Or(x, 0, w) == x
  {
    if w > 0 {
      OrZero(x / 2, w - 1);
    }
  }

  /** Disjoint bits: a multiple of `2^k` or-ed with a number below it is their sum. */
  lemma {:induction false} OrAdds(m: nat, n: nat, k: nat, w: nat)
    requires k <= w && n < Pow2(k) && m * Pow2(k) < Pow2(w)
    ensures Or(m * Pow2(k), n, w) == m * Pow2(k) + n
  {
    if k == 0 {
      OrZero(m, w);
    } else {
      var p := m * Pow2(k - 1);
      assert m * Pow2(k) == 2 * p;
      OrAdds(m, n / 2, k - 1, w - 1);
    }
  }

  lemma ShiftOr(num: nat, part: nat, i: nat)
    requires i < 4 && num < Pow2(8 * i) && part <= 255
    ensures Or(Shl(num, 8), part, 32) == num * 256 + part < Pow2(8 * (i + 1))
  {
    var room := 24 - 8 * i;
    PowSum(8 * i, 8);
    PowSum(8 * i + 8, room);
    assert Pow2(8) == 256;
    hide Pow2, Or;
    WordsIsPow();
    Grows(Pow2(8 * i + 8), Pow2(room));
    SmallRemainder(num * 256, WORDS);
    OrAdds(num, part, 8, 32);
  }

  lemma SmallRemainder(n: nat, q: nat)
    requires n < q
    ensures n % q == n
  {
  }

  lemma Grows(a: nat, b: nat)
    requires b >= 1
    ensures a <= a * b
  {
  }

  lemma NumberBound(parts: seq<Option<int>>)
    requires DottedQuad(parts)
    ensures Number(parts) < WORDS
  {
    assert parts[..4] == parts && parts[..4][..3] == parts[..3] && parts[..3][..2] == parts[..2] && parts[..2][..1] == parts[..1];
    assert parts[..1][..0] == [];
    assert Number(parts[..1]) <= 255;
    assert Number(parts[..2]) <= 65535;
    assert Number(parts[..3]) <= 16777215;
  }

  lemma MaskValue(bits: nat)
    requires bits <= 32
    ensures Mask(bits) == WORDS - Pow2(32 - bits)
    ensures bits == 32 || Pow2(32 - bits) <= WORDS
  {
    hide Pow2;
    WordsIsPow();
    if bits > 0 {
      Smaller(bits);
      AllOnes(Pow2(32 - bits), WORDS);
    }
  }

  lemma Smaller(bits: nat)
    requires 0 < bits <= 32
    ensures Pow2(32 - bits) < WORDS
  {
    PowSum(32 - bits, bits);
    assert Pow2(bits) == 2 * Pow2(bits - 1);
    WordsIsPow();
    hide Pow2;
    AtLeastTwice(Pow2(32 - bits), Pow2(bits));
  }

  lemma AtLeastTwice(p: nat, b: nat)
    requires p >= 1 && b >= 2
    ensures p * b > p
  {
  }

  lemma AllOnes(p: nat, q: nat)
    requires 1 <= p <= q
    ensures ((q - 1) * p) % q == q - p
  {
    assert (q - 1) * p == q * p - p;
    assert (p - 1) * q == p * q - q;
    Remainder(p - 1, q, q - p);
  }

  lemma Remainder(a: nat, q: nat, r: nat)
    requires r < q
    ensures (a * q + r) % q == r && (a * q + r) / q == a
  {
    var n := a * q + r;
    assert n == (n / q) * q + n % q;
    NoMore(n / q, a, q);
    NoMore(a, n / q, q);
  }

  lemma NoMore(a: nat, b: nat, q: nat)
    ensures a > b ==> a * q >= b * q + q
  {
    if a > b {
      var d := a - b - 1;
      Distribute(b, 1 + d, q);
      Distribute(1, d, q);
    }
  }

  lemma Distribute(a: nat, b: nat, q: nat)
    ensures (a + b) * q == a * q + b * q
  {
  }

  /** The mask clears the low `k` bits. */
  lemma {:induction false} MaskCuts(x: nat, k: nat, w: nat)
    requires k <= w && x < Pow2(w)
    ensures Pow2(k) <= Pow2(w)
    ensures And(x, Pow2(w) - Pow2(k), w) == (x / Pow2(k)) * Pow2(k)
    decreases w
  {
    hide *;
    PowSum(k, w - k);
    Grows(Pow2(k), Pow2(w - k));
    if w == 0 {
      CutNothing(x);
    } else {
      Doubles(w);
      Doubles(k);
      if k == 0 {
        MaskCuts(x / 2, 0, w - 1);
        CutOdd(x, w);
      } else {
        MaskCuts(x / 2, k - 1, w - 1);
        CutEven(x, k, w);
      }
    }
  }

  lemma CutOdd(x: nat, w: nat)
    requires w > 0 && Pow2(0) <= Pow2(w - 1)
    requires And(x / 2, Pow2(w - 1) - Pow2(0), w - 1) == (x / 2) / Pow2(0) * Pow2(0)
    ensures Pow2(0) <= Pow2(w) && And(x, Pow2(w) - Pow2(0), w) == x / Pow2(0) * Pow2(0)
  {
    hide Pow2, And;
    Doubles(w);
    Doubles(0);
    AndOdd(x, Pow2(w - 1) - 1, w);
    ByOne(x, x / 2);
  }

  lemma CutEven(x: nat, k: nat, w: nat)
    requires 0 < k <= w && Pow2(k - 1) <= Pow2(w - 1)
    requires And(x / 2, Pow2(w - 1) - Pow2(k - 1), w - 1) == (x / 2) / Pow2(k - 1) * Pow2(k - 1)
    ensures Pow2(k) <= Pow2(w) && And(x, Pow2(w) - Pow2(k), w) == x / Pow2(k) * Pow2(k)
  {
    hide Pow2, And;
    Doubles(w);
    Doubles(k);
    AndEven(x, Pow2(w - 1) - Pow2(k - 1), w);
    HalfCut(x, Pow2(k - 1));
  }

  lemma Doubles(n: nat)
    ensures Pow2(n) == if n == 0 then 1 else 2 * Pow2(n - 1)
  {
  }

  lemma CutNothing(x: nat)
    requires x < Pow2(0)
    ensures And(x, Pow2(0) - Pow2(0), 0) == x / Pow2(0) * Pow2(0)
  {
  }

  lemma ByOne(x: nat, half: nat)
    requires half == x / 2
    ensures half / 1 * 1 == half && x / 1 * 1 == x && x % 2 + 2 * half == x
  {
  }

  lemma HalfCut(x: nat, p: nat)
    requires p >= 1
    ensures 2 * ((x / 2) / p * p) == x / (2 * p) * (2 * p)
  {
    DivTwice(x, 2, p);
    Twice(x / (2 * p), p);
  }

  lemma Twice(a: nat, p: nat)
    ensures 2 * (a * p) == a * (2 * p)
  {
  }

  lemma AndEven(x: nat, m: nat, w: nat)
    requires w > 0
    ensures And(x, 2 * m, w) == 2 * And(x / 2, m, w - 1)
  {
  }

  lemma AndOdd(x: nat, m: nat, w: nat)
    requires w > 0
    ensures And(x, 2 * m + 1, w) == x % 2 + 2 * And(x / 2, m, w - 1)
  {
  }

  lemma DivTwice(x: nat, a: nat, b: nat)
    requires a >= 1 && b >= 1
    ensures a * b >= 1
    ensures (x / a) / b == x / (a * b)
  {
    var q, r, t := (x / a) / b, (x / a) % b, x % a;
    assert x == (x / a) * a + t;
    assert x / a == q * b + r;
    Regroup(q, b, r, a);
    NoMore(b, r, a);
    Grows(a, b);
    Remainder(q, a * b, r * a + t);
  }

  lemma Regroup(q: nat, b: nat, r: nat, a: nat)
    ensures (q * b + r) * a == q * (a * b) + r * a
  {
  }

  lemma SamePrefix(a: nat, b: nat, p: nat)
    requires p >= 1
    ensures (a / p) * p == (b / p) * p <==> a / p == b / p
  {
    NoMore(a / p, b / p, p);
    NoMore(b / p, a / p, p);
  }

  // ---- What a range contains ----

  /** A longer prefix of the same range admits no more. */
  lemma LongerPrefixNests(ip: seq<Option<int>>, range: seq<Option<int>>, short: int, long: int)
    requires 0 <= short <= long
    ensures Inside(ip, range, Some(long)) ==> Inside(ip, range, Some(short))
  {
    if Inside(ip, range, Some(long)) {
      PowSum(32 - long, long - short);
      PowSum(long - short, 0);
      DivTwice(Number(ip), Pow2(32 - long), Pow2(long - short));
      DivTwice(Number(range), Pow2(32 - long), Pow2(long - short));
    }
  }

  lemma {:induction false} NumberInjective(a: seq<Option<int>>, b: seq<Option<int>>)
    requires |a| == |b|
    requires forall i | 0 <= i < |a| :: Octet(a[i]) && Octet(b[i])
    ensures Number(a) == Number(b) <==> a == b
  {
    if |a| > 0 {
      var n := |a| - 1;
      NumberInjective(a[..n], b[..n]);
      assert a == a[..n] + [a[n]] && b == b[..n] + [b[n]];
    }
  }

  /** A full-length prefix is address equality; an empty one admits every address. */
  lemma ExtremePrefixes(ip: seq<Option<int>>, range: seq<Option<int>>)
    requires DottedQuad(ip) && DottedQuad(range)
    ensures Inside(ip, range, Some(32)) <==> ip == range
    ensures Inside(ip, range, Some(0))
  {
    NumberInjective(ip, range);
    NumberBound(ip);
    NumberBound(range);
    WordsIsPow();
    NoBits();
    hide Pow2;
    Remainder(0, WORDS, Number(ip));
    Remainder(0, WORDS, Number(range));
  }

  /** Every 32-bit word is the number of one address. */
  function QuadOf(n: nat): seq<Option<int>> {
    var a := n / 256;
    var b := a / 256;
    [Some(b / 256), Some(b % 256), Some(a % 256), Some(n % 256)]
  }

  lemma QuadRoundTrip(n: nat)
    requires n < WORDS
    ensures DottedQuad(QuadOf(n)) && Number(QuadOf(n)) == n
  {
    var q := QuadOf(n);
    assert q[..3][..2] == q[..2] && q[..2][..1] == q[..1] && q[..1][..0] == [];
    assert Number(q[..1]) == n / 256 / 256 / 256;
    assert Number(q[..2]) == n / 256 / 256;
    assert Number(q[..3]) == n / 256;
  }

  function Interval(lo: nat, size: nat): (r: set<nat>)
    ensures forall a :: a in r <==> lo <= a < lo + size
    ensures |r| == size
  {
    if size == 0 then {} else Interval(lo, size - 1) + {lo + size - 1}
  }

  predicate Agree(a: nat, b: nat, bits: nat)
    requires bits <= 32
  {
    a / Pow2(32 - bits) == b / Pow2(32 - bits)
  }

  /** The words agreeing with `range` on its first `bits` bits. */
  function Members(range: nat, bits: nat): set<nat>
    requires bits <= 32
  {
    set a | a in Interval(0, WORDS) && Agree(a, range, bits)
  }

  /** A range of prefix length `bits` holds exactly `2^(32 - bits)` addresses, in a row. */
  lemma MembersCount(range: nat, bits: nat)
    requires range < WORDS && bits <= 32
    ensures Members(range, bits) == Interval(range / Pow2(32 - bits) * Pow2(32 - bits), Pow2(32 - bits))
    ensures |Members(range, bits)| == Pow2(32 - bits)
  {
    hide Pow2, Interval;
    WordsIsPow();
    PowSum(32 - bits, bits);
    var size, q := Pow2(32 - bits), range / Pow2(32 - bits);
    PrefixRoom(range, size, Pow2(bits), q);
    forall a: nat ensures a in Members(range, bits) <==> q * size <= a < q * size + size {
      BlockOf(a, q, size);
    }
    assert Members(range, bits) == Interval(q * size, size);
  }

  lemma BlockOf(a: nat, q: nat, size: nat)
    requires size >= 1
    ensures a / size == q <==> q * size <= a < q * size + size
  {
    if q * size <= a < q * size + size {
      Remainder(q, size, a - q * size);
    }
    assert a == (a / size) * size + a % size;
  }

  /** A whole block of `size` words fits below `size * count`. */
  lemma PrefixRoom(range: nat, size: nat, count: nat, q: nat)
    requires size >= 1 && range < size * count && q == range / size
    ensures q * size + size <= size * count
  {
    assert range == q * size + range % size;
    NoMore(count, q, size);
    if q > count {
      NoMore(q, count, size);
    }
  }

  function Quads(words: set<nat>): set<seq<Option<int>>> {
    set n | n in words :: QuadOf(n)
  }

  lemma QuadsDiffer(m: nat, n: nat)
    requires m < WORDS && n < WORDS && QuadOf(m) == QuadOf(n)
    ensures m == n
  {
    QuadRoundTrip(m);
    QuadRoundTrip(n);
  }

  lemma {:induction false} QuadsCount(words: set<nat>)
    requires forall n | n in words :: n < WORDS
    ensures |Quads(words)| == |words|
    decreases |words|
  {
    hide QuadOf;
    if words == {} {
      assert Quads(words) == {};
    } else {
      var n :| n in words;
      var rest := words - {n};
      QuadsCount(rest);
      forall m | m in rest ensures QuadOf(m) != QuadOf(n) {
        if QuadOf(m) == QuadOf(n) {
          QuadsDiffer(m, n);
        }
      }
      assert Quads(words) == Quads(rest) + {QuadOf(n)};
    }
  }

  lemma QuadOfNumber(ip: seq<Option<int>>)
    requires DottedQuad(ip)
    ensures QuadOf(Number(ip)) == ip
  {
    NumberBound(ip);
    QuadRoundTrip(Number(ip));
    NumberInjective(QuadOf(Number(ip)), ip);
  }

  lemma MemberMeans(range: nat, bits: nat, n: nat)
    requires bits <= 32
    ensures n in Members(range, bits) <==> n < WORDS && Agree(n, range, bits)
  {
  }

  /** The addresses a range of prefix length `bits` admits: exactly `2^(32 - bits)` dotted quads. */
  lemma AdmittedCount(range: seq<Option<int>>, bits: nat)
    requires DottedQuad(range) && bits <= 32
    ensures forall ip :: ip in Quads(Members(Number(range), bits)) <==> Inside(ip, range, Some(bits))
    ensures |Quads(Members(Number(range), bits))| == Pow2(32 - bits)
  {
    hide Members, Number, QuadOf, Quads, Inside, Pow2, Agree, Interval;
    var words := Members(Number(range), bits);
    NumberBound(range);
    MembersCount(Number(range), bits);
    forall n: nat ensures n in words <==> n < WORDS && Agree(n, Number(range), bits) {
      MemberMeans(Number(range), bits, n);
    }
    QuadsCount(words);
    forall ip ensures ip in Quads(words) <==> Inside(ip, range, Some(bits)) {
      AdmittedHere(range, bits, words, ip);
    }
  }

  lemma AdmittedHere(range: seq<Option<int>>, bits: nat, words: set<nat>, ip: seq<Option<int>>)
    requires DottedQuad(range) && bits <= 32
    requires forall n: nat :: n in words <==> n < WORDS && Agree(n, Number(range), bits)
    ensures ip in Quads(words) <==> Inside(ip, range, Some(bits))
  {
    hide Number, QuadOf, Pow2;
    if ip in Quads(words) {
      var n :| n in words && QuadOf(n) == ip;
      QuadRoundTrip(n);
    }
    if Inside(ip, range, Some(bits)) {
      NumberBound(ip);
      QuadOfNumber(ip);
      assert Agree(Number(ip), Number(range), bits);
      assert Number(ip) in words;
    }
  }
}
