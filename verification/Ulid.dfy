/** review_agent/util/ids.py `ulid`, with the time stamp and the random value as arguments. For
    non-negative integers `n & 0x1F` is `n % 32` and `n >>= 5` is `n / 32`. */
module Ulid {
  import opened Scan

  const ALPHABET: string := "0123456789ABCDEFGHJKMNPQRSTVWXYZ"

  function Symbol(d: nat): char
    requires d < 32
  {
    ALPHABET[d]
  }

  function Pow32(k: nat): nat {
    if k == 0 then 1 else 32 * Pow32(k - 1)
  }

  /** The k lowest base-32 digits of n, highest first. */
  function Encode(n: nat, k: nat): (s: string)
    ensures |s| == k
  {
    if k == 0 then "" else Encode(n / 32, k - 1) + [Symbol(n % 32)]
  }

  /** Crockford digit to value; characters outside the alphabet do not occur. */
  function Value(c: char): nat {
    if '0' <= c <= '9' then c as int - '0' as int
    else if 'A' <= c <= 'H' then c as int - 'A' as int + 10
    else if 'J' <= c <= 'K' then c as int - 'J' as int + 18
    else if 'M' <= c <= 'N' then c as int - 'M' as int + 20
    else if 'P' <= c <= 'T' then c as int - 'P' as int + 22
    else if 'V' <= c <= 'Z' then c as int - 'V' as int + 27
    else 0
  }

  function Decode(s: string): nat {
    if s == "" then 0 else Decode(s[..|s| - 1]) * 32 + Value(s[|s| - 1])
  }

  function Reversed(s: string): string {
    if s == "" then "" else Reversed(s[1..]) + [s[0]]
  }

  lemma {:induction false} ReversedAppend(s: string, c: char)
    ensures Reversed(s + [c]) == [c] + Reversed(s)
  {
    if s != "" {
      ReversedAppend(s[1..], c);
      assert (s + [c])[1..] == s[1..] + [c];
    }
  }

  /** One of the two shift-and-mask loops. */
  method Digits(value: nat, k: nat) returns (s: string)
    ensures s == Encode(value, k)
  {
    var out: string := [];
    var n := value;
    for i := 0 to k
      invariant Encode(value, k) == Encode(n, k - i) + Reversed(out)
    {
      ReversedAppend(out, Symbol(n % 32));
      out := out + [Symbol(n % 32)];
      n := n / 32;
    }
    s := [];
    var j := |out|;
    assert out[..j] == out;
    while j > 0
      invariant 0 <= j <= |out|
      invariant Reversed(out) == s + Reversed(out[..j])
    {
      j := j - 1;
      assert out[..j + 1] == out[..j] + [out[j]];
      ReversedAppend(out[..j], out[j]);
      s := s + [out[j]];
    }
  }

  function UlidOf(ts: nat, random: nat): (s: string)
    ensures |s| == 26
  {
    Encode(ts, 10) + Encode(random, 16)
  }

  method MakeUlid(ts: nat, random: nat) returns (s: string)
    ensures s == UlidOf(ts, random)
  {
    var a := Digits(ts, 10);
    var b := Digits(random, 16);
    s := a + b;
  }

  // ── round trip ──────────────────────────────────────────

  lemma SymbolValue(d: nat)
    requires d < 32
    ensures Value(Symbol(d)) == d
  {
  }

  lemma SymbolOrder(d: nat, e: nat)
    requires d < 32 && e < 32
    ensures Symbol(d) < Symbol(e) <==> d < e
  {
  }

  lemma {:induction false} EncodeLow(q: nat, r: nat, k: nat)
    ensures Encode(q * Pow32(k) + r, k) == Encode(r, k)
  {
    if k > 0 {
      var x := q * Pow32(k - 1);
      assert q * Pow32(k) == 32 * x;
      assert (32 * x + r) / 32 == x + r / 32 && (32 * x + r) % 32 == r % 32;
      EncodeLow(q, r / 32, k - 1);
    }
  }

  lemma {:induction false} DecodeSmall(n: nat, k: nat)
    requires n < Pow32(k)
    ensures Decode(Encode(n, k)) == n
  {
    if k > 0 {
      DecodeSmall(n / 32, k - 1);
      SymbolValue(n % 32);
      var s := Encode(n, k);
      assert s[..|s| - 1] == Encode(n / 32, k - 1);
    }
  }

  /** Decoding gives back the value, cut to the digits there are. */
  lemma DecodeEncode(n: nat, k: nat)
    ensures Pow32(k) > 0 && Decode(Encode(n, k)) == n % Pow32(k)
  {
    EncodeCut(n, k);
    var _, r := Split(n, Pow32(k));
    DecodeSmall(r, k);
  }

  lemma Split(n: nat, p: nat) returns (q: nat, r: nat)
    requires p > 0
    ensures n == q * p + r && r == n % p && r < p
  {
    q, r := n / p, n % p;
  }

  /** Only the k lowest digits matter. */
  lemma EncodeCut(n: nat, k: nat)
    ensures Pow32(k) > 0 && Encode(n, k) == Encode(n % Pow32(k), k)
  {
    Pow32Positive(k);
    var q, r := Split(n, Pow32(k));
    EncodeLow(q, r, k);
  }

  lemma {:induction false} Pow32Positive(k: nat)
    ensures Pow32(k) > 0
  {
    if k > 0 {
      Pow32Positive(k - 1);
    }
  }

  lemma FieldWidths()
    ensures Pow32(10) == 0x4_0000_0000_0000
    ensures Pow32(16) == 0x1_0000_0000_0000_0000_0000
  {
    assert Pow32(4) == 0x10_0000;
    assert Pow32(8) == 0x100_0000_0000;
    assert Pow32(12) == 0x1000_0000_0000_0000;
  }

  /** Both parts can be read back: the time stamp modulo 2^50 and the random value modulo 2^80. */
  lemma UlidRoundTrip(ts: nat, random: nat)
    ensures Decode(UlidOf(ts, random)[..10]) == ts % 0x4_0000_0000_0000
    ensures Decode(UlidOf(ts, random)[10..]) == random % 0x1_0000_0000_0000_0000_0000
  {
    FieldWidths();
    DecodeEncode(ts, 10);
    DecodeEncode(random, 16);
    assert UlidOf(ts, random)[..10] == Encode(ts, 10) && UlidOf(ts, random)[10..] == Encode(random, 16);
  }

  /** Two calls give the same id exactly when both values agree in the bits that are kept. */
  lemma UlidEqualIff(ts: nat, random: nat, ts': nat, random': nat)
    ensures UlidOf(ts, random) == UlidOf(ts', random') <==>
            ts % 0x4_0000_0000_0000 == ts' % 0x4_0000_0000_0000 &&
            random % 0x1_0000_0000_0000_0000_0000 == random' % 0x1_0000_0000_0000_0000_0000
  {
    UlidRoundTrip(ts, random);
    UlidRoundTrip(ts', random');
    FieldWidths();
    EncodeCut(ts, 10);
    EncodeCut(ts', 10);
    EncodeCut(random, 16);
    EncodeCut(random', 16);
  }

  // ── order ───────────────────────────────────────────────

  lemma {:induction false} ParallelLe(a: string, c: string, b: string, d: string)
    requires |a| == |b|
    ensures StringLe(a + c, b + d) <==> if a == b then StringLe(c, d) else StringLe(a, b)
  {
    if a == "" {
      assert a + c == c && b + d == d;
    } else {
      assert (a + c)[0] == a[0] && (b + d)[0] == b[0];
      assert (a + c)[1..] == a[1..] + c && (b + d)[1..] == b[1..] + d;
      ParallelLe(a[1..], c, b[1..], d);
      assert a == [a[0]] + a[1..] && b == [b[0]] + b[1..];
    }
  }

  lemma DigitOrder(d: nat, e: nat)
    requires d < 32 && e < 32
    ensures StringLe([Symbol(d)], [Symbol(e)]) <==> d <= e
  {
    SymbolOrder(d, e);
    SymbolOrder(e, d);
    assert [Symbol(d)][1..] == "" && [Symbol(e)][1..] == "";
  }

  lemma DivOrder(m: nat, n: nat)
    ensures m <= n <==> if m / 32 == n / 32 then m % 32 <= n % 32 else m / 32 <= n / 32
  {
  }

  lemma EncodeInjective(m: nat, n: nat, k: nat)
    requires m < Pow32(k) && n < Pow32(k)
    ensures Encode(m, k) == Encode(n, k) <==> m == n
  {
    DecodeSmall(m, k);
    DecodeSmall(n, k);
  }

  lemma {:induction false} EncodeOrder(m: nat, n: nat, k: nat)
    requires m < Pow32(k) && n < Pow32(k)
    ensures StringLe(Encode(m, k), Encode(n, k)) <==> m <= n
  {
    if k > 0 {
      EncodeOrder(m / 32, n / 32, k - 1);
      EncodeInjective(m / 32, n / 32, k - 1);
      ParallelLe(Encode(m / 32, k - 1), [Symbol(m % 32)], Encode(n / 32, k - 1), [Symbol(n % 32)]);
      DigitOrder(m % 32, n % 32);
      DivOrder(m, n);
    }
  }

  /** The string order of ids is the order of the pairs (time stamp, random value), of each as much
      as is kept: 50 bits and 80 bits. */
  lemma UlidOrderExact(ts: nat, random: nat, ts': nat, random': nat)
    ensures var a, b := ts % 0x4_0000_0000_0000, ts' % 0x4_0000_0000_0000;
            var x, y := random % 0x1_0000_0000_0000_0000_0000, random' % 0x1_0000_0000_0000_0000_0000;
            StringLe(UlidOf(ts, random), UlidOf(ts', random')) <==> a < b || (a == b && x <= y)
  {
    FieldWidths();
    var a, b := ts % Pow32(10), ts' % Pow32(10);
    var x, y := random % Pow32(16), random' % Pow32(16);
    EncodeCut(ts, 10);
    EncodeCut(ts', 10);
    EncodeCut(random, 16);
    EncodeCut(random', 16);
    EncodeOrder(a, b, 10);
    EncodeOrder(x, y, 16);
    EncodeInjective(a, b, 10);
    ParallelLe(Encode(ts, 10), Encode(random, 16), Encode(ts', 10), Encode(random', 16));
  }

  /** For 50-bit time stamps and 80-bit random values it is the order of the pairs themselves. */
  lemma UlidOrder(ts: nat, random: nat, ts': nat, random': nat)
    requires ts < 0x4_0000_0000_0000 && ts' < 0x4_0000_0000_0000
    requires random < 0x1_0000_0000_0000_0000_0000 && random' < 0x1_0000_0000_0000_0000_0000
    ensures StringLe(UlidOf(ts, random), UlidOf(ts', random')) <==> ts < ts' || (ts == ts' && random <= random')
  {
    hide StringLe, UlidOf;
    Kept(ts, 0x4_0000_0000_0000);
    Kept(ts', 0x4_0000_0000_0000);
    Kept(random, 0x1_0000_0000_0000_0000_0000);
    Kept(random', 0x1_0000_0000_0000_0000_0000);
    UlidOrderExact(ts, random, ts', random');
  }

  lemma Kept(n: nat, m: nat)
    requires n < m
    ensures n % m == n
  {
  }

  /** The bound on the time stamp is needed: at 2^50 the id sorts before the one a moment earlier. */
  lemma OrderBreaksAtWrap(random: nat)
    ensures !StringLe(UlidOf(0x4_0000_0000_0000 - 1, random), UlidOf(0x4_0000_0000_0000, random))
  {
    UlidOrderExact(0x4_0000_0000_0000 - 1, random, 0x4_0000_0000_0000, random);
  }
}
