/**
 * Base-128 varints, as written by encodeVarintGenesis and read by the loops
 * of the generated Unmarshal functions.
 */
module Varint {
  import opened Common

  datatype WireError =
    | IntOverflow
    | UnexpectedEOF
    | InvalidLength
    | EndGroupOutsideGroup
    | IllegalTag
    | WrongWireType
    | IllegalWireType
    | UnexpectedEndOfGroup
    | BadCoin

  /** A value and the index just behind it. */
  datatype Read = Read(value: nat, next: nat)

  // ----- encoding -------------------------------------------------------

  /** The canonical varint of `v`: seven bits per byte, low group first. */
  function Encode(v: nat): (s: Bytes)
    ensures |s| >= 1
  {
    if v < 128 then [v] else [128 + v % 128] + Encode(v / 128)
  }

  /** math/bits.Len64 */
  function BitLen(x: nat): nat {
    if x == 0 then 0 else 1 + BitLen(x / 2)
  }

  /** sovGenesis: `(Len64(x|1) + 6) / 7` */
  function Sov(x: nat): nat {
    (BitLen(if x % 2 == 0 then x + 1 else x) + 6) / 7
  }

  lemma BitLenBy7(x: nat)
    requires x >= 128
    ensures BitLen(x) == 7 + BitLen(x / 128)
  {
    BitLenBy3(x);
    BitLenBy3(x / 8);
    hide BitLen;
    assert x / 8 / 8 == x / 64 && x / 64 / 2 == x / 128;
    BitLenBy1(x / 64);
  }

  lemma BitLenBy1(x: nat)
    requires x >= 1
    ensures BitLen(x) == 1 + BitLen(x / 2)
  {
  }

  lemma BitLenBy3(x: nat)
    requires x >= 8
    ensures BitLen(x) == 3 + BitLen(x / 8)
  {
    assert x / 2 / 2 / 2 == x / 8;
    assert BitLen(x / 2) == 1 + BitLen(x / 2 / 2);
    assert BitLen(x / 2 / 2) == 1 + BitLen(x / 2 / 2 / 2);
  }

  lemma BitLenOfOr1(x: nat)
    requires x >= 1 && x % 2 == 0
    ensures BitLen(x + 1) == BitLen(x)
  {
    assert (x + 1) / 2 == x / 2;
  }

  lemma BitLenSmall(x: nat)
    requires 1 <= x < 128
    ensures 1 <= BitLen(x) <= 7
  {
    assert BitLen(x / 64) <= 1;
    assert BitLen(x / 32) <= 2;
    assert BitLen(x / 16) <= 3;
    assert BitLen(x / 8) <= 4;
    assert BitLen(x / 4) <= 5;
    assert BitLen(x / 2) <= 6;
  }

  /** The size computed by arithmetic on bit lengths is the size of what the encoder emits. */
  lemma {:induction false} SovIsLength(v: nat)
    ensures Sov(v) == |Encode(v)|
    decreases v
  {
    var odd := if v % 2 == 0 then v + 1 else v;
    if v < 128 {
      BitLenSmall(odd);
    } else {
      SovIsLength(v / 128);
      var w := v / 128;
      if v % 2 == 0 { BitLenOfOr1(v); }
      BitLenBy7(v);
      if w % 2 == 0 { BitLenOfOr1(w); }
    }
  }

  lemma {:induction false} EncodeShort(v: nat, n: nat)
    requires n >= 1 && v < Pow2(7 * n)
    ensures |Encode(v)| <= n
    decreases n
  {
    if v >= 128 {
      Pow2Of7();
      if n > 1 {
        Pow2Adds(7 * (n - 1), 7);
        EncodeShort(v / 128, n - 1);
      }
    }
  }

  lemma Pow2Of70()
    ensures Pow2(70) == 64 * TWO64
  {
    Pow2Of7();
    Pow2Of63();
    Pow2Adds(63, 7);
  }

  /** Every uint64 takes at most ten bytes. */
  lemma EncodeAtMostTen(v: nat)
    requires v < TWO64
    ensures |Encode(v)| <= 10
  {
    Pow2Of70();
    EncodeShort(v, 10);
  }

  // ----- decoding -------------------------------------------------------

  /**
   * The number whose groups start at index `i`, when `k` groups were already read.
   * Groups are not truncated here: ten of them carry 70 bits.
   */
  function ReadGroups(data: Bytes, i: nat, k: nat): (r: Result<Read, WireError>)
    requires k <= 10
    ensures r.Ok? ==> i < r.value.next <= |data|
    decreases 10 - k
  {
    if k == 10 then Err(IntOverflow)
    else if i >= |data| then Err(UnexpectedEOF)
    else if data[i] < 128 then Ok(Read(data[i], i + 1))
    else
      match ReadGroups(data, i + 1, k + 1)
      case Err(e) => Err(e)
      case Ok(Read(v, next)) => Ok(Read(data[i] - 128 + 128 * v, next))
  }

  /** The uint64 varint at index `i`: bits from 64 up are lost. */
  function ReadVarint(data: Bytes, i: nat): (r: Result<Read, WireError>)
    ensures r.Ok? ==> i < r.value.next <= |data| && r.value.value < TWO64
  {
    match ReadGroups(data, i, 0)
    case Err(e) => Err(e)
    case Ok(Read(v, next)) => Ok(Read(v % TWO64, next))
  }

  /** How many bytes from index `i` on have their top bit set. */
  function Continued(data: Bytes, i: nat): nat
    decreases |data| - i
  {
    if i < |data| && data[i] >= 128 then 1 + Continued(data, i + 1) else 0
  }

  /** The low seven bits of each byte, weighed with their place. */
  function Weighed(s: Bytes): nat
    decreases |s|
  {
    if s == [] then 0 else Weighed(s[..|s| - 1]) + s[|s| - 1] % 128 * Pow2(7 * (|s| - 1))
  }

  lemma {:induction false} WeighedFirst(b: Byte, s: Bytes)
    ensures Weighed([b] + s) == b % 128 + 128 * Weighed(s)
    decreases |s|
  {
    var t, n := [b] + s, |s|;
    assert Pow2(0) == 1;
    if s == [] {
      assert t[..0] == [];
    } else {
      assert t[..|t| - 1] == [b] + s[..n - 1] && t[|t| - 1] == s[n - 1];
      WeighedFirst(b, s[..n - 1]);
      WeightOfNext(n, s[n - 1] % 128);
      hide Pow2;
    }
  }

  lemma WeightOfNext(n: nat, g: nat)
    requires n > 0
    ensures g * Pow2(7 * n) == 128 * (g * Pow2(7 * (n - 1)))
  {
    Pow2Adds(7 * (n - 1), 7);
    Pow2Of7();
    TimesOut(g, Pow2(7 * (n - 1)));
    hide Pow2;
  }

  lemma TimesOut(g: int, p: int)
    ensures g * (p * 128) == 128 * (g * p)
  {
  }

  /** `r` is what the bytes from `i` on say, `k` groups having been read already. */
  predicate SaysSo(data: Bytes, i: nat, k: nat, r: Result<Read, WireError>) {
    var n := Continued(data, i);
    if k + n >= 10 then r == Err(IntOverflow)
    else if i + n >= |data| then r == Err(UnexpectedEOF)
    else r == Ok(Read(Weighed(data[i..i + n + 1]), i + n + 1))
  }

  lemma {:induction false} GroupsExactly(data: Bytes, i: nat, k: nat)
    requires k <= 10
    ensures SaysSo(data, i, k, ReadGroups(data, i, k))
    decreases 10 - k
  {
    hide Weighed;
    if k < 10 && i < |data| {
      if data[i] < 128 {
        WeighedFirst(data[i], []);
        WeighedNothing();
        assert data[i..i + 1] == [data[i]] + [];
      } else {
        GroupsExactly(data, i + 1, k + 1);
        var n := Continued(data, i + 1);
        if i + n + 1 < |data| {
          WeighedFirst(data[i], data[i + 1..i + n + 2]);
          assert data[i..i + n + 2] == [data[i]] + data[i + 1..i + n + 2];
        }
      }
    }
  }

  lemma WeighedNothing()
    ensures Weighed([]) == 0
  {
  }

  /**
   * What any bytes mean to the reader, minimal or not: the number of continued bytes decides
   * between overflow, end of input and success, and the value is the sum of the groups, each
   * weighed with its place, modulo 2^64.
   */
  lemma ReadVarintExactly(data: Bytes, i: nat)
    ensures var r, n := ReadVarint(data, i), Continued(data, i);
            && (r == Err(IntOverflow) <==> n >= 10)
            && (r == Err(UnexpectedEOF) <==> n < 10 && i + n >= |data|)
            && (r.Ok? <==> n < 10 && i + n < |data|)
            && (r.Ok? ==> r == Ok(Read(Weighed(data[i..i + n + 1]) % TWO64, i + n + 1)))
  {
    GroupsExactly(data, i, 0);
    hide ReadGroups, Weighed, Continued;
  }

  lemma {:induction false} GroupsOfEncoded(data: Bytes, i: nat, k: nat, v: nat)
    requires Has(data, i, Encode(v))
    requires k + |Encode(v)| <= 10
    ensures ReadGroups(data, i, k) == Ok(Read(v, i + |Encode(v)|))
    decreases v
  {
    assert data[i] == data[i..i + |Encode(v)|][0];
    if v >= 128 {
      HasSplit(data, i, [128 + v % 128], Encode(v / 128));
      GroupsOfEncoded(data, i + 1, k + 1, v / 128);
    }
  }

  /** Reading back what Encode wrote gives the value and stops right behind it. */
  lemma VarintRoundTrip(data: Bytes, i: nat, v: nat)
    requires v < TWO64
    requires Has(data, i, Encode(v))
    ensures ReadVarint(data, i) == Ok(Read(v, i + |Encode(v)|))
  {
    EncodeAtMostTen(v);
    GroupsOfEncoded(data, i, 0, v);
  }

  /** Bytes behind a complete varint do not matter. */
  lemma {:induction false} GroupsLocal(pre: Bytes, post: Bytes, i: nat, k: nat)
    requires k <= 10
    requires ReadGroups(pre, i, k).Ok?
    ensures ReadGroups(pre + post, i, k) == ReadGroups(pre, i, k)
    decreases 10 - k
  {
    if pre[i] >= 128 {
      GroupsLocal(pre, post, i + 1, k + 1);
    }
  }

  /** Bytes before the reading position do not matter. */
  lemma {:induction false} GroupsShift(pre: Bytes, post: Bytes, j: nat, k: nat)
    requires k <= 10
    ensures ReadGroups(pre + post, |pre| + j, k) ==
            match ReadGroups(post, j, k)
            case Err(e) => Err(e)
            case Ok(Read(v, n)) => Ok(Read(v, |pre| + n))
    decreases 10 - k
  {
    if k < 10 && j < |post| {
      assert (pre + post)[|pre| + j] == post[j];
      if post[j] >= 128 {
        GroupsShift(pre, post, j + 1, k + 1);
      }
    }
  }

  // ----- the loops --------------------------------------------------------

  /** Bitwise OR, bit by bit. */
  function Or(x: nat, y: nat): nat
    decreases x + y
  {
    if x + y == 0 then 0 else (if x % 2 + y % 2 > 0 then 1 else 0) + 2 * Or(x / 2, y / 2)
  }

  lemma HalfMultiple(y: nat, p: nat)
    requires p > 0 && y % (2 * p) == 0
    ensures y % 2 == 0 && y / 2 % p == 0
  {
    var q := y / (2 * p);
    assert y == 2 * (p * q);
    assert y / 2 == p * q + 0;
    MultipleOf(p, q);
  }

  lemma MultipleOf(p: nat, q: nat)
    requires p > 0
    ensures p * q % p == 0
  {
    Quotient(p * q, p, q, 0);
  }

  lemma MultiplesAreApart(p: nat, d: int)
    ensures d >= 1 ==> p * d >= p
    ensures d <= -1 ==> p * d + p <= 0
  {
    assert p * d == p * (d - 1) + p == p * (d + 1) - p;
    if d >= 1 { assert p * (d - 1) >= 0; }
    if d <= -1 { assert p * (-d - 1) >= 0; }
  }

  /** A quotient and remainder are known by their equation. */
  lemma Quotient(n: nat, p: nat, q: nat, r: nat)
    requires n == p * q + r && r < p
    ensures n / p == q && n % p == r
  {
    var q1 := n / p;
    var r1 := n - p * q1;
    assert 0 <= r1 < p && r1 == n % p;
    assert p * (q - q1) == p * q - p * q1;
    MultiplesAreApart(p, q - q1);
  }

  /** OR of a number below a power of two and a multiple of that power is their sum. */
  lemma {:induction false} OrIsSum(x: nat, y: nat, s: nat)
    requires x < Pow2(s) && y % Pow2(s) == 0
    ensures Or(x, y) == x + y
    decreases x + y
  {
    if x + y > 0 {
      if s > 0 {
        HalfMultiple(y, Pow2(s - 1));
        OrIsSum(x / 2, y / 2, s - 1);
      } else {
        assert y / 2 % 1 == 0;
        OrIsSum(x / 2, y / 2, 0);
      }
    }
  }

  /** `(b & 0x7F) << shift` before truncation to 64 bits */
  function Shifted(b: Byte, shift: nat): nat {
    (b % 128) * Pow2(shift)
  }

  /** What the groups up to `k` contribute, put in front of the rest. */
  ghost function Join(acc: nat, k: nat, rest: Result<Read, WireError>): Result<Read, WireError> {
    match rest
    case Err(e) => Err(e)
    case Ok(Read(v, next)) => Ok(Read(acc + Pow2(7 * k) * v, next))
  }

  lemma JoinStep(data: Bytes, i: nat, k: nat, acc: nat)
    requires k < 10 && i < |data| && data[i] >= 128
    ensures Join(acc, k, ReadGroups(data, i, k)) ==
            Join(acc + Shifted(data[i], 7 * k), k + 1, ReadGroups(data, i + 1, k + 1))
  {
    hide Pow2;
    match ReadGroups(data, i + 1, k + 1)
    case Err(_) =>
    case Ok(Read(v, next)) =>
      var p := Pow2(7 * k);
      assert Pow2(7 * (k + 1)) == p * 128 by { Pow2Adds(7 * k, 7); Pow2Of7(); }
      var b := data[i] - 128;
      Regroup(p, b, v);
  }

  lemma Regroup(p: int, b: int, v: int)
    ensures p * (b + 128 * v) == b * p + (p * 128) * v
  {
    assert p * (b + 128 * v) == p * b + p * (128 * v);
  }

  lemma JoinLast(data: Bytes, i: nat, k: nat, acc: nat)
    requires k < 10 && i < |data| && data[i] < 128
    ensures Join(acc, k, ReadGroups(data, i, k)) == Ok(Read(acc + Shifted(data[i], 7 * k), i + 1))
  {
  }

  /** Cutting `acc + p * g` off at `p * q` cuts `g` off at `q`. */
  lemma CutOff(acc: nat, g: nat, p: nat, q: nat)
    requires acc < p && q > 0
    ensures acc + p * (g % q) < p * q
    ensures acc % (p * q) == acc && p * g % (p * q) == p * (g % q) && (acc + p * g) % (p * q) == acc + p * (g % q)
  {
    var low, high := g % q, g / q;
    var word := p * q;
    Room(p, low, q);
    assert p * g == word * high + p * low by {
      assert g == q * high + low;
      assert p * (q * high + low) == p * (q * high) + p * low;
      assert p * (q * high) == word * high;
    }
    assert acc == word * 0 + acc;
    Quotient(acc, word, 0, acc);
    Quotient(p * g, word, high, p * low);
    Quotient(acc + p * g, word, high, acc + p * low);
  }

  lemma Room(p: nat, low: nat, q: nat)
    requires low < q
    ensures p * low + p <= p * q
  {
    var k: nat := q - 1 - low;
    assert p * (low + 1 + k) == p * low + p + p * k;
    assert p * k >= 0;
  }

  /** On words of `p * q` values, `p` a power of two, a group above `acc` is added by OR. */
  lemma OrOnWords(acc: nat, g: nat, shift: nat, q: nat)
    requires acc < Pow2(shift) && q > 0
    ensures var p := Pow2(shift); Or(acc % (p * q), p * g % (p * q)) == (acc + p * g) % (p * q)
  {
    hide Pow2, Or;
    CutOff(acc, g, Pow2(shift), q);
    MultipleOf(Pow2(shift), g % q);
    OrIsSum(acc, Pow2(shift) * (g % q), shift);
  }

  lemma Pow2Splits64(shift: nat)
    requires shift < 64
    ensures Pow2(shift) * Pow2(64 - shift) == TWO64
    ensures Pow2(shift + 7) == Pow2(shift) * 128
  {
    Pow2Of63();
    Pow2Adds(63, 1);
    Pow2Of7();
    Pow2Adds(shift, 7);
    Pow2Adds(shift, 64 - shift);
  }

  /**
   * The generated loops accumulate with `x |= (b & 0x7F) << shift` on 64-bit words. The groups
   * read so far lie below the new one, so nothing overlaps, also where the last one is cut off.
   */
  lemma OrAddsGroup(acc: nat, b: Byte, shift: nat)
    requires shift < 64 && acc < Pow2(shift)
    ensures Or(acc % TWO64, Shifted(b, shift) % TWO64) == (acc + Shifted(b, shift)) % TWO64
    ensures acc + Shifted(b, shift) < Pow2(shift + 7)
  {
    var g: nat := b % 128;
    Pow2Splits64(shift);
    OrOnWords(acc, g, shift, Pow2(64 - shift));
    hide Pow2, Or;
    Room(Pow2(shift), g, 128);
    assert Shifted(b, shift) == Pow2(shift) * g;
    hide Shifted;
  }

  /** One of the hand-unrolled varint loops of the generated decoder. */
  method ScanVarint(data: Bytes, i: nat) returns (r: Result<Read, WireError>)
    requires i <= |data|
    ensures r == ReadVarint(data, i)
  {
    var wire, idx, shift := 0, i, 0;
    ghost var k: nat, acc: nat := 0, 0;
    assert ReadGroups(data, i, 0) == Join(0, 0, ReadGroups(data, i, 0));
    assert Pow2(0) == 1;
    hide Pow2, Or, Shifted;
    while true
      invariant i <= idx <= |data|
      invariant k <= 10 && shift == 7 * k
      invariant wire == acc % TWO64 && acc < Pow2(shift)
      invariant ReadGroups(data, i, 0) == Join(acc, k, ReadGroups(data, idx, k))
      decreases 10 - k
    {
      if shift >= 64 {
        return Err(IntOverflow);
      }
      if idx >= |data| {
        return Err(UnexpectedEOF);
      }
      var b := data[idx];
      OrAddsGroup(acc, b, shift);
      wire := Or(wire, Shifted(b, shift) % TWO64);
      if b < 128 {
        JoinLast(data, idx, k, acc);
        return Ok(Read(wire, idx + 1));
      }
      JoinStep(data, idx, k, acc);
      k, acc := k + 1, acc + Shifted(b, shift);
      idx, shift := idx + 1, shift + 7;
    }
  }
}
