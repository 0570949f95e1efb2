/** Bytes, 64-bit arithmetic and small result types shared by every module. */
module Common {

  /** One byte of the wire, of a store key or of a Go string. */
  type Byte = b: int | 0 <= b < 256

  /** Go strings and byte slices alike: the program only ever looks at their bytes. */
  type Bytes = seq<Byte>

  function Code(c: char): Byte
    requires c as int < 128
  {
    c as int
  }

  /** The bytes of a string literal. */
  function Ascii(s: string): Bytes
    requires forall i :: 0 <= i < |s| ==> s[i] as int < 128
  {
    seq(|s|, i requires 0 <= i < |s| => Code(s[i]))
  }

  datatype Option<+T> = None | Some(value: T)

  datatype Result<+T, +E> = Ok(value: T) | Err(error: E)

  const TWO31: int := 0x8000_0000
  const TWO32: int := 0x1_0000_0000
  const TWO63: int := 0x8000_0000_0000_0000
  const TWO64: int := 0x1_0000_0000_0000_0000

  /** Two's complement reading of the low 64 bits of `x`: Go's `int64(x)`. */
  function Int64(x: int): (r: int)
    ensures -TWO63 <= r < TWO63
    ensures 0 <= x < TWO63 ==> r == x
    ensures TWO63 <= x < TWO64 ==> r == x - TWO64
  {
    (x + TWO63) % TWO64 - TWO63
  }

  /** Two's complement reading of the low 32 bits of `x`: Go's `int32(x)`. */
  function Int32(x: int): (r: int)
    ensures -TWO31 <= r < TWO31
    ensures 0 <= x < TWO31 ==> r == x
  {
    (x + TWO31) % TWO32 - TWO31
  }

  function Pow2(n: nat): (p: nat)
    ensures p >= 1
  {
    if n == 0 then 1 else 2 * Pow2(n - 1)
  }

  lemma {:induction false} Pow2Adds(m: nat, n: nat)
    ensures Pow2(m + n) == Pow2(m) * Pow2(n)
    decreases n
  {
    if n == 0 {
    } else {
      Pow2Adds(m, n - 1);
      assert Pow2(m + n) == 2 * Pow2(m + (n - 1));
    }
  }

  lemma {:induction false} Pow2Grows(m: nat, n: nat)
    requires m <= n
    ensures Pow2(m) <= Pow2(n)
    decreases n
  {
    if m < n {
      Pow2Grows(m, n - 1);
    }
  }

  lemma Pow2Of7()
    ensures Pow2(7) == 128
  {
    assert Pow2(4) == 16;
  }

  lemma Pow2Of28()
    ensures Pow2(28) == 0x1000_0000
  {
    Pow2Of7();
    Pow2Adds(7, 7);
    Pow2Adds(14, 14);
  }

  lemma Pow2Of56()
    ensures Pow2(56) == 0x100_0000_0000_0000
  {
    Pow2Of28();
    Pow2Adds(28, 28);
  }

  lemma Pow2Of63()
    ensures Pow2(63) == TWO63
  {
    Pow2Of7();
    Pow2Of56();
    Pow2Adds(56, 7);
  }

  /** `part` occurs in `data` at index `i`. */
  predicate Has(data: Bytes, i: nat, part: Bytes) {
    i + |part| <= |data| && data[i..i + |part|] == part
  }

  lemma HasSplit(data: Bytes, i: nat, a: Bytes, b: Bytes)
    requires Has(data, i, a + b)
    ensures Has(data, i, a) && Has(data, i + |a|, b)
  {
    var whole := data[i..i + |a| + |b|];
    assert whole == a + b;
    assert data[i..i + |a|] == whole[..|a|];
    assert data[i + |a|..i + |a| + |b|] == whole[|a|..];
  }

  lemma HasInside(data: Bytes, i: nat, part: Bytes)
    requires Has(data, i, part)
    ensures i + |part| <= |data|
  {
  }

  lemma HasHere(a: Bytes, part: Bytes, b: Bytes)
    ensures Has(a + part + b, |a|, part)
  {
  }

  lemma HasInSuffix(data: Bytes, i: nat, part: Bytes)
    requires Has(data, i, part)
    ensures Has(data[i..], 0, part)
  {
    assert data[i..][0..|part|] == data[i..i + |part|];
  }
}
