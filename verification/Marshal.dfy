/**
 * The generated code itself: Size, the backward-filling MarshalToSizedBuffer, Marshal and the
 * Unmarshal loops of the four messages.
 *
 * A Go slice `dAtA[:i]` of the buffer is the buffer together with the index `i`.
 */
module Marshal {
  import opened Common
  import opened Varint
  import opened Wire
  import opened Messages

  // ----- filling a buffer from its end -----------------------------------------------------

  /** `after` is `before` with `s` written so that it ends at `end`, and nothing else changed. */
  ghost predicate Filled(before: Bytes, after: Bytes, end: nat, s: Bytes) {
    && |s| <= end <= |before|
    && after == before[..end - |s|] + s + before[end..]
  }

  /** Writing `t` right in front of `s` has written `t + s`. */
  lemma FilledTwice(a: Bytes, b: Bytes, c: Bytes, end: nat, s: Bytes, t: Bytes)
    requires Filled(a, b, end, s)
    requires |s| <= end && Filled(b, c, end - |s|, t)
    ensures Filled(a, c, end, t + s)
  {
    var mid := end - |s|;
    var lo := mid - |t|;
    assert b[..lo] == a[..lo];
    assert b[mid..] == s + a[end..];
    assert c == a[..lo] + (t + s) + a[end..];
  }

  /** encodeVarintGenesis */
  method PutVarint(buf: array<Byte>, end: nat, v: nat) returns (base: nat)
    requires v < TWO64
    requires |Encode(v)| <= end <= buf.Length
    modifies buf
    ensures base == end - |Encode(v)|
    ensures Filled(old(buf[..]), buf[..], end, Encode(v))
  {
    SovIsLength(v);
    base := end - Sov(v);
    var offset, x := base, v;
    ghost var done: Bytes := [];
    ghost var before := buf[..];
    while x >= 128
      invariant done + Encode(x) == Encode(v)
      invariant offset == base + |done| && base + |Encode(v)| == end <= |before| == buf.Length
      invariant buf[..] == before[..base] + done + before[offset..]
      decreases x
    {
      assert |Encode(x)| == 1 + |Encode(x / 128)|;
      assert Encode(x) == [128 + x % 128] + Encode(x / 128);
      assert done + Encode(x) == (done + [128 + x % 128]) + Encode(x / 128);
      buf[offset] := 128 + x % 128;
      PutOne(before, base, done, offset, buf[..], 128 + x % 128);
      done := done + [128 + x % 128];
      x := x / 128;
      offset := offset + 1;
    }
    assert Encode(x) == [x];
    buf[offset] := x;
    PutOne(before, base, done, offset, buf[..], x);
  }

  lemma PutOne(before: Bytes, base: nat, done: Bytes, offset: nat, now: Bytes, b: Byte)
    requires base <= offset < |before| && offset == base + |done|
    requires now == (before[..base] + done + before[offset..])[offset := b]
    ensures now == before[..base] + (done + [b]) + before[offset + 1..]
  {
    assert before[offset..][1..] == before[offset + 1..];
  }

  /** `i -= len(s); copy(dAtA[i:], s)` */
  method PutBytes(buf: array<Byte>, end: nat, s: Bytes) returns (i: nat)
    requires |s| <= end <= buf.Length
    modifies buf
    ensures i == end - |s|
    ensures Filled(old(buf[..]), buf[..], end, s)
  {
    i := end - |s|;
    forall k | 0 <= k < |s| {
      buf[i + k] := s[k];
    }
    assert buf[i..end] == s;
    assert buf[..] == buf[..i] + buf[i..end] + buf[end..];
  }

  method PutByte(buf: array<Byte>, end: nat, b: Byte) returns (i: nat)
    requires 1 <= end <= buf.Length
    modifies buf
    ensures i == end - 1
    ensures Filled(old(buf[..]), buf[..], end, [b])
  {
    i := end - 1;
    buf[i] := b;
  }

  /** The length prefix of what was just written, and the tag of its field. */
  method PutHeader(buf: array<Byte>, end: nat, size: nat, num: nat) returns (i: nat)
    requires size < TWO64 && (num == 1 || num == 2)
    requires |Tag(num, 2) + Encode(size)| <= end <= buf.Length
    modifies buf
    ensures i == end - |Tag(num, 2) + Encode(size)|
    ensures Filled(old(buf[..]), buf[..], end, Tag(num, 2) + Encode(size))
  {
    assert Tag(num, 2) == [8 * num + 2];
    ghost var a := buf[..];
    i := PutVarint(buf, end, size);
    ghost var b := buf[..];
    i := PutByte(buf, i, 8 * num + 2);
    FilledTwice(a, b, buf[..], end, Encode(size), [8 * num + 2]);
  }

  /** Header in front of payload is the field, and the field in front of `rest` starts the stream. */
  lemma FilledField(a: Bytes, b: Bytes, c: Bytes, d: Bytes, end: nat, num: nat, p: Bytes, rest: Stream)
    requires Filled(a, b, end, EncStream(rest))
    requires |EncStream(rest)| <= end && Filled(b, c, end - |EncStream(rest)|, p)
    requires |EncStream(rest)| + |p| <= end
    requires Filled(c, d, end - |EncStream(rest)| - |p|, Tag(num, 2) + Encode(|p|))
    ensures Filled(a, d, end, EncStream(More(Blob(num, p), rest)))
  {
    hide Filled, Encode, Tag;
    var r, h := EncStream(rest), Tag(num, 2) + Encode(|p|);
    FilledTwice(a, b, c, end, r, p);
    assert |p + r| == |r| + |p|;
    FilledTwice(a, c, d, end, p + r, h);
    assert h + (p + r) == EncStream(More(Blob(num, p), rest));
  }

  lemma FilledNothing(a: Bytes, end: nat)
    requires end <= |a|
    ensures Filled(a, a, end, [])
  {
  }

  // ----- DenomAuthorityMetadata --------------------------------------------------------------

  method SizeAuthority(m: Authority) returns (n: nat)
    ensures n == |EncAuthority(m)|
  {
    n := 0;
    var l := |m.admin|;
    if l > 0 {
      SovIsLength(l);
      n := n + 1 + l + Sov(l);
      assert EncAuthority(m) == EncField(Blob(1, m.admin)) + EncStream(End);
      TagBytes();
    }
  }

  method PutAuthority(buf: array<Byte>, end: nat, m: Authority) returns (n: nat)
    requires |EncAuthority(m)| <= end <= buf.Length < TWO63
    modifies buf
    ensures n == |EncAuthority(m)|
    ensures Filled(old(buf[..]), buf[..], end, EncAuthority(m))
  {
    ghost var a := buf[..];
    var i := end;
    FilledNothing(a, end);
    if |m.admin| > 0 {
      i := PutBytes(buf, i, m.admin);
      ghost var c := buf[..];
      i := PutHeader(buf, i, |m.admin|, 1);
      FilledField(a, a, c, buf[..], end, 1, m.admin, End);
    }
    n := end - i;
  }

  /** DenomAuthorityMetadata.Marshal */
  method MarshalAuthority(m: Authority) returns (bytes: Bytes)
    requires |EncAuthority(m)| < TWO63
    ensures bytes == EncAuthority(m)
  {
    hide EncAuthority;
    var size := SizeAuthority(m);
    var buf := new Byte[size](_ => 0);
    var n := PutAuthority(buf, size, m);
    bytes := buf[..n];
  }

  /** An authority record with an address-sized admin is a small message. */
  lemma AuthorityIsSmall(m: Authority)
    requires |m.admin| <= 1023
    ensures |EncAuthority(m)| <= 1034
  {
    if m.admin != [] {
      assert EncAuthority(m) == EncField(Blob(1, m.admin)) + EncStream(End);
      TagBytes();
      EncodeAtMostTen(|m.admin|);
    }
  }

  method UnmarshalAuthority(data: Bytes, start: Authority)
    returns (r: Result<Authority, WireError>, consumed: nat)
    requires |data| < TWO63
    ensures r == DecAuthority(data, start)
    ensures r.Ok? ==> consumed == |data|
  {
    var i, m := 0, start;
    consumed := 0;
    while i < |data|
      invariant i <= |data|
      invariant DecAuthority(data, start) == MergeAuthority(Fields(data, i, AUTHORITY_SCHEMA), m)
    {
      hide ReadField;
      var item := ScanField(data, i, AUTHORITY_SCHEMA);
      if item.Err? {
        return Err(item.error), i;
      }
      if item.value.field.Blob? && item.value.field.num == 1 {
        m := Authority(item.value.field.payload);
      }
      i := item.value.next;
    }
    return Ok(m), i;
  }

  // ----- GenesisDenom -----------------------------------------------------------------------------

  method SizeDenom(m: GenesisDenom) returns (n: nat)
    ensures n == |EncDenom(m)|
  {
    hide EncAuthority;
    n := 0;
    var l := |m.denom|;
    if l > 0 {
      SovIsLength(l);
      n := n + 1 + l + Sov(l);
    }
    l := SizeAuthority(m.authority);
    SovIsLength(l);
    n := n + 1 + l + Sov(l);
    DenomLength(m);
  }

  lemma DenomLength(m: GenesisDenom)
    ensures |EncDenom(m)| ==
            (if m.denom == [] then 0 else 1 + |m.denom| + |Encode(|m.denom|)|) +
            1 + |EncAuthority(m.authority)| + |Encode(|EncAuthority(m.authority)|)|
  {
    hide EncAuthority;
    var tail := More(Blob(2, EncAuthority(m.authority)), End);
    assert EncStream(tail) == EncField(tail.field) + [];
    assert Tag(1, 2) == [10] && Tag(2, 2) == [18];
  }

  /** The nested authority record, its length and its tag. */
  method PutNested(buf: array<Byte>, end: nat, m: Authority) returns (i: nat)
    requires |EncStream(Nested(m))| <= end <= buf.Length < TWO63
    modifies buf
    ensures i == end - |EncStream(Nested(m))|
    ensures Filled(old(buf[..]), buf[..], end, EncStream(Nested(m)))
  {
    hide EncAuthority, Encode, Filled, EncStream, Tag;
    ghost var a := buf[..];
    FilledNothing(a, end);
    EmptyStream();
    BlobLength(2, EncAuthority(m), End);
    var size := PutAuthority(buf, end, m);
    ghost var c := buf[..];
    i := PutHeader(buf, end - size, size, 2);
    FilledField(a, a, c, buf[..], end, 2, EncAuthority(m), End);
  }

  ghost function Nested(m: Authority): Stream {
    More(Blob(2, EncAuthority(m)), End)
  }

  method PutDenom(buf: array<Byte>, end: nat, m: GenesisDenom) returns (n: nat)
    requires |EncDenom(m)| <= end <= buf.Length < TWO63
    modifies buf
    ensures n == |EncDenom(m)|
    ensures Filled(old(buf[..]), buf[..], end, EncDenom(m))
  {
    hide EncAuthority, Encode, Filled, EncStream, Tag;
    ghost var a, tail := buf[..], Nested(m.authority);
    BlobLength(1, m.denom, tail);
    var i := PutNested(buf, end, m.authority);
    if |m.denom| > 0 {
      ghost var b := buf[..];
      i := PutBytes(buf, i, m.denom);
      ghost var c := buf[..];
      i := PutHeader(buf, i, |m.denom|, 1);
      FilledField(a, b, c, buf[..], end, 1, m.denom, tail);
    }
    n := end - i;
  }

  method UnmarshalDenom(data: Bytes, start: GenesisDenom)
    returns (r: Result<GenesisDenom, WireError>, consumed: nat)
    requires |data| < TWO63
    ensures r == DecDenom(data, start)
    ensures r.Ok? ==> consumed == |data|
  {
    var i, m := 0, start;
    consumed := 0;
    while i < |data|
      invariant i <= |data|
      invariant DecDenom(data, start) == MergeDenom(Fields(data, i, DENOM_SCHEMA), m)
    {
      hide ReadField, DecAuthority;
      var item := ScanField(data, i, DENOM_SCHEMA);
      if item.Err? {
        return Err(item.error), i;
      }
      var field := item.value.field;
      BlobShorter(data, i, DENOM_SCHEMA);
      if field.Blob? && field.num == 1 {
        m := m.(denom := field.payload);
      } else if field.Blob? && field.num == 2 {
        var sub, _ := UnmarshalAuthority(field.payload, m.authority);
        if sub.Err? {
          return Err(sub.error), i;
        }
        m := m.(authority := sub.value);
      }
      i := item.value.next;
    }
    return Ok(m), i;
  }

  /** A sub-message lies inside the data of its message. */
  lemma BlobShorter(data: Bytes, i: nat, schema: Schema)
    requires i < |data|
    requires ReadField(data, i, schema).Ok?
    ensures var f := ReadField(data, i, schema).value.field; f.Blob? ==> |f.payload| < |data|
  {
  }

  // ----- Params ---------------------------------------------------------------------------------------

  /** Length of a stream that starts with a length-delimited field. */
  lemma BlobLength(num: nat, p: Bytes, rest: Stream)
    requires num == 1 || num == 2
    ensures |EncStream(More(Blob(num, p), rest))| == 1 + |p| + |Encode(|p|)| + |EncStream(rest)|
    ensures |Tag(num, 2) + Encode(|p|)| == 1 + |Encode(|p|)|
  {
    TagBytes();
    hide Tag;
  }

  lemma GasLength(gas: nat)
    ensures |EncStream(GasFields(gas))| == if gas == 0 then 0 else 1 + |Encode(gas)|
  {
    TagBytes();
    if gas != 0 {
      assert EncStream(GasFields(gas)) == EncField(Num(2, gas)) + EncStream(End);
    }
    hide Tag;
  }

  method SizeParams(c: CoinCodec, m: Params) returns (n: nat)
    requires m.gas < TWO64
    ensures n == |EncParams(c, m)|
  {
    hide Encode, EncStream;
    n := 0;
    ghost var tail := GasFields(m.gas);
    assert m.fee[0..] == m.fee;
    for k := 0 to |m.fee|
      invariant n + |EncStream(FeeFields(c, m.fee[k..], tail))| == |EncParams(c, m)|
    {
      var l := |c.enc(m.fee[k])|;
      SovIsLength(l);
      BlobLength(1, c.enc(m.fee[k]), FeeFields(c, m.fee[k + 1..], tail));
      assert m.fee[k..][1..] == m.fee[k + 1..];
      n := n + 1 + l + Sov(l);
    }
    GasLength(m.gas);
    if m.gas != 0 {
      SovIsLength(m.gas);
      n := n + 1 + Sov(m.gas);
    }
  }

  /** What the coins from `k` on take is part of what all of them take. */
  lemma {:induction false} FeeSuffix(c: CoinCodec, fee: seq<Coin>, k: nat, rest: Stream)
    requires k <= |fee|
    ensures |EncStream(FeeFields(c, fee[k..], rest))| <= |EncStream(FeeFields(c, fee, rest))|
    decreases k
  {
    if k == 0 {
      assert fee[0..] == fee;
    } else {
      BlobLength(1, c.enc(fee[0]), FeeFields(c, fee[1..], rest));
      FeeSuffix(c, fee[1..], k - 1, rest);
      assert fee[1..][k - 1..] == fee[k..];
    }
    hide EncField;
  }

  method PutGas(buf: array<Byte>, end: nat, gas: nat) returns (i: nat)
    requires gas < TWO64
    requires |EncStream(GasFields(gas))| <= end <= buf.Length < TWO63
    modifies buf
    ensures i == end - |EncStream(GasFields(gas))|
    ensures Filled(old(buf[..]), buf[..], end, EncStream(GasFields(gas)))
  {
    hide Encode, Filled;
    GasLength(gas);
    TagBytes();
    ghost var a := buf[..];
    FilledNothing(a, end);
    i := end;
    if gas != 0 {
      i := PutVarint(buf, i, gas);
      ghost var b := buf[..];
      i := PutByte(buf, i, 0x10);
      FilledTwice(a, b, buf[..], end, Encode(gas), [0x10]);
      assert [0x10] + Encode(gas) == EncStream(GasFields(gas));
    }
  }

  method PutParams(c: CoinCodec, buf: array<Byte>, end: nat, m: Params) returns (n: nat)
    requires m.gas < TWO64
    requires |EncParams(c, m)| <= end <= buf.Length < TWO63
    modifies buf
    ensures n == |EncParams(c, m)|
    ensures Filled(old(buf[..]), buf[..], end, EncParams(c, m))
  {
    hide EncStream, Filled, Encode, Tag, GasFields;
    ghost var a, tail := buf[..], GasFields(m.gas);
    FeeSuffix(c, m.fee, |m.fee|, tail);
    assert m.fee[|m.fee|..] == [];
    var i := PutGas(buf, end, m.gas);
    var k := |m.fee|;
    while k > 0
      invariant 0 <= k <= |m.fee|
      invariant i == end - |EncStream(FeeFields(c, m.fee[k..], tail))|
      invariant Filled(a, buf[..], end, EncStream(FeeFields(c, m.fee[k..], tail)))
    {
      k := k - 1;
      ghost var rest := FeeFields(c, m.fee[k + 1..], tail);
      assert m.fee[k..][1..] == m.fee[k + 1..];
      FeeSuffix(c, m.fee, k, tail);
      BlobLength(1, c.enc(m.fee[k]), rest);
      ghost var b := buf[..];
      i := PutBytes(buf, i, c.enc(m.fee[k]));
      ghost var d := buf[..];
      i := PutHeader(buf, i, |c.enc(m.fee[k])|, 1);
      FilledField(a, b, d, buf[..], end, 1, c.enc(m.fee[k]), rest);
    }
    assert m.fee[0..] == m.fee;
    n := end - i;
  }

  method UnmarshalParams(c: CoinCodec, data: Bytes, start: Params)
    returns (r: Result<Params, WireError>, consumed: nat)
    requires |data| < TWO63
    ensures r == DecParams(c, data, start)
    ensures r.Ok? ==> consumed == |data|
  {
    var i, m := 0, start;
    consumed := 0;
    while i < |data|
      invariant i <= |data|
      invariant DecParams(c, data, start) == MergeParams(c, Fields(data, i, PARAMS_SCHEMA), m)
    {
      hide ReadField;
      var item := ScanField(data, i, PARAMS_SCHEMA);
      if item.Err? {
        return Err(item.error), i;
      }
      var field := item.value.field;
      if field.Blob? && field.num == 1 {
        var coin := c.dec(field.payload);
        if coin.None? {
          return Err(BadCoin), i;
        }
        m := m.(fee := m.fee + [coin.value]);
      } else if field.Num? && field.num == 2 {
        m := m.(gas := field.v);
      }
      i := item.value.next;
    }
    return Ok(m), i;
  }

  // ----- GenesisState ---------------------------------------------------------------------------------

  method SizeGenesis(c: CoinCodec, m: Genesis) returns (n: nat)
    requires m.params.gas < TWO64
    ensures n == |EncGenesis(c, m)|
  {
    hide Encode, EncStream, EncParams, EncDenom;
    var l := SizeParams(c, m.params);
    SovIsLength(l);
    n := 1 + l + Sov(l);
    BlobLength(1, EncParams(c, m.params), DenomsFields(m.denoms));
    assert m.denoms[0..] == m.denoms;
    for k := 0 to |m.denoms|
      invariant n + |EncStream(DenomsFields(m.denoms[k..]))| == |EncGenesis(c, m)|
    {
      l := SizeDenom(m.denoms[k]);
      SovIsLength(l);
      BlobLength(2, EncDenom(m.denoms[k]), DenomsFields(m.denoms[k + 1..]));
      assert m.denoms[k..][1..] == m.denoms[k + 1..];
      n := n + 1 + l + Sov(l);
    }
    assert EncStream(End) == [] by { EmptyStream(); }
  }

  lemma EmptyStream()
    ensures EncStream(End) == []
  {
  }

  lemma {:induction false} DenomsSuffix(ds: seq<GenesisDenom>, k: nat)
    requires k <= |ds|
    ensures |EncStream(DenomsFields(ds[k..]))| <= |EncStream(DenomsFields(ds))|
    decreases k
  {
    if k == 0 {
      assert ds[0..] == ds;
    } else {
      BlobLength(2, EncDenom(ds[0]), DenomsFields(ds[1..]));
      DenomsSuffix(ds[1..], k - 1);
      assert ds[1..][k - 1..] == ds[k..];
    }
    hide EncField, EncDenom;
  }

  /** Writes exactly the last `|EncGenesis|` bytes below `end` and nothing else. */
  method PutGenesis(c: CoinCodec, buf: array<Byte>, end: nat, m: Genesis) returns (n: nat)
    requires m.params.gas < TWO64
    requires |EncGenesis(c, m)| <= end <= buf.Length < TWO63
    modifies buf
    ensures n == |EncGenesis(c, m)|
    ensures Filled(old(buf[..]), buf[..], end, EncGenesis(c, m))
  {
    hide EncStream, Filled, Encode, Tag, EncDenom, EncParams;
    ghost var a, p := buf[..], EncParams(c, m.params);
    BlobLength(1, p, DenomsFields(m.denoms));
    FilledNothing(a, end);
    EmptyStream();
    assert m.denoms[|m.denoms|..] == [];
    var i := end;
    var k := |m.denoms|;
    while k > 0
      invariant 0 <= k <= |m.denoms|
      invariant i == end - |EncStream(DenomsFields(m.denoms[k..]))|
      invariant Filled(a, buf[..], end, EncStream(DenomsFields(m.denoms[k..])))
    {
      k := k - 1;
      ghost var rest, q := DenomsFields(m.denoms[k + 1..]), EncDenom(m.denoms[k]);
      assert m.denoms[k..][1..] == m.denoms[k + 1..];
      DenomsSuffix(m.denoms, k);
      BlobLength(2, q, rest);
      ghost var b := buf[..];
      var size := PutDenom(buf, i, m.denoms[k]);
      ghost var d := buf[..];
      i := PutHeader(buf, i - size, size, 2);
      FilledField(a, b, d, buf[..], end, 2, q, rest);
    }
    assert m.denoms[0..] == m.denoms;
    ghost var b := buf[..];
    var size := PutParams(c, buf, i, m.params);
    ghost var d := buf[..];
    i := PutHeader(buf, i - size, size, 1);
    FilledField(a, b, d, buf[..], end, 1, p, DenomsFields(m.denoms));
    n := end - i;
  }

  /** GenesisState.Marshal: a buffer of exactly Size() bytes, filled to its first byte. */
  method MarshalGenesis(c: CoinCodec, m: Genesis) returns (bytes: Bytes)
    requires m.params.gas < TWO64 && |EncGenesis(c, m)| < TWO63
    ensures bytes == EncGenesis(c, m)
  {
    hide EncGenesis;
    var size := SizeGenesis(c, m);
    var buf := new Byte[size](_ => 0);
    var n := PutGenesis(c, buf, size, m);
    assert n == size;
    bytes := buf[..n];
  }

  method UnmarshalGenesis(c: CoinCodec, data: Bytes, start: Genesis)
    returns (r: Result<Genesis, WireError>, consumed: nat)
    requires |data| < TWO63
    ensures r == DecGenesis(c, data, start)
    ensures r.Ok? ==> consumed == |data|
  {
    var i, m := 0, start;
    consumed := 0;
    while i < |data|
      invariant i <= |data|
      invariant DecGenesis(c, data, start) == MergeGenesis(c, Fields(data, i, GENESIS_SCHEMA), m)
    {
      hide ReadField, DecParams, DecDenom;
      var item := ScanField(data, i, GENESIS_SCHEMA);
      if item.Err? {
        return Err(item.error), i;
      }
      var field := item.value.field;
      BlobShorter(data, i, GENESIS_SCHEMA);
      if field.Blob? && field.num == 1 {
        var sub, _ := UnmarshalParams(c, field.payload, m.params);
        if sub.Err? {
          return Err(sub.error), i;
        }
        m := m.(params := sub.value);
      } else if field.Blob? && field.num == 2 {
        var sub, _ := UnmarshalDenom(field.payload, NO_DENOM);
        if sub.Err? {
          return Err(sub.error), i;
        }
        m := m.(denoms := m.denoms + [sub.value]);
      }
      i := item.value.next;
    }
    return Ok(m), i;
  }

  /** The two methods composed: what Marshal writes, Unmarshal into an empty message restores. */
  method MarshalThenUnmarshal(c: CoinCodec, m: Genesis) returns (r: Result<Genesis, WireError>)
    requires c.RoundTrips()
    requires m.params.gas < TWO64 && |EncGenesis(c, m)| < TWO63
    ensures r == Ok(m)
  {
    hide EncGenesis, DecGenesis;
    var bytes := MarshalGenesis(c, m);
    var consumed;
    r, consumed := UnmarshalGenesis(c, bytes, NO_GENESIS);
    GenesisRoundTrip(c, m);
  }
}
