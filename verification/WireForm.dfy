/**
 * The bytes of the four genesis messages, tag by tag, and what their decoders make of each tag:
 * the format a protobuf peer of the chain agrees on.
 */
module WireForm {
  import opened Common
  import opened Varint
  import opened Wire
  import opened Messages

  // ----- what the encoders write ------------------------------------------------------------

  /** A length-delimited record under a one-byte tag. */
  function Record(tag: Byte, p: Bytes): Bytes {
    [tag] + (Encode(|p|) + p)
  }

  function Records(tag: Byte, ps: seq<Bytes>): Bytes
    decreases |ps|
  {
    if ps == [] then [] else Record(tag, ps[0]) + Records(tag, ps[1..])
  }

  /** Field 1 is tagged 0A; an empty admin is left out. */
  lemma AuthorityBytes(m: Authority)
    ensures EncAuthority(m) == if m.admin == [] then [] else Record(0x0A, m.admin)
  {
    TagBytes();
    hide Tag, Encode;
    assert m.admin != [] ==> EncStream(AuthorityFields(m)) == EncField(Blob(1, m.admin)) + EncStream(End);
  }

  /** The denom under 0A unless it is empty, then always the authority record under 12. */
  lemma DenomBytes(m: GenesisDenom)
    ensures EncDenom(m) ==
            (if m.denom == [] then [] else Record(0x0A, m.denom)) + Record(0x12, EncAuthority(m.authority))
  {
    TagBytes();
    hide Tag, Encode, EncAuthority;
    var tail := More(Blob(2, EncAuthority(m.authority)), End);
    assert EncStream(tail) == EncField(tail.field) + EncStream(End);
  }

  function CoinPayloads(c: CoinCodec, fee: seq<Coin>): seq<Bytes> {
    seq(|fee|, i requires 0 <= i < |fee| => c.enc(fee[i]))
  }

  function DenomPayloads(ds: seq<GenesisDenom>): seq<Bytes> {
    seq(|ds|, i requires 0 <= i < |ds| => EncDenom(ds[i]))
  }

  lemma {:induction false} FeeBytes(c: CoinCodec, fee: seq<Coin>, rest: Stream)
    ensures EncStream(FeeFields(c, fee, rest)) == Records(0x0A, CoinPayloads(c, fee)) + EncStream(rest)
    decreases |fee|
  {
    if fee != [] {
      TagBytes();
      hide Tag, Encode;
      FeeBytes(c, fee[1..], rest);
      assert CoinPayloads(c, fee)[1..] == CoinPayloads(c, fee[1..]);
      assert EncField(Blob(1, c.enc(fee[0]))) == Record(0x0A, CoinPayloads(c, fee)[0]);
    }
  }

  /** One 0A record per coin in order, then 10 and the gas as a varint unless it is zero. */
  lemma ParamsBytes(c: CoinCodec, m: Params)
    ensures EncParams(c, m) ==
            Records(0x0A, CoinPayloads(c, m.fee)) + (if m.gas == 0 then [] else [0x10] + Encode(m.gas))
  {
    FeeBytes(c, m.fee, GasFields(m.gas));
    TagBytes();
    hide Tag, Encode, Records, FeeFields, CoinPayloads;
    assert m.gas != 0 ==> EncStream(GasFields(m.gas)) == EncField(Num(2, m.gas)) + EncStream(End);
  }

  lemma {:induction false} DenomsBytes(ds: seq<GenesisDenom>)
    ensures EncStream(DenomsFields(ds)) == Records(0x12, DenomPayloads(ds))
    decreases |ds|
  {
    if ds != [] {
      TagBytes();
      hide Tag, Encode, EncDenom;
      DenomsBytes(ds[1..]);
      assert DenomPayloads(ds)[1..] == DenomPayloads(ds[1..]);
      assert EncField(Blob(2, EncDenom(ds[0]))) == Record(0x12, DenomPayloads(ds)[0]);
    }
  }

  /** The params under 0A, empty or not, then one 12 record per denom in order. */
  lemma GenesisBytes(c: CoinCodec, m: Genesis)
    ensures EncGenesis(c, m) == Record(0x0A, EncParams(c, m.params)) + Records(0x12, DenomPayloads(m.denoms))
  {
    DenomsBytes(m.denoms);
    TagBytes();
    hide Tag, Encode, Records, DenomsFields, EncParams, DenomPayloads;
  }

  /** The empty genesis is the two bytes of empty params. */
  lemma EmptyGenesisBytes(c: CoinCodec)
    ensures EncGenesis(c, NO_GENESIS) == [0x0A, 0x00]
  {
    GenesisBytes(c, NO_GENESIS);
    ParamsBytes(c, NO_PARAMS);
    hide EncGenesis, EncParams;
  }

  // ----- what the decoders make of each tag -----------------------------------------------------

  lemma FirstField(schema: Schema, f: Field, rest: Bytes)
    requires Fits(f, schema) && |EncField(f) + rest| < TWO63
    ensures var s := Fields(EncField(f) + rest, 0, schema);
            s.More? && s.field == f && Alike(s.rest, Fields(rest, 0, schema))
  {
    hide EncField, ReadField, Alike;
    var e := EncField(f);
    var data := e + rest;
    assert data[0..|e|] == e;
    ReadEncodedField(data, 0, schema, f);
    FieldsShift(e, rest, 0, schema);
  }

  /** A record in front is taken first; the rest is decoded on top of it. */
  lemma FirstRecord<M(!new)>(k: Decoder<M>, f: Field, rest: Bytes, m: M)
    requires Fits(f, k.schema) && |EncField(f) + rest| < TWO63
    ensures k.take(m, f).Err? ==> k.Dec(EncField(f) + rest, m) == Err(k.take(m, f).error)
    ensures k.take(m, f).Ok? ==>
              SameOutcome(k.Dec(EncField(f) + rest, m), k.Dec(rest, k.take(m, f).value))
  {
    hide EncField, Fields, Alike;
    FirstField(k.schema, f, rest);
    if k.take(m, f).Ok? {
      var s := Fields(EncField(f) + rest, 0, k.schema);
      FoldAlike(s.rest, Fields(rest, 0, k.schema), k.take(m, f).value, k.take);
    }
  }

  lemma RecordIsField(p: Bytes, v: nat)
    ensures EncField(Blob(1, p)) == Record(0x0A, p) && EncField(Blob(2, p)) == Record(0x12, p)
    ensures EncField(Num(2, v)) == [0x10] + Encode(v)
  {
    TagBytes();
    hide Tag, Encode;
  }

  /** A later admin replaces an earlier one. */
  lemma AuthorityTags(p: Bytes, rest: Bytes, m: Authority)
    requires |Record(0x0A, p) + rest| < TWO63
    ensures SameOutcome(DecAuthority(Record(0x0A, p) + rest, m), DecAuthority(rest, Authority(p)))
    ensures DecAuthority([], m) == Ok(m)
  {
    RecordIsField(p, 0);
    hide Record, EncField;
    FirstRecord(AUTHORITY_DECODER, Blob(1, p), rest, m);
    hide SameOutcome;
  }

  /** 0A replaces the denom, 12 decodes into the authority record that is there. */
  lemma DenomTags(p: Bytes, rest: Bytes, m: GenesisDenom)
    requires |Record(0x0A, p) + rest| < TWO63
    ensures SameOutcome(DecDenom(Record(0x0A, p) + rest, m), DecDenom(rest, m.(denom := p)))
    ensures DecAuthority(p, m.authority).Err? ==>
              DecDenom(Record(0x12, p) + rest, m) == Err(DecAuthority(p, m.authority).error)
    ensures DecAuthority(p, m.authority).Ok? ==>
              SameOutcome(DecDenom(Record(0x12, p) + rest, m),
                          DecDenom(rest, m.(authority := DecAuthority(p, m.authority).value)))
    ensures DecDenom([], m) == Ok(m)
  {
    RecordIsField(p, 0);
    assert |Record(0x12, p) + rest| < TWO63;
    hide Record, EncField, DecAuthority;
    FirstRecord(DENOM_DECODER, Blob(1, p), rest, m);
    FirstRecord(DENOM_DECODER, Blob(2, p), rest, m);
    hide SameOutcome;
  }

  /** 0A appends a coin, 10 and a varint replace the gas. */
  lemma ParamsTags(c: CoinCodec, p: Bytes, v: nat, rest: Bytes, m: Params)
    requires |Record(0x0A, p) + rest| < TWO63 && |[0x10] + Encode(v) + rest| < TWO63 && v < TWO64
    ensures c.dec(p).None? ==> DecParams(c, Record(0x0A, p) + rest, m) == Err(BadCoin)
    ensures c.dec(p).Some? ==>
              SameOutcome(DecParams(c, Record(0x0A, p) + rest, m),
                          DecParams(c, rest, m.(fee := m.fee + [c.dec(p).value])))
    ensures SameOutcome(DecParams(c, [0x10] + Encode(v) + rest, m), DecParams(c, rest, m.(gas := v)))
    ensures DecParams(c, [], m) == Ok(m)
  {
    RecordIsField(p, v);
    hide Record, EncField, Encode;
    FirstRecord(ParamsDecoder(c), Blob(1, p), rest, m);
    FirstRecord(ParamsDecoder(c), Num(2, v), rest, m);
    hide SameOutcome;
  }

  /** 0A decodes into the params that are there, 12 appends a denom of its own. */
  lemma GenesisTags(c: CoinCodec, p: Bytes, rest: Bytes, m: Genesis)
    requires |Record(0x0A, p) + rest| < TWO63
    ensures DecParams(c, p, m.params).Err? ==>
              DecGenesis(c, Record(0x0A, p) + rest, m) == Err(DecParams(c, p, m.params).error)
    ensures DecParams(c, p, m.params).Ok? ==>
              SameOutcome(DecGenesis(c, Record(0x0A, p) + rest, m),
                          DecGenesis(c, rest, m.(params := DecParams(c, p, m.params).value)))
    ensures DecDenom(p, NO_DENOM).Err? ==>
              DecGenesis(c, Record(0x12, p) + rest, m) == Err(DecDenom(p, NO_DENOM).error)
    ensures DecDenom(p, NO_DENOM).Ok? ==>
              SameOutcome(DecGenesis(c, Record(0x12, p) + rest, m),
                          DecGenesis(c, rest, m.(denoms := m.denoms + [DecDenom(p, NO_DENOM).value])))
    ensures DecGenesis(c, [], m) == Ok(m)
  {
    RecordIsField(p, 0);
    assert |Record(0x12, p) + rest| < TWO63;
    hide Record, EncField, DecParams, DecDenom;
    FirstRecord(GenesisDecoder(c), Blob(1, p), rest, m);
    FirstRecord(GenesisDecoder(c), Blob(2, p), rest, m);
    hide SameOutcome;
  }

  lemma OneByteTag(data: Bytes)
    requires data != [] && data[0] < 128
    ensures ReadVarint(data, 0) == Ok(Read(data[0], 1))
  {
    assert ReadGroups(data, 0, 0) == Ok(Read(data[0], 1));
    hide ReadGroups;
  }

  /** A one-byte tag of a declared field with another wire type, of field 0, or an end tag. */
  lemma BadTag(data: Bytes, schema: Schema)
    requires data != [] && data[0] < 128
    ensures data[0] % 8 == 4 ==> Fields(data, 0, schema) == Fail(EndGroupOutsideGroup)
    ensures data[0] < 8 && data[0] != 4 ==> Fields(data, 0, schema) == Fail(IllegalTag)
    ensures data[0] in {0x08, 0x09, 0x0B, 0x0D, 0x0E, 0x0F} && schema.one == Lengthy ==>
              Fields(data, 0, schema) == Fail(WrongWireType)
    ensures data[0] in {0x10, 0x11, 0x13, 0x15, 0x16, 0x17} && schema.two == Lengthy ==>
              Fields(data, 0, schema) == Fail(WrongWireType)
    ensures data[0] in {0x11, 0x12, 0x13, 0x15, 0x16, 0x17} && schema.two == Number ==>
              Fields(data, 0, schema) == Fail(WrongWireType)
  {
    OneByteTag(data);
    hide ReadVarint, ReadBlob, ReadUnknown;
  }

  /** Tags the decoders refuse, whatever follows and whatever was read before. */
  lemma RefusedTags(c: CoinCodec, data: Bytes, a: Authority, d: GenesisDenom, p: Params, g: Genesis)
    requires data != [] && data[0] < 128
    ensures data[0] % 8 == 4 ==> AllAnswer(c, data, a, d, p, g, EndGroupOutsideGroup)
    ensures data[0] < 8 && data[0] != 4 ==> AllAnswer(c, data, a, d, p, g, IllegalTag)
    ensures data[0] in {0x08, 0x09, 0x0B, 0x0D, 0x0E, 0x0F} ==> AllAnswer(c, data, a, d, p, g, WrongWireType)
    ensures data[0] in {0x10, 0x11, 0x13, 0x15, 0x16, 0x17} ==>
              DecDenom(data, d) == Err(WrongWireType) && DecGenesis(c, data, g) == Err(WrongWireType)
    ensures data[0] in {0x11, 0x12, 0x13, 0x15, 0x16, 0x17} ==> DecParams(c, data, p) == Err(WrongWireType)
  {
    BadTag(data, AUTHORITY_SCHEMA);
    BadTag(data, DENOM_SCHEMA);
    BadTag(data, PARAMS_SCHEMA);
    BadTag(data, GENESIS_SCHEMA);
    hide Fields;
  }

  predicate AllAnswer(c: CoinCodec, data: Bytes, a: Authority, d: GenesisDenom, p: Params, g: Genesis, e: WireError) {
    && DecAuthority(data, a) == Err(e) && DecDenom(data, d) == Err(e)
    && DecParams(c, data, p) == Err(e) && DecGenesis(c, data, g) == Err(e)
  }

  // ----- concatenated encodings --------------------------------------------------------------------

  /**
   * Two encodings in a row decode to the merge of the two states: coins and denoms add up, the
   * later gas wins unless it is zero.
   */
  lemma GenesisEncodingsMerge(c: CoinCodec, a: Genesis, b: Genesis)
    requires c.RoundTrips() && a.params.gas < TWO64 && b.params.gas < TWO64
    requires |EncGenesis(c, a) + EncGenesis(c, b)| < TWO63
    ensures DecGenesis(c, EncGenesis(c, a) + EncGenesis(c, b), NO_GENESIS) == Ok(MergedGenesis(a, b))
  {
    hide EncGenesis, DecGenesis;
    TheFourDecoders(c);
    GenesisRoundTrip(c, a);
    GenesisInto(c, a, b);
    ConcatenationMerges(GenesisDecoder(c), EncGenesis(c, a), EncGenesis(c, b), NO_GENESIS);
    hide Decoder.Dec, MergedGenesis;
  }

  /** The later admin wins unless it is empty. */
  lemma AuthorityEncodingsMerge(a: Authority, b: Authority)
    requires |EncAuthority(a) + EncAuthority(b)| < TWO63
    ensures DecAuthority(EncAuthority(a) + EncAuthority(b), NO_AUTHORITY) == Ok(MergedAuthority(a, b))
  {
    hide EncAuthority, DecAuthority;
    TheFourDecoders(CoinCodec(TallyCoin, ReadTallyCoin));
    AuthorityRoundTrip(a);
    AuthorityInto(a, b);
    ConcatenationMerges(AUTHORITY_DECODER, EncAuthority(a), EncAuthority(b), NO_AUTHORITY);
    hide Decoder.Dec, MergedAuthority;
  }

  /** The later denom wins unless it is empty, and the nested records merge. */
  lemma DenomEncodingsMerge(a: GenesisDenom, b: GenesisDenom)
    requires |EncDenom(a) + EncDenom(b)| < TWO63
    ensures DecDenom(EncDenom(a) + EncDenom(b), NO_DENOM) == Ok(MergedDenom(a, b))
  {
    hide EncDenom, DecDenom;
    TheFourDecoders(CoinCodec(TallyCoin, ReadTallyCoin));
    DenomRoundTrip(a);
    DenomInto(a, b);
    ConcatenationMerges(DENOM_DECODER, EncDenom(a), EncDenom(b), NO_DENOM);
    hide Decoder.Dec, MergedDenom;
  }

  /** Coins add up and the later gas wins unless it is zero. */
  lemma ParamsEncodingsMerge(c: CoinCodec, a: Params, b: Params)
    requires c.RoundTrips() && a.gas < TWO64 && b.gas < TWO64
    requires |EncParams(c, a) + EncParams(c, b)| < TWO63
    ensures DecParams(c, EncParams(c, a) + EncParams(c, b), NO_PARAMS) == Ok(MergedParams(a, b))
  {
    hide EncParams, DecParams;
    TheFourDecoders(c);
    ParamsRoundTrip(c, a);
    ParamsInto(c, a, b);
    ConcatenationMerges(ParamsDecoder(c), EncParams(c, a), EncParams(c, b), NO_PARAMS);
    hide Decoder.Dec, MergedParams;
  }
}
