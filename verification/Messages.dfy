/**
 * The four messages of the token factory genesis, their wire form, and what the decoder
 * makes of any stream of fields.
 */
module Messages {
  import opened Common
  import opened Varint
  import opened Wire

  datatype Coin = Coin(denom: Bytes, amount: int)

  datatype Params = Params(fee: seq<Coin>, gas: nat)

  datatype Authority = Authority(admin: Bytes)

  datatype GenesisDenom = GenesisDenom(denom: Bytes, authority: Authority)

  datatype Genesis = Genesis(params: Params, denoms: seq<GenesisDenom>)

  const NO_PARAMS := Params([], 0)
  const NO_AUTHORITY := Authority([])
  const NO_DENOM := GenesisDenom([], NO_AUTHORITY)
  const NO_GENESIS := Genesis(NO_PARAMS, [])

  /** The SDK's own codec of a coin, which this repository only calls. */
  datatype CoinCodec = CoinCodec(enc: Coin -> Bytes, dec: Bytes -> Option<Coin>) {
    ghost predicate RoundTrips() {
      forall c: Coin :: dec(enc(c)) == Some(c)
    }
  }

  /** A coin as a sign, a tally of the amount and the denom: some codec does round trip. */
  function TallyCoin(c: Coin): Bytes {
    [if c.amount < 0 then 1 else 0] + Tally(if c.amount < 0 then -c.amount else c.amount, c.denom)
  }

  function Tally(n: nat, rest: Bytes): Bytes {
    if n == 0 then [1] + rest else [0] + Tally(n - 1, rest)
  }

  function ReadTallyCoin(s: Bytes): Option<Coin> {
    if s == [] then None
    else
      match ReadTally(s[1..])
      case None => None
      case Some((n, denom)) => Some(Coin(denom, (if s[0] == 1 then -1 else 1) * n))
  }

  function ReadTally(s: Bytes): Option<(nat, Bytes)>
    decreases |s|
  {
    if s == [] then None
    else if s[0] == 1 then Some((0, s[1..]))
    else
      match ReadTally(s[1..])
      case None => None
      case Some((n, rest)) => Some((n + 1, rest))
  }

  lemma {:induction false} TallyRoundTrip(n: nat, rest: Bytes)
    ensures ReadTally(Tally(n, rest)) == Some((n, rest))
  {
    if n > 0 {
      TallyRoundTrip(n - 1, rest);
    }
  }

  /** The law asked of the coin codec can be met. */
  lemma CoinCodecsExist()
    ensures CoinCodec(TallyCoin, ReadTallyCoin).RoundTrips()
  {
    forall c: Coin ensures ReadTallyCoin(TallyCoin(c)) == Some(c) {
      TallyRoundTrip(if c.amount < 0 then -c.amount else c.amount, c.denom);
    }
  }

  const AUTHORITY_SCHEMA := Schema(Lengthy, Unknown)
  const DENOM_SCHEMA := Schema(Lengthy, Lengthy)
  const PARAMS_SCHEMA := Schema(Lengthy, Number)
  const GENESIS_SCHEMA := Schema(Lengthy, Lengthy)

  // ----- wire form: empty strings and a zero number are left out, sub-messages never -----

  function AuthorityFields(m: Authority): Stream {
    if m.admin == [] then End else More(Blob(1, m.admin), End)
  }

  function EncAuthority(m: Authority): Bytes {
    EncStream(AuthorityFields(m))
  }

  function DenomFields(m: GenesisDenom): Stream {
    var authority := More(Blob(2, EncAuthority(m.authority)), End);
    if m.denom == [] then authority else More(Blob(1, m.denom), authority)
  }

  function EncDenom(m: GenesisDenom): Bytes {
    EncStream(DenomFields(m))
  }

  function FeeFields(c: CoinCodec, fee: seq<Coin>, rest: Stream): Stream {
    if fee == [] then rest else More(Blob(1, c.enc(fee[0])), FeeFields(c, fee[1..], rest))
  }

  function GasFields(gas: nat): Stream {
    if gas == 0 then End else More(Num(2, gas), End)
  }

  function EncParams(c: CoinCodec, m: Params): Bytes {
    EncStream(FeeFields(c, m.fee, GasFields(m.gas)))
  }

  function DenomsFields(ds: seq<GenesisDenom>): Stream {
    if ds == [] then End else More(Blob(2, EncDenom(ds[0])), DenomsFields(ds[1..]))
  }

  function GenesisFields(c: CoinCodec, m: Genesis): Stream {
    More(Blob(1, EncParams(c, m.params)), DenomsFields(m.denoms))
  }

  function EncGenesis(c: CoinCodec, m: Genesis): Bytes {
    EncStream(GenesisFields(c, m))
  }

  // ----- decoding: fields are taken into `m` one after the other ---------------------------

  /** Takes the fields of a stream into a message, until the end or the first error. */
  function Fold<M>(s: Stream, m: M, take: (M, Field) -> Result<M, WireError>): Result<M, WireError> {
    match s
    case End => Ok(m)
    case Fail(e) => Err(e)
    case More(f, rest) => (
      match take(m, f)
      case Err(e) => Err(e)
      case Ok(n) => Fold(rest, n, take))
  }

  function TakeAuthority(m: Authority, f: Field): Result<Authority, WireError> {
    match f
    case Blob(1, p) => Ok(Authority(p))
    case _ => Ok(m)
  }

  function MergeAuthority(s: Stream, m: Authority): Result<Authority, WireError> {
    Fold(s, m, TakeAuthority)
  }

  function DecAuthority(data: Bytes, m: Authority): Result<Authority, WireError> {
    MergeAuthority(Fields(data, 0, AUTHORITY_SCHEMA), m)
  }

  function TakeDenom(m: GenesisDenom, f: Field): Result<GenesisDenom, WireError> {
    match f
    case Blob(1, p) => Ok(m.(denom := p))
    case Blob(2, p) => (
      match DecAuthority(p, m.authority)
      case Err(e) => Err(e)
      case Ok(a) => Ok(m.(authority := a)))
    case _ => Ok(m)
  }

  function MergeDenom(s: Stream, m: GenesisDenom): Result<GenesisDenom, WireError> {
    Fold(s, m, TakeDenom)
  }

  function DecDenom(data: Bytes, m: GenesisDenom): Result<GenesisDenom, WireError> {
    MergeDenom(Fields(data, 0, DENOM_SCHEMA), m)
  }

  function TakeParams(c: CoinCodec): (Params, Field) -> Result<Params, WireError> {
    (m: Params, f: Field) =>
      match f
      case Blob(1, p) => (
        match c.dec(p)
        case None => Err(BadCoin)
        case Some(coin) => Ok(m.(fee := m.fee + [coin])))
      case Num(2, v) => Ok(m.(gas := v))
      case _ => Ok(m)
  }

  function MergeParams(c: CoinCodec, s: Stream, m: Params): Result<Params, WireError> {
    Fold(s, m, TakeParams(c))
  }

  function DecParams(c: CoinCodec, data: Bytes, m: Params): Result<Params, WireError> {
    MergeParams(c, Fields(data, 0, PARAMS_SCHEMA), m)
  }

  function TakeGenesis(c: CoinCodec): (Genesis, Field) -> Result<Genesis, WireError> {
    (m: Genesis, f: Field) =>
      match f
      case Blob(1, p) => (
        match DecParams(c, p, m.params)
        case Err(e) => Err(e)
        case Ok(params) => Ok(m.(params := params)))
      case Blob(2, p) => (
        match DecDenom(p, NO_DENOM)
        case Err(e) => Err(e)
        case Ok(d) => Ok(m.(denoms := m.denoms + [d])))
      case _ => Ok(m)
  }

  function MergeGenesis(c: CoinCodec, s: Stream, m: Genesis): Result<Genesis, WireError> {
    Fold(s, m, TakeGenesis(c))
  }

  function DecGenesis(c: CoinCodec, data: Bytes, m: Genesis): Result<Genesis, WireError> {
    MergeGenesis(c, Fields(data, 0, GENESIS_SCHEMA), m)
  }

  // ----- round trips, innermost message first ------------------------------------------------

  /** A complete encoding is read back as the stream it was made of. */
  lemma WholeStream(data: Bytes, schema: Schema, s: Stream)
    requires data == EncStream(s) && |data| < TWO63
    requires AllFit(s, schema)
    ensures Fields(data, 0, schema) == s
  {
    hide EncStream, AllFit, Fields;
    assert data[0..|data|] == data;
    StreamRoundTrip(data, 0, schema, s);
  }

  /** Merging `b` into `a`: its non-empty strings and numbers replace, its lists are appended. */
  function MergedAuthority(a: Authority, b: Authority): Authority {
    if b.admin == [] then a else b
  }

  function MergedDenom(a: GenesisDenom, b: GenesisDenom): GenesisDenom {
    GenesisDenom(if b.denom == [] then a.denom else b.denom, MergedAuthority(a.authority, b.authority))
  }

  function MergedParams(a: Params, b: Params): Params {
    Params(a.fee + b.fee, if b.gas == 0 then a.gas else b.gas)
  }

  function MergedGenesis(a: Genesis, b: Genesis): Genesis {
    Genesis(MergedParams(a.params, b.params), a.denoms + b.denoms)
  }

  lemma AuthorityInto(m: Authority, b: Authority)
    requires |EncAuthority(b)| < TWO63
    ensures DecAuthority(EncAuthority(b), m) == Ok(MergedAuthority(m, b))
  {
    hide Fields;
    WholeStream(EncAuthority(b), AUTHORITY_SCHEMA, AuthorityFields(b));
    assert MergeAuthority(End, MergedAuthority(m, b)) == Ok(MergedAuthority(m, b));
  }

  lemma AuthorityRoundTrip(m: Authority)
    requires |EncAuthority(m)| < TWO63
    ensures DecAuthority(EncAuthority(m), NO_AUTHORITY) == Ok(m)
  {
    AuthorityInto(NO_AUTHORITY, m);
    hide EncAuthority, DecAuthority;
  }

  lemma DenomInto(m: GenesisDenom, b: GenesisDenom)
    requires |EncDenom(b)| < TWO63
    ensures DecDenom(EncDenom(b), m) == Ok(MergedDenom(m, b))
  {
    hide Fields, EncAuthority, DecAuthority, MergedAuthority;
    BlobInside(DenomFields(b), Blob(2, EncAuthority(b.authority)));
    AuthorityInto(m.authority, b.authority);
    var tail := More(Blob(2, EncAuthority(b.authority)), End);
    assert AllFit(tail, DENOM_SCHEMA);
    WholeStream(EncDenom(b), DENOM_SCHEMA, DenomFields(b));
    var n := MergedDenom(m, b);
    assert MergeDenom(End, n) == Ok(n);
    assert MergeDenom(tail, n.(authority := m.authority)) == Ok(n);
  }

  lemma DenomRoundTrip(m: GenesisDenom)
    requires |EncDenom(m)| < TWO63
    ensures DecDenom(EncDenom(m), NO_DENOM) == Ok(m)
  {
    DenomInto(NO_DENOM, m);
    hide EncDenom, DecDenom;
  }

  /** `f` is one of the fields of `s`. */
  predicate Occurs(f: Field, s: Stream) {
    s.More? && (s.field == f || Occurs(f, s.rest))
  }

  /** A payload is shorter than the message it sits in. */
  lemma {:induction false} BlobInside(s: Stream, f: Field)
    requires Occurs(f, s) && f.Blob?
    ensures |f.payload| < |EncStream(s)|
    decreases s
  {
    hide Encode;
    if s.field != f {
      BlobInside(s.rest, f);
    }
  }

  lemma {:induction false} FeeRoundTrip(c: CoinCodec, fee: seq<Coin>, rest: Stream, m: Params)
    requires c.RoundTrips()
    ensures MergeParams(c, FeeFields(c, fee, rest), m) == MergeParams(c, rest, m.(fee := m.fee + fee))
    decreases |fee|
  {
    if fee == [] {
      assert m.fee + fee == m.fee;
    } else {
      FeeRoundTrip(c, fee[1..], rest, m.(fee := m.fee + [fee[0]]));
      assert m.fee + [fee[0]] + fee[1..] == m.fee + fee;
      assert c.dec(c.enc(fee[0])) == Some(fee[0]);
    }
  }

  lemma {:induction false} FeeFits(c: CoinCodec, fee: seq<Coin>, rest: Stream)
    requires AllFit(rest, PARAMS_SCHEMA)
    ensures AllFit(FeeFields(c, fee, rest), PARAMS_SCHEMA)
    decreases |fee|
  {
    if fee != [] {
      FeeFits(c, fee[1..], rest);
    }
  }

  lemma GasFits(gas: nat)
    requires gas < TWO64
    ensures AllFit(GasFields(gas), PARAMS_SCHEMA)
  {
  }

  lemma GasRoundTrip(c: CoinCodec, gas: nat, m: Params)
    ensures MergeParams(c, GasFields(gas), m) == Ok(m.(gas := if gas == 0 then m.gas else gas))
  {
    assert Fold(End, m.(gas := gas), TakeParams(c)) == Ok(m.(gas := gas));
  }

  lemma ParamsInto(c: CoinCodec, m: Params, b: Params)
    requires c.RoundTrips()
    requires b.gas < TWO64 && |EncParams(c, b)| < TWO63
    ensures DecParams(c, EncParams(c, b), m) == Ok(MergedParams(m, b))
  {
    var gas := GasFields(b.gas);
    GasFits(b.gas);
    GasRoundTrip(c, b.gas, m.(fee := m.fee + b.fee));
    hide Fields, FeeFields, EncStream, AllFit, MergeParams, GasFields, Fold, CoinCodec.RoundTrips;
    FeeFits(c, b.fee, gas);
    WholeStream(EncParams(c, b), PARAMS_SCHEMA, FeeFields(c, b.fee, gas));
    FeeRoundTrip(c, b.fee, gas, m);
  }

  lemma ParamsRoundTrip(c: CoinCodec, m: Params)
    requires c.RoundTrips()
    requires m.gas < TWO64 && |EncParams(c, m)| < TWO63
    ensures DecParams(c, EncParams(c, m), NO_PARAMS) == Ok(m)
  {
    ParamsInto(c, NO_PARAMS, m);
    assert [] + m.fee == m.fee;
    hide EncParams, DecParams;
  }

  lemma {:induction false} DenomsRoundTrip(c: CoinCodec, ds: seq<GenesisDenom>, m: Genesis)
    requires |EncStream(DenomsFields(ds))| < TWO63
    ensures MergeGenesis(c, DenomsFields(ds), m) == Ok(m.(denoms := m.denoms + ds))
    decreases |ds|
  {
    hide EncDenom, DecDenom, Encode;
    if ds == [] {
      assert m.denoms + ds == m.denoms;
    } else {
      DenomRoundTrip(ds[0]);
      DenomsRoundTrip(c, ds[1..], m.(denoms := m.denoms + [ds[0]]));
      assert m.denoms + [ds[0]] + ds[1..] == m.denoms + ds;
    }
  }

  lemma {:induction false} DenomsFit(ds: seq<GenesisDenom>)
    ensures AllFit(DenomsFields(ds), GENESIS_SCHEMA)
    decreases |ds|
  {
    if ds != [] {
      DenomsFit(ds[1..]);
    }
  }

  /** Unmarshal of a state's bytes into any message merges the two, through all three nesting levels. */
  lemma GenesisInto(c: CoinCodec, m: Genesis, b: Genesis)
    requires c.RoundTrips()
    requires b.params.gas < TWO64 && |EncGenesis(c, b)| < TWO63
    ensures DecGenesis(c, EncGenesis(c, b), m) == Ok(MergedGenesis(m, b))
  {
    hide Fields, EncParams, DecParams, DenomsFields, Encode;
    BlobInside(GenesisFields(c, b), Blob(1, EncParams(c, b.params)));
    ParamsInto(c, m.params, b.params);
    DenomsFit(b.denoms);
    WholeStream(EncGenesis(c, b), GENESIS_SCHEMA, GenesisFields(c, b));
    DenomsRoundTrip(c, b.denoms, m.(params := MergedParams(m.params, b.params)));
  }

  /**
   * Unmarshal of Marshal's bytes gives back the state, through all three nesting levels,
   * for any number of denoms and coins and any strings.
   */
  lemma GenesisRoundTrip(c: CoinCodec, m: Genesis)
    requires c.RoundTrips()
    requires m.params.gas < TWO64 && |EncGenesis(c, m)| < TWO63
    ensures DecGenesis(c, EncGenesis(c, m), NO_GENESIS) == Ok(m)
  {
    GenesisInto(c, NO_GENESIS, m);
    assert [] + m.denoms == m.denoms && [] + m.params.fee == m.params.fee;
    hide EncGenesis, DecGenesis;
  }

  // ----- any message -----------------------------------------------------------------------------

  /** One of the generated Unmarshal functions: what is declared, and what is done with a field. */
  datatype Decoder<!M(!new)> = Decoder(schema: Schema, take: (M, Field) -> Result<M, WireError>) {
    function Dec(data: Bytes, m: M): Result<M, WireError> {
      Fold(Fields(data, 0, schema), m, take)
    }

    ghost predicate IgnoresSkipped() {
      forall m: M :: take(m, Skipped) == Ok(m)
    }
  }

  const AUTHORITY_DECODER := Decoder(AUTHORITY_SCHEMA, TakeAuthority)
  const DENOM_DECODER := Decoder(DENOM_SCHEMA, TakeDenom)

  function ParamsDecoder(c: CoinCodec): Decoder<Params> {
    Decoder(PARAMS_SCHEMA, TakeParams(c))
  }

  function GenesisDecoder(c: CoinCodec): Decoder<Genesis> {
    Decoder(GENESIS_SCHEMA, TakeGenesis(c))
  }

  /** The four messages are decoded this way. */
  lemma TheFourDecoders(c: CoinCodec)
    ensures AUTHORITY_DECODER.IgnoresSkipped() && DENOM_DECODER.IgnoresSkipped()
    ensures ParamsDecoder(c).IgnoresSkipped() && GenesisDecoder(c).IgnoresSkipped()
    ensures forall data, m :: AUTHORITY_DECODER.Dec(data, m) == DecAuthority(data, m)
    ensures forall data, m :: DENOM_DECODER.Dec(data, m) == DecDenom(data, m)
    ensures forall data, m :: ParamsDecoder(c).Dec(data, m) == DecParams(c, data, m)
    ensures forall data, m :: GenesisDecoder(c).Dec(data, m) == DecGenesis(c, data, m)
  {
    hide Fold, Fields;
  }

  /** Same message, or an error on both sides. */
  predicate SameOutcome<T(==)>(a: Result<T, WireError>, b: Result<T, WireError>) {
    if a.Ok? then a == b else b.Err?
  }

  lemma {:induction false} FoldAlike<M>(s: Stream, t: Stream, m: M, take: (M, Field) -> Result<M, WireError>)
    requires Alike(s, t)
    ensures SameOutcome(Fold(s, m, take), Fold(t, m, take))
    decreases s
  {
    if s.More? && take(m, s.field).Ok? {
      FoldAlike(s.rest, t.rest, take(m, s.field).value, take);
    }
  }

  lemma {:induction false} FoldAppends<M>(s: Stream, t: Stream, m: M, take: (M, Field) -> Result<M, WireError>)
    ensures Fold(Append(s, t), m, take) == (if Fold(s, m, take).Ok? then Fold(t, Fold(s, m, take).value, take)
                                            else Fold(s, m, take))
    decreases s
  {
    if s.More? && take(m, s.field).Ok? {
      FoldAppends(s.rest, t, take(m, s.field).value, take);
    }
  }

  lemma {:induction false} FoldedIsComplete<M>(s: Stream, m: M, take: (M, Field) -> Result<M, WireError>)
    requires Fold(s, m, take).Ok?
    ensures Complete(s)
    decreases s
  {
    if s.More? {
      FoldedIsComplete(s.rest, take(m, s.field).value, take);
    }
  }

  /**
   * For each of the messages: a well-formed record with an undeclared field number, groups of any
   * depth included, may be inserted at any record boundary `pre | post` of any input without
   * changing the outcome.
   */
  lemma UnknownFieldsAreTransparent<M(!new)>(k: Decoder<M>, pre: Bytes, r: Rec, post: Bytes, m: M)
    requires k.IgnoresSkipped() && Undeclared(r, k.schema)
    requires |pre + EncRec(r) + post| < TWO63
    requires Complete(Fields(pre, 0, k.schema))
    ensures SameOutcome(k.Dec(pre + EncRec(r) + post, m), k.Dec(pre + post, m))
  {
    UndeclaredIsSkipped(pre, r, post, k.schema);
    var s, t := Fields(pre, 0, k.schema), Fields(post, 0, k.schema);
    var n := Fold(s, m, k.take);
    assert n.Ok? ==> Fold(More(Skipped, t), n.value, k.take) == Fold(t, n.value, k.take);
    hide Fields, Fold, Append, Alike, EncRec, Undeclared, Complete;
    FoldAlike(Fields(pre + EncRec(r) + post, 0, k.schema), Append(s, More(Skipped, t)), m, k.take);
    FoldAppends(s, More(Skipped, t), m, k.take);
    FoldAppends(s, t, m, k.take);
    FoldAlike(Fields(pre + post, 0, k.schema), Append(s, t), m, k.take);
  }

  /**
   * For each of the messages: decoding two accepted inputs one after the other is decoding their
   * concatenation. Repeated fields add up and for single fields the last one wins.
   */
  lemma ConcatenationMerges<M(!new)>(k: Decoder<M>, a: Bytes, b: Bytes, m: M)
    requires |a + b| < TWO63
    requires k.Dec(a, m).Ok?
    ensures SameOutcome(k.Dec(a + b, m), k.Dec(b, k.Dec(a, m).value))
  {
    hide Fields, Fold, Append, Alike, Complete;
    var s, t := Fields(a, 0, k.schema), Fields(b, 0, k.schema);
    FoldedIsComplete(s, m, k.take);
    FieldsSplit(a, b, 0, k.schema);
    FieldsShift(a, b, 0, k.schema);
    AppendAlike(s, Fields(a + b, |a|, k.schema), t);
    FoldAlike(Fields(a + b, 0, k.schema), Append(s, t), m, k.take);
    FoldAppends(s, t, m, k.take);
  }
}
