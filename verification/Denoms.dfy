/**
 * Factory denoms `factory/{creator}/{subdenom}`: splitting and joining, GetTokenDenom and
 * DeconstructDenom, over an abstract bech32.
 */
module Denoms {
  import opened Common

  type Addr = Bytes

  const SLASH: Byte := 0x2F

  const PIPE: Byte := 0x7C

  /** "factory" */
  const FACTORY: Bytes := [0x66, 0x61, 0x63, 0x74, 0x6F, 0x72, 0x79]

  const MAX_SUBDENOM_LENGTH: nat := 44
  const MAX_HRP_LENGTH: nat := 16
  /** The SDK's limit on bech32 strings. */
  const MAX_BECH32_LENGTH: nat := 1023

  const MAX_CREATOR_LENGTH: nat := 59 + MAX_HRP_LENGTH

  datatype DenomError =
    | InvalidSdkDenom
    | SubdenomTooLong
    | CreatorTooLong
    | InvalidCreator
    | InvalidDenom

  /** sdk.AccAddressFromBech32 and AccAddress.String */
  datatype Bech32 = Bech32(parse: Bytes -> Option<Addr>, show: Addr -> Bytes) {
    /** An address the printer and the parser agree on. */
    predicate Valid(a: Addr) {
      parse(show(a)) == Some(a)
    }

    /**
     * Parsed addresses print to strings that parse back and hold no separator; the empty string
     * and overlong strings are no addresses.
     */
    ghost predicate Lawful() {
      && parse([]) == None
      && (forall s: Bytes :: parse(s).Some? ==> Valid(parse(s).value))
      && (forall s: Bytes :: parse(s).Some? ==> |s| <= MAX_BECH32_LENGTH)
      && (forall s: Bytes :: parse(s).Some? ==> SLASH !in show(parse(s).value) && PIPE !in show(parse(s).value))
    }

    predicate Parses(s: Bytes) {
      parse(s).Some?
    }

    /** Printing the parse gives the same string. */
    predicate Canonical(s: Bytes) {
      parse(s).Some? && show(parse(s).value) == s
    }

    /** The canonical spelling of a string that parses. */
    function Respell(s: Bytes): Bytes
      requires parse(s).Some?
    {
      show(parse(s).value)
    }
  }

  // ----- strings.Split and strings.Join with "/" ------------------------------------

  function Split(s: Bytes): (parts: seq<Bytes>)
    ensures |parts| >= 1
    decreases |s|
  {
    if s == [] then [[]]
    else
      var rest := Split(s[1..]);
      if s[0] == SLASH then [[]] + rest else [[s[0]] + rest[0]] + rest[1..]
  }

  function JoinSlash(parts: seq<Bytes>): Bytes
    requires |parts| >= 1
    decreases |parts|
  {
    if |parts| == 1 then parts[0] else parts[0] + [SLASH] + JoinSlash(parts[1..])
  }

  /** Joining undoes splitting. */
  lemma {:induction false} JoinOfSplit(s: Bytes)
    ensures JoinSlash(Split(s)) == s
    decreases |s|
  {
    if s != [] {
      JoinOfSplit(s[1..]);
      var rest := Split(s[1..]);
      if s[0] == SLASH {
        assert ([[]] + rest)[1..] == rest;
        assert JoinSlash(Split(s)) == [] + [SLASH] + JoinSlash(rest);
      } else {
        var parts := [[s[0]] + rest[0]] + rest[1..];
        assert Split(s) == parts && parts[1..] == rest[1..];
        assert JoinSlash(parts) == [s[0]] + JoinSlash(rest);
      }
      assert [s[0]] + s[1..] == s;
    }
  }

  /** A part without slash in front of a slash is split off whole. */
  lemma {:induction false} SplitOffFirst(a: Bytes, b: Bytes)
    requires SLASH !in a
    ensures Split(a + [SLASH] + b) == [a] + Split(b)
    decreases |a|
  {
    var s := a + [SLASH] + b;
    if a == [] {
      assert s[1..] == b;
    } else {
      assert s[1..] == a[1..] + [SLASH] + b;
      SplitOffFirst(a[1..], b);
      assert [a[0]] + a[1..] == a;
      assert ([a[1..]] + Split(b))[1..] == Split(b);
    }
  }

  lemma {:induction false} PartsHaveNoSlash(s: Bytes, k: nat)
    requires k < |Split(s)|
    ensures SLASH !in Split(s)[k]
    decreases |s|
  {
    if s != [] {
      var rest := Split(s[1..]);
      if s[0] == SLASH {
        if k > 0 { PartsHaveNoSlash(s[1..], k - 1); }
      } else {
        PartsHaveNoSlash(s[1..], k);
        if k > 0 { assert Split(s)[k] == rest[k]; }
      }
    }
  }

  // ----- sdk.ValidateDenom --------------------------------------------------------------

  predicate Letter(b: Byte) {
    0x41 <= b <= 0x5A || 0x61 <= b <= 0x7A
  }

  /** `[a-zA-Z0-9/:._-]` */
  predicate DenomByte(b: Byte) {
    Letter(b) || 0x2D <= b <= 0x3A || b == 0x5F
  }

  /** `[a-zA-Z][a-zA-Z0-9/:._-]{2,127}` */
  predicate ValidDenom(d: Bytes) {
    3 <= |d| <= 128 && Letter(d[0]) && forall k :: 1 <= k < |d| ==> DenomByte(d[k])
  }

  // ----- building and taking apart --------------------------------------------------------

  /** `factory/{creator}/{subdenom}` */
  function FactoryDenom(creator: Bytes, subdenom: Bytes): Bytes {
    JoinSlash([FACTORY, creator, subdenom])
  }

  function GetTokenDenom(creator: Bytes, subdenom: Bytes): Result<Bytes, DenomError> {
    if |subdenom| > MAX_SUBDENOM_LENGTH then Err(SubdenomTooLong)
    else if |creator| > MAX_CREATOR_LENGTH then Err(CreatorTooLong)
    else if SLASH in creator then Err(InvalidCreator)
    else
      var denom := FactoryDenom(creator, subdenom);
      if ValidDenom(denom) then Ok(denom) else Err(InvalidSdkDenom)
  }

  datatype Parts = Parts(creator: Bytes, subdenom: Bytes)

  function DeconstructDenom(bech: Bech32, denom: Bytes): Result<Parts, DenomError> {
    if !ValidDenom(denom) then Err(InvalidSdkDenom)
    else
      var parts := Split(denom);
      if |parts| < 3 then Err(InvalidDenom)
      else if parts[0] != FACTORY then Err(InvalidDenom)
      else if !bech.Parses(parts[1]) then Err(InvalidDenom)
      else Ok(Parts(bech.Respell(parts[1]), JoinSlash(parts[2..])))
  }

  lemma FactoryDenomIs(creator: Bytes, subdenom: Bytes)
    ensures FactoryDenom(creator, subdenom) == FACTORY + [SLASH] + (creator + [SLASH] + subdenom)
  {
    var tail := [creator, subdenom];
    assert [FACTORY, creator, subdenom][1..] == tail && tail[1..] == [subdenom];
    assert JoinSlash(tail) == creator + [SLASH] + subdenom;
  }

  /** What a caller can check: both lengths, no slash in the creator, and the alphabet of denoms. */
  predicate Buildable(creator: Bytes, subdenom: Bytes) {
    && |subdenom| <= 44 && |creator| <= 75
    && SLASH !in creator
    && (forall b :: b in creator ==> DenomByte(b))
    && (forall b :: b in subdenom ==> DenomByte(b))
  }

  /** Behind `factory/` only the length and the alphabet are left of ValidateDenom. */
  lemma FactoryDenomIsValidExactly(creator: Bytes, subdenom: Bytes)
    ensures ValidDenom(FactoryDenom(creator, subdenom)) <==>
            && |creator| + |subdenom| <= 119
            && (forall b :: b in creator ==> DenomByte(b)) && (forall b :: b in subdenom ==> DenomByte(b))
  {
    FactoryDenomIs(creator, subdenom);
    hide FactoryDenom;
    var d, n := FactoryDenom(creator, subdenom), |creator|;
    assert forall k :: 0 <= k < 7 ==> d[k] == FACTORY[k] && Letter(FACTORY[k]);
    assert forall k :: 8 <= k < 8 + n ==> d[k] == creator[k - 8];
    assert forall k :: 9 + n <= k < |d| ==> d[k] == subdenom[k - 9 - n];
    assert forall k :: 0 <= k < n ==> d[8 + k] == creator[k];
    assert forall k :: 0 <= k < |subdenom| ==> d[9 + n + k] == subdenom[k];
    assert DenomByte(SLASH);
    hide Letter, DenomByte;
  }

  /**
   * Exactly which pairs make a denom: subdenoms may hold slashes, creators may not, and neither
   * has to be an address. The denom is `factory/`, the creator, a slash and the subdenom.
   */
  lemma GetTokenDenomExactly(creator: Bytes, subdenom: Bytes)
    ensures GetTokenDenom(creator, subdenom).Ok? <==> Buildable(creator, subdenom)
    ensures GetTokenDenom(creator, subdenom).Ok? ==>
              GetTokenDenom(creator, subdenom).value == FACTORY + [SLASH] + creator + [SLASH] + subdenom
    ensures GetTokenDenom(creator, subdenom) == Err(SubdenomTooLong) <==> |subdenom| > 44
    ensures GetTokenDenom(creator, subdenom) == Err(CreatorTooLong) <==> |subdenom| <= 44 && |creator| > 75
    ensures GetTokenDenom(creator, subdenom) == Err(InvalidCreator) <==>
            |subdenom| <= 44 && |creator| <= 75 && SLASH in creator
  {
    FactoryDenomIsValidExactly(creator, subdenom);
    FactoryDenomIs(creator, subdenom);
    hide ValidDenom, DenomByte, FactoryDenom;
  }

  lemma FactoryBytes()
    ensures FACTORY + [SLASH] == Ascii("factory/") && [SLASH] == Ascii("/") && [PIPE] == Ascii("|")
  {
  }

  lemma SplitOfFactoryDenom(creator: Bytes, subdenom: Bytes)
    requires SLASH !in creator
    ensures Split(FactoryDenom(creator, subdenom)) == [FACTORY, creator] + Split(subdenom)
  {
    hide Split, JoinSlash;
    FactoryDenomIs(creator, subdenom);
    SplitOffFirst(FACTORY, creator + [SLASH] + subdenom);
    SplitOffFirst(creator, subdenom);
  }

  /** A valid denom of the form `factory/{creator}/{subdenom}`, taken apart. */
  lemma DeconstructFactoryDenom(bech: Bech32, creator: Bytes, subdenom: Bytes)
    requires SLASH !in creator && ValidDenom(FactoryDenom(creator, subdenom))
    ensures DeconstructDenom(bech, FactoryDenom(creator, subdenom)) ==
            if bech.Parses(creator) then Ok(Parts(bech.Respell(creator), subdenom)) else Err(InvalidDenom)
  {
    hide Split, JoinSlash, ValidDenom;
    SplitOfFactoryDenom(creator, subdenom);
    JoinOfSplit(subdenom);
    var parts := [FACTORY, creator] + Split(subdenom);
    assert parts[2..] == Split(subdenom);
  }

  /**
   * Every denom GetTokenDenom builds is taken apart again: the subdenom comes back as it was,
   * slashes included, the creator in its canonical spelling; without a parseable creator the
   * denom is refused.
   */
  lemma TokenDenomRoundTrip(bech: Bech32, creator: Bytes, subdenom: Bytes)
    requires GetTokenDenom(creator, subdenom).Ok?
    ensures DeconstructDenom(bech, GetTokenDenom(creator, subdenom).value) ==
            if bech.Parses(creator) then Ok(Parts(bech.Respell(creator), subdenom)) else Err(InvalidDenom)
  {
    hide ValidDenom, DeconstructDenom, FactoryDenom;
    DeconstructFactoryDenom(bech, creator, subdenom);
  }

  /** The pair comes back exactly when the creator is canonical. */
  lemma TokenDenomRoundTripExactlyForCanonical(bech: Bech32, creator: Bytes, subdenom: Bytes)
    requires GetTokenDenom(creator, subdenom).Ok?
    ensures DeconstructDenom(bech, GetTokenDenom(creator, subdenom).value) == Ok(Parts(creator, subdenom))
            <==> bech.Canonical(creator)
  {
    TokenDenomRoundTrip(bech, creator, subdenom);
  }

  /** Distinct pairs give distinct denoms. */
  lemma DenomsAreDistinct(c1: Bytes, s1: Bytes, c2: Bytes, s2: Bytes)
    requires GetTokenDenom(c1, s1).Ok? && GetTokenDenom(c2, s2).Ok?
    ensures GetTokenDenom(c1, s1) == GetTokenDenom(c2, s2) <==> c1 == c2 && s1 == s2
  {
    hide Split, JoinSlash, ValidDenom;
    if GetTokenDenom(c1, s1) == GetTokenDenom(c2, s2) {
      SplitOfFactoryDenom(c1, s1);
      SplitOfFactoryDenom(c2, s2);
      var p, q := [FACTORY, c1] + Split(s1), [FACTORY, c2] + Split(s2);
      assert p == q;
      assert p[1] == c1 && q[1] == c2;
      assert p[2..] == Split(s1) && q[2..] == Split(s2);
      JoinOfSplit(s1);
      JoinOfSplit(s2);
    }
  }

  /** The two length limits alone keep a built denom within the SDK's 128 bytes. */
  lemma BuiltDenomsAreShort(creator: Bytes, subdenom: Bytes)
    requires |subdenom| <= MAX_SUBDENOM_LENGTH && |creator| <= MAX_CREATOR_LENGTH
    ensures |FactoryDenom(creator, subdenom)| <= 128
  {
    FactoryDenomIs(creator, subdenom);
  }

  /** The creator as it is spelled inside a factory denom. */
  function SpelledCreator(denom: Bytes): Bytes {
    var parts := Split(denom);
    if |parts| < 2 then [] else parts[1]
  }

  /** What a successful DeconstructDenom says about the denom. */
  lemma DeconstructInverts(bech: Bech32, denom: Bytes)
    requires DeconstructDenom(bech, denom).Ok?
    ensures var p := DeconstructDenom(bech, denom).value;
            var spelled := SpelledCreator(denom);
            && bech.Parses(spelled) && SLASH !in spelled && p.creator == bech.Respell(spelled)
            && denom == FactoryDenom(spelled, p.subdenom)
  {
    var parts := Split(denom);
    JoinOfSplit(denom);
    PartsHaveNoSlash(denom, 1);
    var tail := parts[1..];
    assert tail[1..] == parts[2..];
    assert JoinSlash(parts) == FACTORY + [SLASH] + JoinSlash(tail);
    FactoryDenomIs(parts[1], JoinSlash(parts[2..]));
  }

  /** `denom` is `factory/{creator}/{subdenom}` for an address without slash. */
  predicate SpelledAs(bech: Bech32, denom: Bytes, creator: Bytes, subdenom: Bytes) {
    && SLASH !in creator && bech.Parses(creator)
    && denom == FACTORY + [SLASH] + creator + [SLASH] + subdenom
  }

  /**
   * Exactly which denoms DeconstructDenom accepts, whatever the lengths of their parts, and what
   * it makes of them.
   */
  lemma DeconstructExactly(bech: Bech32, denom: Bytes)
    ensures DeconstructDenom(bech, denom).Ok? <==>
            ValidDenom(denom) && exists creator, subdenom :: SpelledAs(bech, denom, creator, subdenom)
    ensures forall creator, subdenom :: ValidDenom(denom) && SpelledAs(bech, denom, creator, subdenom) ==>
              DeconstructDenom(bech, denom) == Ok(Parts(bech.Respell(creator), subdenom))
    ensures DeconstructDenom(bech, denom) == Err(InvalidSdkDenom) <==> !ValidDenom(denom)
  {
    forall creator, subdenom | ValidDenom(denom) && SpelledAs(bech, denom, creator, subdenom)
      ensures DeconstructDenom(bech, denom) == Ok(Parts(bech.Respell(creator), subdenom))
    {
      FactoryDenomIs(creator, subdenom);
      assert denom == FactoryDenom(creator, subdenom);
      hide DeconstructDenom, FactoryDenom, ValidDenom;
      DeconstructFactoryDenom(bech, creator, subdenom);
    }
    if DeconstructDenom(bech, denom).Ok? {
      DeconstructInverts(bech, denom);
      var creator, subdenom := SpelledCreator(denom), DeconstructDenom(bech, denom).value.subdenom;
      FactoryDenomIs(creator, subdenom);
      assert SpelledAs(bech, denom, creator, subdenom);
    }
    hide ValidDenom, SpelledAs, Split;
  }

  lemma SpelledCreatorOfBuilt(creator: Bytes, subdenom: Bytes)
    requires GetTokenDenom(creator, subdenom).Ok?
    ensures SpelledCreator(GetTokenDenom(creator, subdenom).value) == creator
  {
    SplitOfFactoryDenom(creator, subdenom);
  }
}
