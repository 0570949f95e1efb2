/** The SDK bank as the token factory uses it: balances, supply, denom metadata. */
module Bank {
  import opened Common
  import opened Order
  import opened Messages
  import opened Denoms

  datatype DenomUnit = DenomUnit(denom: Bytes, exponent: nat)

  datatype Metadata = Metadata(base: Bytes, name: Bytes, symbol: Bytes, display: Bytes, units: seq<DenomUnit>)

  /**
   * What the bank's Metadata.Validate asks of the units: the base unit comes first, with exponent
   * 0, exponents ascend, no unit is listed twice, and the display unit is one of them.
   */
  predicate WellFormedUnits(m: Metadata) {
    && m.units != [] && m.units[0] == DenomUnit(m.base, 0)
    && (forall i, j :: 0 <= i < j < |m.units| ==>
         m.units[i].exponent < m.units[j].exponent && m.units[i].denom != m.units[j].denom)
    && (exists u :: u in m.units && u.denom == m.display)
  }

  datatype BankError = InvalidCoins | InsufficientFunds | BlockedRecipient

  datatype Bank = Bank(
    balances: map<Bytes, map<Addr, nat>>,
    supply: map<Bytes, nat>,
    meta: map<Bytes, Metadata>)
  {
    function Holders(denom: Bytes): map<Addr, nat> {
      if denom in balances then balances[denom] else map[]
    }

    function Balance(a: Addr, denom: Bytes): nat {
      if a in Holders(denom) then Holders(denom)[a] else 0
    }

    function Supply(denom: Bytes): nat {
      if denom in supply then supply[denom] else 0
    }

    function SetBalance(a: Addr, denom: Bytes, n: nat): Bank {
      this.(balances := balances[denom := Holders(denom)[a := n]])
    }

    /** bank.HasSupply: zero supplies are not stored. */
    predicate HasSupply(denom: Bytes) {
      Supply(denom) > 0
    }

    /** The supply of every denom is what its holders hold together. */
    ghost predicate Balanced() {
      forall d: Bytes :: Supply(d) == Sum(Holders(d))
    }
  }

  // ----- sums over holders ------------------------------------------------------------

  ghost function Sum(m: map<Addr, nat>): nat
    decreases |m|
  {
    if m == map[] then 0
    else
      var a :| a in m;
      m[a] + Sum(m - {a})
  }

  /** The sum does not depend on which holder is counted first. */
  lemma {:induction false} SumOut(m: map<Addr, nat>, a: Addr)
    requires a in m
    ensures Sum(m) == m[a] + Sum(m - {a})
    decreases |m|
  {
    var b :| b in m && Sum(m) == m[b] + Sum(m - {b});
    if a != b {
      SumOut(m - {b}, a);
      SumOut(m - {a}, b);
      assert m - {b} - {a} == m - {a} - {b};
    }
  }

  lemma SumUpdate(m: map<Addr, nat>, a: Addr, n: nat)
    ensures Sum(m[a := n]) == Sum(m) - (if a in m then m[a] else 0) + n
  {
    SumOut(m[a := n], a);
    assert m[a := n] - {a} == m - {a};
    if a in m {
      SumOut(m, a);
    } else {
      assert m - {a} == m;
    }
  }

  // ----- coin lists ----------------------------------------------------------------------

  /** Coins.Validate: denoms valid and strictly ascending, amounts positive. */
  predicate ValidCoins(coins: seq<Coin>) {
    && (forall i :: 0 <= i < |coins| ==> ValidDenom(coins[i].denom) && coins[i].amount > 0)
    && (forall i, j :: 0 <= i < j < |coins| ==> Less(coins[i].denom, coins[j].denom))
  }

  /** Coin.IsValid */
  predicate ValidCoin(c: Coin) {
    ValidDenom(c.denom) && c.amount >= 0
  }

  /** sdk.NewCoins of one coin: a zero coin is dropped. */
  function NewCoins(c: Coin): seq<Coin> {
    if c.amount == 0 then [] else [c]
  }

  /** How much of `denom` a coin list carries. */
  function Total(coins: seq<Coin>, denom: Bytes): int {
    if coins == [] then 0
    else (if coins[0].denom == denom then coins[0].amount else 0) + Total(coins[1..], denom)
  }

  // ----- moving coins -----------------------------------------------------------------------

  function Take(b: Bank, from: Addr, coins: seq<Coin>): Result<Bank, BankError>
    decreases |coins|
  {
    if coins == [] then Ok(b)
    else
      var c := coins[0];
      if c.amount < 0 then Err(InvalidCoins)
      else if b.Balance(from, c.denom) < c.amount then Err(InsufficientFunds)
      else Take(b.SetBalance(from, c.denom, b.Balance(from, c.denom) - c.amount), from, coins[1..])
  }

  function Give(b: Bank, to: Addr, coins: seq<Coin>): Result<Bank, BankError>
    decreases |coins|
  {
    if coins == [] then Ok(b)
    else
      var c := coins[0];
      if c.amount < 0 then Err(InvalidCoins)
      else Give(b.SetBalance(to, c.denom, b.Balance(to, c.denom) + c.amount), to, coins[1..])
  }

  /** SendCoins */
  function SendCoins(b: Bank, from: Addr, to: Addr, coins: seq<Coin>): Result<Bank, BankError> {
    if !ValidCoins(coins) then Err(InvalidCoins)
    else
      match Take(b, from, coins)
      case Err(e) => Err(e)
      case Ok(taken) => Give(taken, to, coins)
  }

  /** MintCoins into the account of the minting module */
  function MintCoins(b: Bank, mod: Addr, c: Coin): Result<Bank, BankError> {
    if !ValidCoins(NewCoins(c)) then Err(InvalidCoins)
    else
      match Give(b, mod, NewCoins(c))
      case Err(e) => Err(e)
      case Ok(given) =>
        if c.amount <= 0 then Ok(given)
        else Ok(given.(supply := given.supply[c.denom := given.Supply(c.denom) + c.amount]))
  }

  /** BurnCoins from the account of the burning module */
  function BurnCoins(b: Bank, mod: Addr, c: Coin): Result<Bank, BankError> {
    if !ValidCoins(NewCoins(c)) then Err(InvalidCoins)
    else
      match Take(b, mod, NewCoins(c))
      case Err(e) => Err(e)
      case Ok(taken) =>
        if c.amount <= 0 then Ok(taken)
        else if taken.Supply(c.denom) < c.amount then Err(InsufficientFunds)
        else Ok(taken.(supply := taken.supply[c.denom := taken.Supply(c.denom) - c.amount]))
  }

  // ----- what moving does -----------------------------------------------------------------------

  /** Supply and metadata are as before, and every denom's holders changed by `sign * Total`. */
  ghost predicate Moved(b: Bank, n: Bank, who: Addr, coins: seq<Coin>, sign: int) {
    && n.supply == b.supply && n.meta == b.meta
    && (forall a: Addr, d: Bytes ::
         n.Balance(a, d) == b.Balance(a, d) + (if a == who then sign * Total(coins, d) else 0))
    && (forall d: Bytes :: Sum(n.Holders(d)) == Sum(b.Holders(d)) + sign * Total(coins, d))
  }

  lemma SetBalanceMoves(b: Bank, a: Addr, c: Coin, sign: int)
    requires b.Balance(a, c.denom) + sign * c.amount >= 0
    ensures Moved(b, b.SetBalance(a, c.denom, b.Balance(a, c.denom) + sign * c.amount), a, [c], sign)
  {
    var n := b.Balance(a, c.denom) + sign * c.amount;
    TotalOfOne(c);
    SetBalanceHolders(b, a, c.denom, n);
    hide Total, Sum, Bank.Holders, Bank.SetBalance, Bank.Balance;
    assert sign * 0 == 0;
  }

  lemma SetBalanceHolders(b: Bank, a: Addr, denom: Bytes, n: nat)
    ensures var m := b.SetBalance(a, denom, n);
            && m.supply == b.supply && m.meta == b.meta
            && (forall e: Addr, d: Bytes ::
                 m.Balance(e, d) == if e == a && d == denom then n else b.Balance(e, d))
            && (forall d: Bytes ::
                 Sum(m.Holders(d)) == Sum(b.Holders(d)) + if d == denom then n - b.Balance(a, denom) else 0)
  {
    SumUpdate(b.Holders(denom), a, n);
    hide Sum;
  }

  lemma TotalOfOne(c: Coin)
    ensures forall d: Bytes :: Total([c], d) == if d == c.denom then c.amount else 0
  {
    forall d ensures Total([c], d) == if d == c.denom then c.amount else 0 {
      assert Total([c], d) == (if c.denom == d then c.amount else 0) + Total([], d);
    }
  }

  lemma MovedTwice(b: Bank, s: Bank, n: Bank, who: Addr, coins: seq<Coin>, sign: int)
    requires coins != []
    requires sign == 1 || sign == -1
    requires Moved(b, s, who, coins[..1], sign) && Moved(s, n, who, coins[1..], sign)
    ensures Moved(b, n, who, coins, sign)
  {
    hide Sum, Bank.Balance, Bank.Holders;
    forall d ensures Total(coins, d) == Total(coins[..1], d) + Total(coins[1..], d) {
      assert coins[..1][1..] == [];
    }
    hide Total;
  }

  lemma {:induction false} TakeMoves(b: Bank, from: Addr, coins: seq<Coin>)
    requires Take(b, from, coins).Ok?
    ensures Moved(b, Take(b, from, coins).value, from, coins, -1)
    decreases |coins|
  {
    hide Sum, Moved, Bank.SetBalance, Bank.Balance;
    if coins == [] {
      NothingMoved(b, from, -1);
    } else {
      var c := coins[0];
      SetBalanceMoves(b, from, c, -1);
      assert coins[..1] == [c];
      var s := b.SetBalance(from, c.denom, b.Balance(from, c.denom) - c.amount);
      TakeMoves(s, from, coins[1..]);
      MovedTwice(b, s, Take(b, from, coins).value, from, coins, -1);
    }
  }

  lemma NothingMoved(b: Bank, who: Addr, sign: int)
    ensures Moved(b, b, who, [], sign)
  {
    hide Sum, Bank.Balance, Bank.Holders;
    assert forall d :: sign * Total([], d) == 0;
  }

  lemma {:induction false} GiveMoves(b: Bank, to: Addr, coins: seq<Coin>)
    requires Give(b, to, coins).Ok?
    ensures Moved(b, Give(b, to, coins).value, to, coins, 1)
    decreases |coins|
  {
    hide Sum, Moved, Bank.SetBalance, Bank.Balance;
    if coins == [] {
      NothingMoved(b, to, 1);
    } else {
      var c := coins[0];
      SetBalanceMoves(b, to, c, 1);
      assert coins[..1] == [c];
      var s := b.SetBalance(to, c.denom, b.Balance(to, c.denom) + c.amount);
      GiveMoves(s, to, coins[1..]);
      MovedTwice(b, s, Give(b, to, coins).value, to, coins, 1);
    }
  }

  /** The amounts in `coins` that `a` gains when `from` pays them to `to`. */
  ghost function Gain(a: Addr, from: Addr, to: Addr, coins: seq<Coin>, d: Bytes): int {
    (if a == to then Total(coins, d) else 0) - (if a == from then Total(coins, d) else 0)
  }

  /** Sending moves exactly the coins from one end to the other and leaves supplies and sums alone. */
  lemma SendMoves(b: Bank, from: Addr, to: Addr, coins: seq<Coin>)
    requires SendCoins(b, from, to, coins).Ok?
    ensures var n := SendCoins(b, from, to, coins).value;
            && n.supply == b.supply && n.meta == b.meta
            && (forall a: Addr, d: Bytes :: n.Balance(a, d) == b.Balance(a, d) + Gain(a, from, to, coins, d))
            && (forall d: Bytes :: Sum(n.Holders(d)) == Sum(b.Holders(d)))
            && (b.Balanced() ==> n.Balanced())
  {
    hide Sum, Bank.Balance, Bank.Holders, Total;
    TakeMoves(b, from, coins);
    GiveMoves(Take(b, from, coins).value, to, coins);
  }

  lemma OneCoin(c: Coin, d: Bytes)
    requires c.amount >= 0
    ensures Total(NewCoins(c), d) == if d == c.denom then c.amount else 0
  {
  }

  lemma MintMoves(b: Bank, mod: Addr, c: Coin)
    requires c.amount >= 0 && MintCoins(b, mod, c).Ok?
    ensures var n := MintCoins(b, mod, c).value;
            && n.meta == b.meta
            && (forall d: Bytes :: n.Supply(d) == b.Supply(d) + (if d == c.denom then c.amount else 0))
            && (forall a: Addr, d: Bytes ::
                 n.Balance(a, d) == b.Balance(a, d) + (if a == mod && d == c.denom then c.amount else 0))
            && (b.Balanced() ==> n.Balanced())
  {
    hide Sum;
    var n, g := MintCoins(b, mod, c).value, Give(b, mod, NewCoins(c)).value;
    GiveMoves(b, mod, NewCoins(c));
    forall d ensures Total(NewCoins(c), d) == if d == c.denom then c.amount else 0 { OneCoin(c, d); }
    hide NewCoins, Total, Give;
    assert forall d :: n.Holders(d) == g.Holders(d);
    hide Bank.Holders;
  }

  lemma BurnMoves(b: Bank, mod: Addr, c: Coin)
    requires c.amount >= 0 && BurnCoins(b, mod, c).Ok?
    ensures var n := BurnCoins(b, mod, c).value;
            && n.meta == b.meta
            && (forall d: Bytes :: n.Supply(d) == b.Supply(d) - (if d == c.denom then c.amount else 0))
            && (forall a: Addr, d: Bytes ::
                 n.Balance(a, d) == b.Balance(a, d) - (if a == mod && d == c.denom then c.amount else 0))
            && (b.Balanced() ==> n.Balanced())
  {
    hide Sum;
    var n, g := BurnCoins(b, mod, c).value, Take(b, mod, NewCoins(c)).value;
    TakeMoves(b, mod, NewCoins(c));
    forall d ensures Total(NewCoins(c), d) == if d == c.denom then c.amount else 0 { OneCoin(c, d); }
    hide NewCoins, Total, Take;
    assert forall d :: n.Holders(d) == g.Holders(d);
    hide Bank.Holders;
  }
}
