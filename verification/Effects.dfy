/** What minting, burning, transferring and paying do to balances and supplies, and when they succeed. */
module Effects {
  import opened Common
  import opened Messages
  import opened Denoms
  import opened Factory
  import opened Bank

  /**
   * `who` and the supply of `denom` gained `delta`; no other balance, no other supply and no
   * metadata changed, and supplies still match holdings.
   */
  ghost predicate Paid(b: Bank, n: Bank, who: Addr, denom: Bytes, delta: int) {
    && n.meta == b.meta
    && (forall a: Addr, d: Bytes ::
         n.Balance(a, d) == b.Balance(a, d) + (if a == who && d == denom then delta else 0))
    && (forall d: Bytes :: n.Supply(d) == b.Supply(d) + (if d == denom then delta else 0))
    && (b.Balanced() ==> n.Balanced())
  }

  /** The coins went from one account to the other; no supply and no metadata changed. */
  ghost predicate Carried(b: Bank, n: Bank, from: Addr, to: Addr, coins: seq<Coin>) {
    && n.meta == b.meta && n.supply == b.supply
    && (forall a: Addr, d: Bytes :: n.Balance(a, d) == b.Balance(a, d) + Gain(a, from, to, coins, d))
    && (b.Balanced() ==> n.Balanced())
  }

  lemma FactoryIsModule(cfg: Config)
    requires cfg.Lawful()
    ensures cfg.IsModule(cfg.FactoryAddr())
  {
  }

  lemma OneCoinIsValid(c: Coin)
    requires ValidCoin(c)
    ensures ValidCoins(NewCoins(c))
  {
  }

  /**
   * mintTo succeeds exactly for a factory denom and a recipient that is neither a module account
   * nor blocked; its whole effect is that the recipient and the supply gain the amount. The
   * factory's own account, which the coins pass through, ends where it started.
   */
  lemma MintToEffect(cfg: Config, b: Bank, amount: Coin, to: Bytes)
    requires cfg.Lawful() && ValidCoin(amount)
    ensures var r := MintTo(cfg, b, amount, to);
            var addr := cfg.bech.parse(to);
            && (r.Ok? <==> DenomRefusal(cfg, amount.denom).None? && addr.Some? &&
                           !cfg.IsModule(addr.value) && addr.value !in cfg.blocked)
            && (r.Ok? ==> Paid(b, r.value, addr.value, amount.denom, amount.amount))
  {
    hide Bank.Balanced, Bank.Balance, Bank.Supply, DenomRefusal, ValidCoins, NewCoins, Config.IsModule;
    OneCoinIsValid(amount);
    var addr := cfg.bech.parse(to);
    if DenomRefusal(cfg, amount.denom).None? && addr.Some? {
      IsModuleAccIsIsModule(cfg, addr.value);
      FactoryIsModule(cfg);
      if !cfg.IsModule(addr.value) {
        hide Config.IsModuleAcc, Config.Lawful;
        MintAndPay(b, cfg.FactoryAddr(), addr.value, amount);
      }
    }
  }

  /** Minting to one account and sending the coins on to another. */
  lemma MintAndPay(b: Bank, mid: Addr, to: Addr, c: Coin)
    requires ValidCoin(c) && mid != to
    ensures MintCoins(b, mid, c).Ok?
    ensures var r := SendCoins(MintCoins(b, mid, c).value, mid, to, NewCoins(c));
            r.Ok? && Paid(b, r.value, to, c.denom, c.amount)
  {
    MintSucceeds(b, mid, c);
    MintMoves(b, mid, c);
    var m := MintCoins(b, mid, c).value;
    SendSucceeds(m, mid, to, c);
    SendMoves(m, mid, to, NewCoins(c));
    forall d ensures Total(NewCoins(c), d) == if d == c.denom then c.amount else 0 { OneCoin(c, d); }
    var n := SendCoins(m, mid, to, NewCoins(c)).value;
    SameSupply(m, n);
    hide Bank.Balanced, Bank.Balance, Bank.Supply, NewCoins, Total, ValidCoin;
  }

  lemma SameSupply(b: Bank, n: Bank)
    requires n.supply == b.supply
    ensures forall d :: n.Supply(d) == b.Supply(d)
  {
  }

  lemma MintSucceeds(b: Bank, mod: Addr, c: Coin)
    requires ValidCoin(c)
    ensures MintCoins(b, mod, c).Ok?
  {
    OneCoinIsValid(c);
    hide ValidCoins;
    assert c.amount > 0 ==> Give(b.SetBalance(mod, c.denom, b.Balance(mod, c.denom) + c.amount), mod, []).Ok?;
    assert [c][1..] == [];
  }

  lemma SendSucceeds(b: Bank, from: Addr, to: Addr, c: Coin)
    requires ValidCoin(c)
    ensures SendCoins(b, from, to, NewCoins(c)).Ok? <==> b.Balance(from, c.denom) >= c.amount
  {
    OneCoinIsValid(c);
    hide ValidCoins;
    if c.amount > 0 {
      assert [c][1..] == [];
      if b.Balance(from, c.denom) >= c.amount {
        var t := b.SetBalance(from, c.denom, b.Balance(from, c.denom) - c.amount);
        assert Take(t, from, []) == Ok(t);
        assert Take(b, from, [c]) == Ok(t);
        var g := t.SetBalance(to, c.denom, t.Balance(to, c.denom) + c.amount);
        assert Give(g, to, []) == Ok(g);
        assert Give(t, to, [c]) == Ok(g);
      } else {
        assert Take(b, from, [c]).Err?;
      }
    }
  }

  lemma {:induction false} HoldingIsPartOfSum(m: map<Addr, nat>, a: Addr)
    requires a in m
    ensures m[a] <= Sum(m)
  {
    SumOut(m, a);
  }

  /**
   * burnFrom succeeds exactly for a factory denom and an account that is no module account and
   * holds the amount; its whole effect is that this account and the supply lose the amount.
   */
  lemma BurnFromEffect(cfg: Config, b: Bank, amount: Coin, from: Bytes)
    requires cfg.Lawful() && ValidCoin(amount) && b.Balanced()
    ensures var r := BurnFrom(cfg, b, amount, from);
            var addr := cfg.bech.parse(from);
            && (r.Ok? <==> DenomRefusal(cfg, amount.denom).None? && addr.Some? &&
                           !cfg.IsModule(addr.value) && b.Balance(addr.value, amount.denom) >= amount.amount)
            && (r.Ok? ==> Paid(b, r.value, addr.value, amount.denom, -amount.amount))
  {
    hide Bank.Balanced, Bank.Balance, Bank.Supply, DenomRefusal, ValidCoins, NewCoins, Config.IsModule;
    var addr := cfg.bech.parse(from);
    if DenomRefusal(cfg, amount.denom).None? && addr.Some? {
      IsModuleAccIsIsModule(cfg, addr.value);
      FactoryIsModule(cfg);
      if !cfg.IsModule(addr.value) {
        hide Config.IsModuleAcc, Config.Lawful;
        SendSucceeds(b, addr.value, cfg.FactoryAddr(), amount);
        if b.Balance(addr.value, amount.denom) >= amount.amount {
          PayAndBurn(b, addr.value, cfg.FactoryAddr(), amount);
        }
      }
    }
  }

  /** Sending coins to another account and burning them there. */
  lemma PayAndBurn(b: Bank, from: Addr, mid: Addr, c: Coin)
    requires ValidCoin(c) && mid != from && b.Balanced()
    requires b.Balance(from, c.denom) >= c.amount
    ensures SendCoins(b, from, mid, NewCoins(c)).Ok?
    ensures var r := BurnCoins(SendCoins(b, from, mid, NewCoins(c)).value, mid, c);
            r.Ok? && Paid(b, r.value, from, c.denom, -c.amount)
  {
    SendSucceeds(b, from, mid, c);
    SendMoves(b, from, mid, NewCoins(c));
    forall d ensures Total(NewCoins(c), d) == if d == c.denom then c.amount else 0 { OneCoin(c, d); }
    var m := SendCoins(b, from, mid, NewCoins(c)).value;
    SameSupply(b, m);
    BurnSucceeds(m, mid, c);
    BurnMoves(m, mid, c);
    hide Bank.Balanced, Bank.Balance, Bank.Supply, NewCoins, Total, ValidCoin;
  }

  lemma BurnSucceeds(b: Bank, mod: Addr, c: Coin)
    requires ValidCoin(c) && b.Balanced() && b.Balance(mod, c.denom) >= c.amount
    ensures BurnCoins(b, mod, c).Ok?
  {
    OneCoinIsValid(c);
    hide ValidCoins, Sum;
    if c.amount > 0 {
      HoldingIsPartOfSum(b.Holders(c.denom), mod);
      assert b.Supply(c.denom) == Sum(b.Holders(c.denom));
      assert [c][1..] == [];
      var t := b.SetBalance(mod, c.denom, b.Balance(mod, c.denom) - c.amount);
      assert Take(t, mod, []) == Ok(t);
      assert Take(b, mod, [c]) == Ok(t);
      assert t.Supply(c.denom) == b.Supply(c.denom);
    }
  }

  /**
   * forceTransfer succeeds exactly for a factory denom between two parseable accounts of which
   * neither is a module account, when all module accounts are found and the payer holds the
   * amount; it changes no supply and moves the amount from one end to the other.
   */
  lemma TransferEffect(cfg: Config, b: Bank, amount: Coin, from: Bytes, to: Bytes)
    requires cfg.Lawful() && ValidCoin(amount)
    ensures var r := Transfer(cfg, b, amount, from, to);
            var f, t := cfg.bech.parse(from), cfg.bech.parse(to);
            && (r.Ok? <==>
                 DenomRefusal(cfg, amount.denom).None? && f.Some? && t.Some? &&
                 cfg.AllFound() && !cfg.IsModule(f.value) && !cfg.IsModule(t.value) &&
                 b.Balance(f.value, amount.denom) >= amount.amount)
            && (r.Ok? ==> Carried(b, r.value, f.value, t.value, NewCoins(amount)))
  {
    hide Bank.Balanced, Bank.Balance, Bank.Supply, DenomRefusal, ValidCoins, NewCoins;
    hide Config.IsModule, ScanModules, Carried, SendCoins;
    var f, t := cfg.bech.parse(from), cfg.bech.parse(to);
    if DenomRefusal(cfg, amount.denom).None? && f.Some? && t.Some? {
      IsModuleAccIsIsModule(cfg, f.value);
      IsModuleAccIsIsModule(cfg, t.value);
      ScanAgreesWithMap(cfg, f.value, t.value);
      hide Config.IsModuleAcc, Config.Lawful;
      SendSucceeds(b, f.value, t.value, amount);
      SendCarries(b, f.value, t.value, NewCoins(amount));
    }
  }

  lemma SendCarries(b: Bank, from: Addr, to: Addr, coins: seq<Coin>)
    ensures SendCoins(b, from, to, coins).Ok? ==> Carried(b, SendCoins(b, from, to, coins).value, from, to, coins)
  {
    hide Bank.Balanced, Bank.Balance, SendCoins, Gain;
    if SendCoins(b, from, to, coins).Ok? {
      SendMoves(b, from, to, coins);
    }
  }
}
