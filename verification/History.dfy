/** Admins, supplies and module accounts over whole runs. */
module History {
  import opened Common
  import opened Messages
  import opened Denoms
  import opened Store
  import opened Factory
  import opened Effects
  import opened Safety
  import opened Bank

  // ----- admins ---------------------------------------------------------------------------

  /** A valid MsgChangeAdmin for `d` sent by `admin`. */
  predicate HandsOver(cfg: Config, msg: Msg, d: Bytes, admin: Bytes) {
    && msg.MsgChangeAdmin? && ValidateBasic(cfg, msg).None?
    && msg.denom == d && msg.sender == admin
  }

  /** The admin after a run, from the hand-over messages alone. */
  function Replay(cfg: Config, admin: Bytes, txs: seq<Tx>, d: Bytes): Bytes
    decreases |txs|
  {
    if txs == [] then admin
    else Replay(cfg, if HandsOver(cfg, txs[0].msg, d, admin) then txs[0].msg.newAdmin else admin, txs[1..], d)
  }

  /** One transaction: a registered denom stays registered, and only a hand-over changes its admin. */
  lemma AdminAfterOne(cfg: Config, s: State, tx: Tx, d: Bytes)
    requires cfg.bech.Lawful() && Agree(cfg, s) && d in s.tables.admins
    ensures var n := Deliver(cfg, s, tx).0;
            && d in n.tables.admins
            && n.AdminOf(d) == if HandsOver(cfg, tx.msg, d, s.AdminOf(d)) then tx.msg.newAdmin else s.AdminOf(d)
  {
    hide Create, MintTo, BurnFrom, Transfer, SendCoins, DenomRefusal, Agree;
    RegisteredHasMetadata(cfg, s, d);
    if Succeeds(cfg, s, tx) && tx.msg.MsgCreateDenom? {
      CreateLeavesOthers(cfg, s, tx.msg.sender, tx.msg.subdenom, tx.gasLeft, d);
    }
  }

  lemma RegisteredHasMetadata(cfg: Config, s: State, d: Bytes)
    requires Agree(cfg, s) && d in s.tables.admins
    ensures d in s.bank.meta
  {
    assert Registered(cfg, s, d);
  }

  /** Creating one denom changes nothing for the others. */
  lemma CreateLeavesOthers(cfg: Config, s: State, sender: Bytes, subdenom: Bytes, gasLeft: nat, d: Bytes)
    requires cfg.bech.Lawful() && cfg.bech.Parses(sender)
    requires Create(cfg, s, sender, subdenom, gasLeft).Ok?
    requires d in s.bank.meta
    ensures var n := Create(cfg, s, sender, subdenom, gasLeft).value;
            && n.HookOf(d) == s.HookOf(d)
            && d in n.bank.meta && n.bank.meta[d] == s.bank.meta[d]
            && (d in n.tables.admins <==> d in s.tables.admins) && n.AdminOf(d) == s.AdminOf(d)
  {
    CreateDoes(cfg, s, sender, subdenom, gasLeft);
    hide Create, Charge, GetTokenDenom, DeconstructDenom, NamedIn, SpelledCreator;
  }

  /**
   * The whole admin history of a registered denom is the replay of the hand-overs: nothing else
   * in any run has a say in who its admin is, and it stays registered forever.
   */
  lemma {:induction false} AdminHistoryIsReplay(cfg: Config, s: State, txs: seq<Tx>, d: Bytes)
    requires cfg.bech.Lawful() && Agree(cfg, s) && d in s.tables.admins
    ensures d in Run(cfg, s, txs).tables.admins
    ensures Run(cfg, s, txs).AdminOf(d) == Replay(cfg, s.AdminOf(d), txs, d)
    decreases |txs|
  {
    hide Agree, Deliver, HandsOver, State.AdminOf;
    if txs != [] {
      AdminAfterOne(cfg, s, txs[0], d);
      DeliverKeepsAgree(cfg, s, txs[0]);
      AdminHistoryIsReplay(cfg, Deliver(cfg, s, txs[0]).0, txs[1..], d);
    }
  }

  /** Creating a denom with bank metadata fails and changes nothing. */
  lemma KnownIsNotCreated(cfg: Config, s: State, tx: Tx)
    requires tx.msg.MsgCreateDenom? && GetTokenDenom(tx.msg.sender, tx.msg.subdenom).Ok?
    requires GetTokenDenom(tx.msg.sender, tx.msg.subdenom).value in s.bank.meta
    ensures !Succeeds(cfg, s, tx) && Deliver(cfg, s, tx).0 == s
  {
    hide GetTokenDenom, Charge, Register, DenomRefusal;
  }

  /** A registered denom can never be created again, at any later point of any run. */
  lemma NeverCreatedAgain(cfg: Config, s: State, txs: seq<Tx>, tx: Tx)
    requires cfg.bech.Lawful() && Agree(cfg, s)
    requires tx.msg.MsgCreateDenom? && GetTokenDenom(tx.msg.sender, tx.msg.subdenom).Ok?
    requires GetTokenDenom(tx.msg.sender, tx.msg.subdenom).value in s.tables.admins
    ensures !Succeeds(cfg, Run(cfg, s, txs), tx)
    ensures Deliver(cfg, Run(cfg, s, txs), tx).0 == Run(cfg, s, txs)
  {
    hide Agree, Run, GetTokenDenom, Deliver, Succeeds;
    var d := GetTokenDenom(tx.msg.sender, tx.msg.subdenom).value;
    StoresAgreeInEveryRun(cfg, s, txs);
    AdminHistoryIsReplay(cfg, s, txs, d);
    RegisteredHasMetadata(cfg, Run(cfg, s, txs), d);
    KnownIsNotCreated(cfg, Run(cfg, s, txs), tx);
  }

  /** Nobody hands over for the empty admin, and nobody hands over to it. */
  lemma NobodyHandsOver(cfg: Config, msg: Msg, d: Bytes, admin: Bytes)
    requires cfg.bech.Lawful()
    ensures !HandsOver(cfg, msg, d, [])
    ensures HandsOver(cfg, msg, d, admin) ==> msg.newAdmin != []
  {
  }

  /** The replayed admin is empty if and only if it was empty to begin with. */
  lemma {:induction false} ReplayIsEmptyExactly(cfg: Config, admin: Bytes, txs: seq<Tx>, d: Bytes)
    requires cfg.bech.Lawful()
    ensures Replay(cfg, admin, txs, d) == [] <==> admin == []
    decreases |txs|
  {
    hide ValidateBasic;
    if txs != [] {
      var msg := txs[0].msg;
      NobodyHandsOver(cfg, msg, d, admin);
      ReplayIsEmptyExactly(cfg, if HandsOver(cfg, msg, d, admin) then msg.newAdmin else admin, txs[1..], d);
    }
  }

  /** A registered denom without an admin. */
  predicate Ownerless(s: State, d: Bytes) {
    d in s.tables.admins && s.AdminOf(d) == []
  }

  /** No transaction takes a denom's admin away or creates a denom without one. */
  lemma OwnerlessAfterOne(cfg: Config, s: State, tx: Tx, d: Bytes)
    requires cfg.bech.Lawful() && Agree(cfg, s)
    ensures Ownerless(Deliver(cfg, s, tx).0, d) <==> Ownerless(s, d)
  {
    hide Create, MintTo, BurnFrom, Transfer, SendCoins, DenomRefusal, Agree, AuthorityOk, HandsOver;
    if d in s.tables.admins {
      AdminAfterOne(cfg, s, tx, d);
      NobodyHandsOver(cfg, tx.msg, d, s.AdminOf(d));
      hide Deliver;
    } else if Succeeds(cfg, s, tx) && tx.msg.MsgCreateDenom? {
      CreateDoes(cfg, s, tx.msg.sender, tx.msg.subdenom, tx.gasLeft);
      hide Charge, GetTokenDenom, DeconstructDenom, NamedIn, SpelledCreator;
    }
  }

  /**
   * Over any run the denoms without an admin stay the same: none loses its admin, none is created
   * without one and none that has lost it gets one back.
   */
  lemma {:induction false} OwnerlessDenomsAreFixed(cfg: Config, s: State, txs: seq<Tx>, d: Bytes)
    requires cfg.bech.Lawful() && Agree(cfg, s)
    ensures Ownerless(Run(cfg, s, txs), d) <==> Ownerless(s, d)
    decreases |txs|
  {
    hide Agree, Deliver, Ownerless;
    if txs != [] {
      OwnerlessAfterOne(cfg, s, txs[0], d);
      DeliverKeepsAgree(cfg, s, txs[0]);
      OwnerlessDenomsAreFixed(cfg, Deliver(cfg, s, txs[0]).0, txs[1..], d);
    }
  }

  // ----- supplies ------------------------------------------------------------------------------

  /** What a transaction mints of `d`, if it succeeds. */
  function MintedBy(cfg: Config, s: State, tx: Tx, d: Bytes): int {
    if tx.msg.MsgMint? && tx.msg.amount.denom == d && Succeeds(cfg, s, tx) then tx.msg.amount.amount else 0
  }

  function BurnedBy(cfg: Config, s: State, tx: Tx, d: Bytes): int {
    if tx.msg.MsgBurn? && tx.msg.amount.denom == d && Succeeds(cfg, s, tx) then tx.msg.amount.amount else 0
  }

  function Minted(cfg: Config, s: State, txs: seq<Tx>, d: Bytes): int
    decreases |txs|
  {
    if txs == [] then 0 else MintedBy(cfg, s, txs[0], d) + Minted(cfg, Deliver(cfg, s, txs[0]).0, txs[1..], d)
  }

  function Burned(cfg: Config, s: State, txs: seq<Tx>, d: Bytes): int
    decreases |txs|
  {
    if txs == [] then 0 else BurnedBy(cfg, s, txs[0], d) + Burned(cfg, Deliver(cfg, s, txs[0]).0, txs[1..], d)
  }

  /** Metadata is not money. */
  lemma SameMoney(b: Bank, n: Bank)
    requires n.supply == b.supply && n.balances == b.balances
    ensures n.Balanced() <==> b.Balanced()
    ensures forall a: Addr, d: Bytes :: n.Balance(a, d) == b.Balance(a, d)
    ensures forall d: Bytes :: n.Supply(d) == b.Supply(d)
  {
    assert forall d: Bytes :: n.Holders(d) == b.Holders(d);
    hide Sum, Bank.Holders;
  }

  /** A successful creation pays the fee and nothing else. */
  lemma CreatePays(cfg: Config, s: State, sender: Bytes, subdenom: Bytes, gasLeft: nat)
    requires cfg.bech.Lawful() && cfg.bech.Parses(sender)
    requires Create(cfg, s, sender, subdenom, gasLeft).Ok?
    ensures var n := Create(cfg, s, sender, subdenom, gasLeft).value;
            var from, pool := cfg.bech.parse(sender).value, cfg.moduleAddr(DISTRIBUTION);
            && n.bank.supply == s.bank.supply
            && ValidCoins(s.params.fee)
            && (forall a: Addr, d: Bytes ::
                 n.bank.Balance(a, d) == s.bank.Balance(a, d) + Gain(a, from, pool, s.params.fee, d))
            && (s.bank.Balanced() ==> n.bank.Balanced())
  {
    hide GetTokenDenom, Bank.HasSupply, Gain, Sum, ValidCoins, SendCoins, Bank.Balanced, Bank.Balance;
    var from, pool := cfg.bech.parse(sender).value, cfg.moduleAddr(DISTRIBUTION);
    SendCarries(s.bank, from, pool, s.params.fee);
    SendNeedsValidCoins(s.bank, from, pool, s.params.fee);
    SameMoney(SendCoins(s.bank, from, pool, s.params.fee).value, Create(cfg, s, sender, subdenom, gasLeft).value.bank);
  }

  lemma SendNeedsValidCoins(b: Bank, from: Addr, to: Addr, coins: seq<Coin>)
    ensures SendCoins(b, from, to, coins).Ok? ==> ValidCoins(coins)
  {
    hide ValidCoins;
  }

  /** The supply of every denom moves by what the transaction mints and burns; holdings follow. */
  lemma SupplyAfterOne(cfg: Config, s: State, tx: Tx, d: Bytes)
    requires cfg.Lawful() && s.bank.Balanced()
    ensures var n := Deliver(cfg, s, tx).0;
            && n.bank.Balanced()
            && n.bank.Supply(d) == s.bank.Supply(d) + MintedBy(cfg, s, tx, d) - BurnedBy(cfg, s, tx, d)
  {
    hide Create, MintTo, BurnFrom, Transfer, SendCoins, DenomRefusal, Config.IsModule, GetTokenDenom;
    hide Bank.Balanced, Bank.Balance;
    if Succeeds(cfg, s, tx) {
      match tx.msg
      case MsgCreateDenom(sender, subdenom) =>
        CreatePays(cfg, s, sender, subdenom, tx.gasLeft);
      case MsgMint(sender, amount, mintTo) =>
        MintToEffect(cfg, s.bank, amount, OrElse(mintTo, sender));
        hide Bank.Supply;
      case MsgBurn(sender, amount, burnFrom) =>
        BurnFromEffect(cfg, s.bank, amount, OrElse(burnFrom, sender));
        hide Bank.Supply;
      case MsgForceTransfer(sender, amount, from, to) =>
        TransferEffect(cfg, s.bank, amount, from, to);
      case MsgChangeAdmin(_, _, _) =>
      case MsgSetDenomMetadata(_, metadata) =>
        SameMoney(s.bank, Deliver(cfg, s, tx).0.bank);
      case MsgSetBeforeSendHook(_, _, _) =>
      case MsgSend(sender, recipient, coins) =>
        SendCarries(s.bank, cfg.bech.parse(sender).value, cfg.bech.parse(recipient).value, coins);
    }
  }

  /**
   * Conservation along every run: each denom's supply is the sum of all balances, and it is the
   * initial supply plus the successful mints minus the successful burns. Forced transfers,
   * direct sends and creation fees appear nowhere in the equation.
   */
  lemma {:induction false} SuppliesAreConserved(cfg: Config, s: State, txs: seq<Tx>, d: Bytes)
    requires cfg.Lawful() && s.bank.Balanced()
    ensures Run(cfg, s, txs).bank.Balanced()
    ensures Run(cfg, s, txs).bank.Supply(d) ==
            s.bank.Supply(d) + Minted(cfg, s, txs, d) - Burned(cfg, s, txs, d)
    decreases |txs|
  {
    hide Deliver, Bank.Balanced, Bank.Supply, MintedBy, BurnedBy;
    if txs != [] {
      SupplyAfterOne(cfg, s, txs[0], d);
      SuppliesAreConserved(cfg, Deliver(cfg, s, txs[0]).0, txs[1..], d);
    }
  }

  // ----- bank metadata -----------------------------------------------------------------------------

  /** Every metadata entry is filed under its own base denom and passes the bank's check of units. */
  ghost predicate Described(b: Bank) {
    forall d :: d in b.meta ==> b.meta[d].base == d && WellFormedUnits(b.meta[d])
  }

  lemma DescribedAfterOne(cfg: Config, s: State, tx: Tx)
    requires cfg.bech.Lawful() && Described(s.bank)
    requires forall m :: cfg.metadataOk(m) ==> WellFormedUnits(m)
    ensures Described(Deliver(cfg, s, tx).0.bank)
  {
    hide Create, MintTo, BurnFrom, Transfer, SendCoins, DenomRefusal, WellFormedUnits;
    if Succeeds(cfg, s, tx) {
      match tx.msg
      case MsgCreateDenom(sender, subdenom) =>
        CreateDescribes(cfg, s, sender, subdenom, tx.gasLeft);
      case MsgMint(sender, amount, mintTo) =>
        MintKeepsMeta(cfg, s.bank, amount, OrElse(mintTo, sender));
      case MsgBurn(sender, amount, burnFrom) =>
        BurnKeepsMeta(cfg, s.bank, amount, OrElse(burnFrom, sender));
      case MsgForceTransfer(sender, amount, from, to) =>
        TransferKeepsMeta(cfg, s.bank, amount, from, to);
      case MsgChangeAdmin(_, _, _) =>
      case MsgSetDenomMetadata(_, _) =>
      case MsgSetBeforeSendHook(_, _, _) =>
      case MsgSend(sender, recipient, coins) =>
        SendKeepsMeta(s.bank, cfg.bech.parse(sender).value, cfg.bech.parse(recipient).value, coins);
    }
  }

  lemma CreateDescribes(cfg: Config, s: State, sender: Bytes, subdenom: Bytes, gasLeft: nat)
    requires cfg.bech.Lawful() && cfg.bech.Parses(sender)
    requires Create(cfg, s, sender, subdenom, gasLeft).Ok? && Described(s.bank)
    ensures Described(Create(cfg, s, sender, subdenom, gasLeft).value.bank)
  {
    CreateDoes(cfg, s, sender, subdenom, gasLeft);
    hide Create, Charge, GetTokenDenom, DeconstructDenom, NamedIn, SpelledCreator, WellFormedUnits;
    var d := GetTokenDenom(sender, subdenom).value;
    DefaultMetadataIs(d);
    UndescribedIsWellFormed(DefaultMetadata(d), d);
  }

  /** Over any run the bank's metadata stays filed under its own base and well-formed. */
  lemma {:induction false} MetadataStaysWellFormed(cfg: Config, s: State, txs: seq<Tx>)
    requires cfg.bech.Lawful() && Described(s.bank)
    requires forall m :: cfg.metadataOk(m) ==> WellFormedUnits(m)
    ensures Described(Run(cfg, s, txs).bank)
    decreases |txs|
  {
    hide Deliver, Described, WellFormedUnits;
    if txs != [] {
      DescribedAfterOne(cfg, s, txs[0]);
      MetadataStaysWellFormed(cfg, Deliver(cfg, s, txs[0]).0, txs[1..]);
    }
  }

  // ----- denoms without an admin -----------------------------------------------------------------

  /** With an empty admin no message sets the denom's hook or metadata. */
  lemma NoAdminKeepsRecords(cfg: Config, s: State, tx: Tx, d: Bytes)
    requires cfg.bech.Lawful() && d in s.bank.meta && s.AdminOf(d) == []
    ensures var n := Deliver(cfg, s, tx).0;
            && n.HookOf(d) == s.HookOf(d)
            && d in n.bank.meta && n.bank.meta[d] == s.bank.meta[d]
  {
    hide Create, MintTo, BurnFrom, Transfer, SendCoins, DenomRefusal;
    if Succeeds(cfg, s, tx) {
      match tx.msg
      case MsgCreateDenom(sender, subdenom) =>
        CreateLeavesOthers(cfg, s, sender, subdenom, tx.gasLeft, d);
      case MsgMint(sender, amount, mintTo) =>
        MintKeepsMeta(cfg, s.bank, amount, OrElse(mintTo, sender));
      case MsgBurn(sender, amount, burnFrom) =>
        BurnKeepsMeta(cfg, s.bank, amount, OrElse(burnFrom, sender));
      case MsgForceTransfer(sender, amount, from, to) =>
        TransferKeepsMeta(cfg, s.bank, amount, from, to);
      case MsgChangeAdmin(_, _, _) =>
      case MsgSetDenomMetadata(_, _) =>
      case MsgSetBeforeSendHook(_, _, _) =>
      case MsgSend(sender, recipient, coins) =>
        SendKeepsMeta(s.bank, cfg.bech.parse(sender).value, cfg.bech.parse(recipient).value, coins);
    }
  }

  /** With an empty admin no factory message moves the denom, apart from a fee paid in it. */
  lemma NoAdminKeepsBalances(cfg: Config, s: State, tx: Tx, a: Addr, d: Bytes)
    requires cfg.Lawful() && s.bank.Balanced() && s.AdminOf(d) == []
    requires !tx.msg.MsgSend?
    requires tx.msg.MsgCreateDenom? ==> Total(s.params.fee, d) == 0
    ensures Deliver(cfg, s, tx).0.bank.Balance(a, d) == s.bank.Balance(a, d)
  {
    hide Create, MintTo, BurnFrom, Transfer, DenomRefusal, Config.IsModule, Bank.Balanced, Bank.Balance, Bank.Supply;
    if Succeeds(cfg, s, tx) {
      match tx.msg
      case MsgCreateDenom(sender, subdenom) =>
        CreatePays(cfg, s, sender, subdenom, tx.gasLeft);
      case MsgMint(sender, amount, mintTo) =>
        MintToEffect(cfg, s.bank, amount, OrElse(mintTo, sender));
      case MsgBurn(sender, amount, burnFrom) =>
        BurnFromEffect(cfg, s.bank, amount, OrElse(burnFrom, sender));
      case MsgForceTransfer(sender, amount, from, to) =>
        TransferEffect(cfg, s.bank, amount, from, to);
        OtherDenomTotals(amount, d);
        hide NewCoins;
      case MsgChangeAdmin(_, _, _) =>
      case MsgSetDenomMetadata(_, _) =>
        SameMoney(s.bank, Deliver(cfg, s, tx).0.bank);
      case MsgSetBeforeSendHook(_, _, _) =>
    }
  }

  lemma NoAdminKeepsSupply(cfg: Config, s: State, tx: Tx, d: Bytes)
    requires cfg.Lawful() && s.bank.Balanced() && s.AdminOf(d) == []
    ensures Deliver(cfg, s, tx).0.bank.Supply(d) == s.bank.Supply(d)
  {
    SupplyAfterOne(cfg, s, tx, d);
    hide Create, MintTo, BurnFrom, Transfer, DenomRefusal, Bank.Supply;
    assert tx.msg.sender == [] ==> ValidateBasic(cfg, tx.msg).Some?;
  }

  lemma OtherDenomTotals(c: Coin, d: Bytes)
    requires c.amount >= 0
    ensures d != c.denom ==> Total(NewCoins(c), d) == 0
  {
    OneCoin(c, d);
  }

  /**
   * A denom registered with an empty admin is frozen forever: over any run its admin stays empty
   * and its supply, its hook and its bank metadata stay what they are.
   */
  lemma {:induction false} NoAdminFreezesForever(cfg: Config, s: State, txs: seq<Tx>, d: Bytes)
    requires cfg.Lawful() && s.bank.Balanced() && Agree(cfg, s)
    requires d in s.tables.admins && s.AdminOf(d) == []
    ensures var n := Run(cfg, s, txs);
            && d in n.tables.admins && n.AdminOf(d) == []
            && n.bank.Supply(d) == s.bank.Supply(d)
            && n.HookOf(d) == s.HookOf(d)
            && d in n.bank.meta && d in s.bank.meta && n.bank.meta[d] == s.bank.meta[d]
    decreases |txs|
  {
    RegisteredHasMetadata(cfg, s, d);
    hide Deliver, Agree, Bank.Balanced, Bank.Supply, State.HookOf, State.AdminOf, HandsOver;
    if txs != [] {
      NoAdminKeepsRecords(cfg, s, txs[0], d);
      NoAdminKeepsSupply(cfg, s, txs[0], d);
      AdminAfterOne(cfg, s, txs[0], d);
      NobodyHandsOver(cfg, txs[0].msg, d, []);
      DeliverKeepsAgree(cfg, s, txs[0]);
      SupplyAfterOne(cfg, s, txs[0], d);
      NoAdminFreezesForever(cfg, Deliver(cfg, s, txs[0]).0, txs[1..], d);
    }
  }

  // ----- module accounts ----------------------------------------------------------------------------

  /** Minting, burning and forced transfers leave every module account's balances alone. */
  lemma ModuleAccountsAreUntouched(cfg: Config, s: State, tx: Tx, a: Addr, d: Bytes)
    requires cfg.Lawful() && s.bank.Balanced()
    requires cfg.IsModule(a)
    requires tx.msg.MsgMint? || tx.msg.MsgBurn? || tx.msg.MsgForceTransfer?
    ensures Deliver(cfg, s, tx).0.bank.Balance(a, d) == s.bank.Balance(a, d)
  {
    hide MintTo, BurnFrom, Transfer, DenomRefusal, Sum, Config.IsModule, Bank.Balanced, Bank.Balance, Bank.Supply;
    if Succeeds(cfg, s, tx) {
      match tx.msg
      case MsgMint(sender, amount, mintTo) =>
        MintToEffect(cfg, s.bank, amount, OrElse(mintTo, sender));
      case MsgBurn(sender, amount, burnFrom) =>
        BurnFromEffect(cfg, s.bank, amount, OrElse(burnFrom, sender));
      case MsgForceTransfer(sender, amount, from, to) =>
        TransferEffect(cfg, s.bank, amount, from, to);
    }
  }

  lemma {:induction false} TotalIsNat(coins: seq<Coin>, d: Bytes)
    requires forall i :: 0 <= i < |coins| ==> coins[i].amount > 0
    ensures Total(coins, d) >= 0
    decreases |coins|
  {
    if coins != [] {
      TotalIsNat(coins[1..], d);
    }
  }

  lemma FactoryAccountAfterOne(cfg: Config, s: State, tx: Tx, d: Bytes)
    requires cfg.Lawful() && s.bank.Balanced()
    requires s.bank.Balance(cfg.FactoryAddr(), d) == 0
    ensures Deliver(cfg, s, tx).0.bank.Balance(cfg.FactoryAddr(), d) == 0
  {
    hide MintTo, BurnFrom, Transfer, DenomRefusal, AuthorityOk;
    FactoryIsModule(cfg);
    if tx.msg.MsgMint? || tx.msg.MsgBurn? || tx.msg.MsgForceTransfer? {
      ModuleAccountsAreUntouched(cfg, s, tx, cfg.FactoryAddr(), d);
    } else if Succeeds(cfg, s, tx) && tx.msg.MsgCreateDenom? {
      CreatePays(cfg, s, tx.msg.sender, tx.msg.subdenom, tx.gasLeft);
      TotalIsNat(s.params.fee, d);
      hide Create, Total, Bank.Balance, Bank.Balanced;
    } else if Succeeds(cfg, s, tx) && tx.msg.MsgSend? {
      var from, to := cfg.bech.parse(tx.msg.sender).value, cfg.bech.parse(tx.msg.recipient).value;
      SendCarries(s.bank, from, to, tx.msg.coins);
      TotalIsNat(tx.msg.coins, d);
      hide SendCoins, Total, Bank.Balance, Bank.Balanced;
    }
  }

  /** With direct sends to it blocked, the factory's own account holds nothing in every run. */
  lemma {:induction false} FactoryAccountStaysEmpty(cfg: Config, s: State, txs: seq<Tx>, d: Bytes)
    requires cfg.Lawful() && s.bank.Balanced()
    requires s.bank.Balance(cfg.FactoryAddr(), d) == 0
    ensures Run(cfg, s, txs).bank.Balance(cfg.FactoryAddr(), d) == 0
    decreases |txs|
  {
    hide Deliver, Bank.Balanced, Bank.Balance, Config.Lawful;
    if txs != [] {
      FactoryAccountAfterOne(cfg, s, txs[0], d);
      SupplyAfterOne(cfg, s, txs[0], d);
      FactoryAccountStaysEmpty(cfg, Deliver(cfg, s, txs[0]).0, txs[1..], d);
    }
  }
}
