/**
 * When each message succeeds, said by who sends it and what it asks for, and what it then does.
 * All of it holds in every reachable state, where the structures agree.
 */
module Handlers {
  import opened Common
  import opened Order
  import opened Messages
  import opened Denoms
  import opened Store
  import opened Factory
  import opened Effects
  import opened Safety
  import opened Bank

  /** Only the bank changed. */
  predicate OnlyBank(s: State, n: State) {
    n == s.(bank := n.bank)
  }

  /** A sender that is the admin, which only a registered denom's admin can be. */
  ghost predicate ByAdmin(cfg: Config, s: State, sender: Bytes, denom: Bytes) {
    cfg.bech.Parses(sender) && denom in s.tables.admins && s.tables.admins[denom].admin == sender
  }

  lemma AdminCheck(cfg: Config, s: State, sender: Bytes, denom: Bytes)
    requires cfg.bech.Lawful() && Agree(cfg, s) && cfg.bech.Parses(sender)
    ensures sender == s.AdminOf(denom) <==> ByAdmin(cfg, s, sender, denom)
    ensures ByAdmin(cfg, s, sender, denom) ==> denom in s.bank.meta && DenomRefusal(cfg, denom).None?
  {
    assert denom in s.tables.admins ==> Registered(cfg, s, denom);
    hide Agree, DeconstructDenom;
  }

  lemma MintExactly(cfg: Config, s: State, tx: Tx)
    requires cfg.Lawful() && Agree(cfg, s) && tx.msg.MsgMint?
    ensures var m, to := tx.msg, cfg.bech.parse(OrElse(tx.msg.mintTo, tx.msg.sender));
            && (Succeeds(cfg, s, tx) <==>
                 && ByAdmin(cfg, s, m.sender, m.amount.denom)
                 && ValidCoin(m.amount) && m.amount.amount > 0
                 && to.Some? && !cfg.IsModule(to.value) && to.value !in cfg.blocked)
            && (Succeeds(cfg, s, tx) ==>
                 && OnlyBank(s, Deliver(cfg, s, tx).0)
                 && Paid(s.bank, Deliver(cfg, s, tx).0.bank, to.value, m.amount.denom, m.amount.amount))
  {
    hide Agree, Paid, MintTo, DenomRefusal, Config.IsModule, ByAdmin, ValidDenom;
    var m := tx.msg;
    if cfg.bech.Parses(m.sender) {
      AdminCheck(cfg, s, m.sender, m.amount.denom);
      if ValidCoin(m.amount) {
        MintToEffect(cfg, s.bank, m.amount, OrElse(m.mintTo, m.sender));
      }
    } else {
      NotByAdmin(cfg, s, m.sender, m.amount.denom);
    }
  }

  lemma NotByAdmin(cfg: Config, s: State, sender: Bytes, denom: Bytes)
    requires !cfg.bech.Parses(sender)
    ensures !ByAdmin(cfg, s, sender, denom)
  {
  }

  lemma BurnExactly(cfg: Config, s: State, tx: Tx)
    requires cfg.Lawful() && Agree(cfg, s) && s.bank.Balanced() && tx.msg.MsgBurn?
    ensures var m, who := tx.msg, OrElse(tx.msg.burnFrom, tx.msg.sender);
            var from := cfg.bech.parse(who);
            && (Succeeds(cfg, s, tx) <==>
                 && ByAdmin(cfg, s, m.sender, m.amount.denom)
                 && ValidCoin(m.amount) && m.amount.amount > 0
                 && !cfg.rawModule(who) && from.Some? && !cfg.IsModule(from.value)
                 && s.bank.Balance(from.value, m.amount.denom) >= m.amount.amount)
            && (Succeeds(cfg, s, tx) ==>
                 && OnlyBank(s, Deliver(cfg, s, tx).0)
                 && Paid(s.bank, Deliver(cfg, s, tx).0.bank, from.value, m.amount.denom, -m.amount.amount))
  {
    hide Agree, Paid, BurnFrom, DenomRefusal, Config.IsModule, ByAdmin, ValidDenom, Bank.Balanced, Bank.Balance;
    var m := tx.msg;
    if cfg.bech.Parses(m.sender) {
      AdminCheck(cfg, s, m.sender, m.amount.denom);
      if ValidCoin(m.amount) {
        BurnFromEffect(cfg, s.bank, m.amount, OrElse(m.burnFrom, m.sender));
      }
    } else {
      NotByAdmin(cfg, s, m.sender, m.amount.denom);
    }
  }

  lemma ForceTransferExactly(cfg: Config, s: State, tx: Tx)
    requires cfg.Lawful() && Agree(cfg, s) && tx.msg.MsgForceTransfer?
    ensures var m := tx.msg;
            var from, to := cfg.bech.parse(m.transferFrom), cfg.bech.parse(m.transferTo);
            && (Succeeds(cfg, s, tx) <==>
                 && ByAdmin(cfg, s, m.sender, m.amount.denom) && ValidCoin(m.amount)
                 && from.Some? && to.Some? && cfg.AllFound()
                 && !cfg.IsModule(from.value) && !cfg.IsModule(to.value)
                 && s.bank.Balance(from.value, m.amount.denom) >= m.amount.amount)
            && (Succeeds(cfg, s, tx) ==>
                 && OnlyBank(s, Deliver(cfg, s, tx).0)
                 && Carried(s.bank, Deliver(cfg, s, tx).0.bank, from.value, to.value, NewCoins(m.amount)))
  {
    hide Agree, Carried, Transfer, DenomRefusal, Config.IsModule, Config.AllFound, ByAdmin, ValidDenom, Bank.Balance;
    var m := tx.msg;
    if cfg.bech.Parses(m.sender) {
      AdminCheck(cfg, s, m.sender, m.amount.denom);
      if ValidCoin(m.amount) {
        TransferEffect(cfg, s.bank, m.amount, m.transferFrom, m.transferTo);
      }
    } else {
      NotByAdmin(cfg, s, m.sender, m.amount.denom);
    }
  }

  lemma ChangeAdminExactly(cfg: Config, s: State, tx: Tx)
    requires cfg.bech.Lawful() && Agree(cfg, s) && tx.msg.MsgChangeAdmin?
    ensures var m, n := tx.msg, Deliver(cfg, s, tx).0;
            && (Succeeds(cfg, s, tx) <==> ByAdmin(cfg, s, m.sender, m.denom) && cfg.bech.Parses(m.newAdmin))
            && (Succeeds(cfg, s, tx) ==>
                 && n.bank == s.bank && n.tables.hooks == s.tables.hooks && n.tables.index == s.tables.index
                 && n.AdminOf(m.denom) == m.newAdmin
                 && forall d :: d != m.denom ==> n.AdminOf(d) == s.AdminOf(d))
  {
    hide Agree, DenomRefusal, ByAdmin;
    if cfg.bech.Parses(tx.msg.sender) {
      AdminCheck(cfg, s, tx.msg.sender, tx.msg.denom);
    } else {
      NotByAdmin(cfg, s, tx.msg.sender, tx.msg.denom);
    }
  }

  lemma SetMetadataExactly(cfg: Config, s: State, tx: Tx)
    requires cfg.bech.Lawful() && Agree(cfg, s) && tx.msg.MsgSetDenomMetadata?
    ensures var m, n := tx.msg, Deliver(cfg, s, tx).0;
            && (Succeeds(cfg, s, tx) <==> ByAdmin(cfg, s, m.sender, m.metadata.base) && cfg.metadataOk(m.metadata))
            && (Succeeds(cfg, s, tx) ==>
                 && n.tables == s.tables && n.bank.supply == s.bank.supply && n.bank.balances == s.bank.balances
                 && m.metadata.base in n.bank.meta && n.bank.meta[m.metadata.base] == m.metadata
                 && forall d :: d != m.metadata.base ==>
                      (d in n.bank.meta <==> d in s.bank.meta) &&
                      (d in s.bank.meta ==> n.bank.meta[d] == s.bank.meta[d]))
  {
    hide Agree, DenomRefusal, ByAdmin;
    if cfg.bech.Parses(tx.msg.sender) {
      AdminCheck(cfg, s, tx.msg.sender, tx.msg.metadata.base);
    } else {
      NotByAdmin(cfg, s, tx.msg.sender, tx.msg.metadata.base);
    }
  }

  lemma SetHookExactly(cfg: Config, s: State, tx: Tx)
    requires cfg.bech.Lawful() && Agree(cfg, s) && tx.msg.MsgSetBeforeSendHook?
    ensures var m, n := tx.msg, Deliver(cfg, s, tx).0;
            && (Succeeds(cfg, s, tx) <==>
                 && ByAdmin(cfg, s, m.sender, m.denom)
                 && (m.contract == [] ||
                     (cfg.bech.Parses(m.contract) && cfg.hasContracts && tx.probe != Aborts && tx.probe != NotThere)))
            && (Succeeds(cfg, s, tx) ==>
                 && n.bank == s.bank && n.tables.admins == s.tables.admins && n.tables.index == s.tables.index
                 && n.HookOf(m.denom) == m.contract
                 && forall d :: d != m.denom ==> n.HookOf(d) == s.HookOf(d))
  {
    hide Agree, DenomRefusal, ByAdmin;
    if cfg.bech.Parses(tx.msg.sender) {
      AdminCheck(cfg, s, tx.msg.sender, tx.msg.denom);
    } else {
      NotByAdmin(cfg, s, tx.msg.sender, tx.msg.denom);
    }
  }

  // ----- paying fees ------------------------------------------------------------------------

  /** `who` holds every coin of the list. */
  predicate CanPay(b: Bank, who: Addr, coins: seq<Coin>) {
    forall i :: 0 <= i < |coins| ==> b.Balance(who, coins[i].denom) >= coins[i].amount
  }

  predicate AllPositive(coins: seq<Coin>) {
    forall i :: 0 <= i < |coins| ==> coins[i].amount > 0
  }

  predicate DistinctDenoms(coins: seq<Coin>) {
    forall i, j :: 0 <= i < j < |coins| ==> coins[i].denom != coins[j].denom
  }

  lemma {:induction false} TakeExactly(b: Bank, from: Addr, coins: seq<Coin>)
    requires AllPositive(coins) && DistinctDenoms(coins)
    ensures Take(b, from, coins).Ok? <==> CanPay(b, from, coins)
    decreases |coins|
  {
    if coins != [] && b.Balance(from, coins[0].denom) >= coins[0].amount {
      var c, rest := coins[0], coins[1..];
      var n := b.SetBalance(from, c.denom, b.Balance(from, c.denom) - c.amount);
      TakeExactly(n, from, rest);
      assert forall i :: 0 <= i < |rest| ==> rest[i] == coins[i + 1] && rest[i].denom != c.denom;
      assert forall d :: d != c.denom ==> n.Balance(from, d) == b.Balance(from, d);
      hide Bank.Balance, Bank.SetBalance, Take;
      assert forall i :: 0 < i < |coins| ==> coins[i] == rest[i - 1];
    }
  }

  lemma {:induction false} GiveSucceeds(b: Bank, to: Addr, coins: seq<Coin>)
    requires AllPositive(coins)
    ensures Give(b, to, coins).Ok?
    decreases |coins|
  {
    if coins != [] {
      GiveSucceeds(b.SetBalance(to, coins[0].denom, b.Balance(to, coins[0].denom) + coins[0].amount), to, coins[1..]);
    }
  }

  /** A send succeeds exactly for a valid list of coins that the payer holds. */
  lemma SendExactly(b: Bank, from: Addr, to: Addr, coins: seq<Coin>)
    ensures SendCoins(b, from, to, coins).Ok? <==> ValidCoins(coins) && CanPay(b, from, coins)
  {
    if ValidCoins(coins) {
      hide ValidDenom, Le;
      assert AllPositive(coins) && DistinctDenoms(coins);
      hide ValidCoins, Take, Give, CanPay;
      TakeExactly(b, from, coins);
      if Take(b, from, coins).Ok? {
        GiveSucceeds(Take(b, from, coins).value, to, coins);
      }
    }
  }

  /** What a new denom looks like: its creator is its admin and it is filed under its creator. */
  ghost predicate Created(cfg: Config, s: State, n: State, creator: Bytes, d: Bytes) {
    && n.tables.admins == s.tables.admins[d := Authority(creator)]
    && n.tables.index == s.tables.index + {(creator, d)}
    && n.tables.hooks == s.tables.hooks && n.params == s.params
    && n.bank.meta.Keys == s.bank.meta.Keys + {d} && Undescribed(n.bank.meta[d], d)
    && (forall e :: e in s.bank.meta && e != d ==> n.bank.meta[e] == s.bank.meta[e])
    && n.bank.supply == s.bank.supply
  }

  lemma {:induction false} TakeAnswers(b: Bank, from: Addr, coins: seq<Coin>)
    requires AllPositive(coins)
    ensures Take(b, from, coins).Ok? || Take(b, from, coins) == Err(InsufficientFunds)
    decreases |coins|
  {
    if coins != [] && b.Balance(from, coins[0].denom) >= coins[0].amount {
      var c := coins[0];
      TakeAnswers(b.SetBalance(from, c.denom, b.Balance(from, c.denom) - c.amount), from, coins[1..]);
    }
  }

  lemma FeeAnswers(b: Bank, from: Addr, to: Addr, coins: seq<Coin>)
    ensures SendCoins(b, from, to, coins).Err? ==>
              SendCoins(b, from, to, coins).error == if ValidCoins(coins) then InsufficientFunds else InvalidCoins
  {
    if ValidCoins(coins) {
      hide ValidDenom, Le;
      assert AllPositive(coins);
      hide ValidCoins, Take, Give;
      TakeAnswers(b, from, coins);
      if Take(b, from, coins).Ok? {
        GiveSucceeds(Take(b, from, coins).value, to, coins);
      }
    }
  }

  /** What a creation with a sender and a pair of the right form is answered, the first objection first. */
  lemma CreateAnswers(cfg: Config, s: State, tx: Tx)
    requires tx.msg.MsgCreateDenom? && cfg.bech.Parses(tx.msg.sender) && Buildable(tx.msg.sender, tx.msg.subdenom)
    ensures var m, payer := tx.msg, cfg.bech.parse(tx.msg.sender).value;
            Deliver(cfg, s, tx).1 ==
            if s.bank.HasSupply(m.subdenom) then Some(NativeDenom)
            else if FACTORY + [SLASH] + m.sender + [SLASH] + m.subdenom in s.bank.meta then Some(DenomExists)
            else if !ValidCoins(s.params.fee) then Some(BankRefused(InvalidCoins))
            else if !CanPay(s.bank, payer, s.params.fee) then Some(BankRefused(InsufficientFunds))
            else if s.params.gas > tx.gasLeft then Some(OutOfGas)
            else None
  {
    hide GetTokenDenom, ValidCoins, CanPay, SendCoins, Bank.HasSupply, Buildable;
    var payer := cfg.bech.parse(tx.msg.sender).value;
    GetTokenDenomExactly(tx.msg.sender, tx.msg.subdenom);
    SendExactly(s.bank, payer, cfg.moduleAddr(DISTRIBUTION), s.params.fee);
    FeeAnswers(s.bank, payer, cfg.moduleAddr(DISTRIBUTION), s.params.fee);
  }

  lemma CreationEffect(cfg: Config, s: State, tx: Tx)
    requires cfg.bech.Lawful() && Agree(cfg, s) && tx.msg.MsgCreateDenom? && Succeeds(cfg, s, tx)
    ensures var m, n := tx.msg, Deliver(cfg, s, tx).0;
            var d := FACTORY + [SLASH] + m.sender + [SLASH] + m.subdenom;
            && cfg.bech.Parses(m.sender) && Buildable(m.sender, m.subdenom)
            && Created(cfg, s, n, m.sender, d) && n.HookOf(d) == []
            && forall a: Addr, e: Bytes :: n.bank.Balance(a, e) ==
                 s.bank.Balance(a, e)
                 + Gain(a, cfg.bech.parse(m.sender).value, cfg.moduleAddr(DISTRIBUTION), s.params.fee, e)
  {
    hide Agree, GetTokenDenom, ValidCoins, SendCoins, Bank.HasSupply, Gain, Buildable, DenomRefusal;
    var m := tx.msg;
    GetTokenDenomExactly(m.sender, m.subdenom);
    assert cfg.bech.Parses(m.sender);
    SendCarries(s.bank, cfg.bech.parse(m.sender).value, cfg.moduleAddr(DISTRIBUTION), s.params.fee);
    UnknownHasNoHook(cfg, s, GetTokenDenom(m.sender, m.subdenom).value);
  }

  lemma MalformedIsNotCreated(cfg: Config, s: State, tx: Tx)
    requires tx.msg.MsgCreateDenom? && !(cfg.bech.Parses(tx.msg.sender) && Buildable(tx.msg.sender, tx.msg.subdenom))
    ensures !Succeeds(cfg, s, tx)
  {
    GetTokenDenomExactly(tx.msg.sender, tx.msg.subdenom);
    hide GetTokenDenom, Buildable, Create;
  }

  /**
   * CreateDenom succeeds exactly when the subdenom is no native denom, the pair is short enough
   * and of the right bytes, its denom has no metadata yet, and the sender can pay the fee and the
   * gas. The sender is then admin of a new denom without hook, and only the fee has moved, to the
   * community pool.
   */
  lemma CreateExactly(cfg: Config, s: State, tx: Tx)
    requires cfg.bech.Lawful() && Agree(cfg, s) && tx.msg.MsgCreateDenom?
    ensures var m, n := tx.msg, Deliver(cfg, s, tx).0;
            var d := FACTORY + [SLASH] + m.sender + [SLASH] + m.subdenom;
            var payer := cfg.bech.parse(m.sender);
            && (Succeeds(cfg, s, tx) <==>
                 && payer.Some? && Buildable(m.sender, m.subdenom)
                 && !s.bank.HasSupply(m.subdenom) && d !in s.bank.meta
                 && ValidCoins(s.params.fee) && CanPay(s.bank, payer.value, s.params.fee)
                 && s.params.gas <= tx.gasLeft)
            && (Succeeds(cfg, s, tx) ==>
                 && Created(cfg, s, n, m.sender, d) && n.HookOf(d) == []
                 && forall a: Addr, e: Bytes :: n.bank.Balance(a, e) ==
                      s.bank.Balance(a, e) + Gain(a, payer.value, cfg.moduleAddr(DISTRIBUTION), s.params.fee, e))
  {
    hide Agree, Deliver, ValidCoins, CanPay, Bank.HasSupply, Bank.Balance, Gain, Buildable, Created;
    if cfg.bech.Parses(tx.msg.sender) && Buildable(tx.msg.sender, tx.msg.subdenom) {
      CreateAnswers(cfg, s, tx);
    } else {
      MalformedIsNotCreated(cfg, s, tx);
    }
    if Succeeds(cfg, s, tx) {
      CreationEffect(cfg, s, tx);
    }
  }

  lemma UnknownHasNoHook(cfg: Config, s: State, d: Bytes)
    requires Agree(cfg, s)
    ensures d !in s.bank.meta ==> s.HookOf(d) == []
  {
    assert d in s.tables.admins ==> Registered(cfg, s, d);
    hide DeconstructDenom, NamedIn;
  }

  // ----- refusals -----------------------------------------------------------------------------

  /** The denom an admin's message is about. */
  function Subject(msg: Msg): Option<Bytes> {
    match msg
    case MsgMint(_, amount, _) => Some(amount.denom)
    case MsgBurn(_, amount, _) => Some(amount.denom)
    case MsgForceTransfer(_, amount, _, _) => Some(amount.denom)
    case MsgChangeAdmin(_, denom, _) => Some(denom)
    case MsgSetDenomMetadata(_, metadata) => Some(metadata.base)
    case MsgSetBeforeSendHook(_, denom, _) => Some(denom)
    case MsgCreateDenom(_, _) => None
    case MsgSend(_, _, _) => None
  }

  /** An answer about who may ask, rather than about what is asked. */
  predicate AboutAsking(e: KeeperError) {
    e == Unauthorized || e == DenomDoesNotExist
  }

  lemma {:induction false} ScanIsNotAboutAsking(cfg: Config, names: seq<Bytes>, from: Addr, to: Addr)
    ensures var r := ScanModules(cfg, names, from, to); r.None? || !AboutAsking(r.value)
    decreases |names|
  {
    if names != [] {
      ScanIsNotAboutAsking(cfg, names[1..], from, to);
    }
  }

  lemma RefusalIsNotAboutAsking(cfg: Config, d: Bytes)
    ensures DenomRefusal(cfg, d).None? || !AboutAsking(DenomRefusal(cfg, d).value)
  {
    hide DeconstructDenom;
  }

  /** Past the check of the admin no operation answers that way. */
  lemma MoneyIsNotAboutAsking(cfg: Config, bank: Bank, c: Coin, a: Bytes, b: Bytes)
    ensures MintTo(cfg, bank, c, a).Ok? || !AboutAsking(MintTo(cfg, bank, c, a).error)
    ensures BurnFrom(cfg, bank, c, a).Ok? || !AboutAsking(BurnFrom(cfg, bank, c, a).error)
    ensures Transfer(cfg, bank, c, a, b).Ok? || !AboutAsking(Transfer(cfg, bank, c, a, b).error)
  {
    hide DenomRefusal, SendCoins, MintCoins, BurnCoins, Config.IsModuleAcc, NewCoins, Transfer;
    RefusalIsNotAboutAsking(cfg, c.denom);
    TransferIsNotAboutAsking(cfg, bank, c, a, b);
  }

  lemma TransferIsNotAboutAsking(cfg: Config, bank: Bank, c: Coin, a: Bytes, b: Bytes)
    ensures Transfer(cfg, bank, c, a, b).Ok? || !AboutAsking(Transfer(cfg, bank, c, a, b).error)
  {
    hide DenomRefusal, SendCoins, ScanModules, NewCoins;
    RefusalIsNotAboutAsking(cfg, c.denom);
    var f, t := cfg.bech.parse(a), cfg.bech.parse(b);
    if f.Some? && t.Some? {
      ScanIsNotAboutAsking(cfg, Sorted(cfg.perms), f.value, t.value);
    }
  }

  lemma RecordsAreNotAboutAsking(cfg: Config, s: State, tx: Tx, a: Bytes, b: Bytes)
    ensures PlaceHook(cfg, s, a, b, tx.probe).Ok? || !AboutAsking(PlaceHook(cfg, s, a, b, tx.probe).error)
    ensures Create(cfg, s, a, b, tx.gasLeft).Ok? || !AboutAsking(Create(cfg, s, a, b, tx.gasLeft).error)
  {
    hide DenomRefusal, SendCoins, GetTokenDenom, AuthorityOk, Bank.HasSupply;
    RefusalIsNotAboutAsking(cfg, a);
  }

  lemma ValidationIsNotAboutAsking(cfg: Config, msg: Msg)
    ensures var r := ValidateBasic(cfg, msg); r.None? || !AboutAsking(r.value)
  {
    hide DeconstructDenom, GetTokenDenom, ValidCoin, ValidCoins;
  }

  /**
   * Unauthorized is the answer exactly to a sound message about a denom whose admin is not its
   * sender, registered or not; minting an unknown denom is answered DenomDoesNotExist instead.
   */
  lemma UnauthorizedExactly(cfg: Config, s: State, tx: Tx)
    requires cfg.bech.Lawful() && Agree(cfg, s)
    ensures var answer, subject := Deliver(cfg, s, tx).1, Subject(tx.msg);
            var stranger := subject.Some? && ValidateBasic(cfg, tx.msg).None? &&
                            !ByAdmin(cfg, s, tx.msg.sender, subject.value);
            && (answer == Some(Unauthorized) <==> stranger && (tx.msg.MsgMint? ==> subject.value in s.bank.meta))
            && (answer == Some(DenomDoesNotExist) <==>
                 stranger && tx.msg.MsgMint? && subject.value !in s.bank.meta)
  {
    ValidationIsNotAboutAsking(cfg, tx.msg);
    if ValidateBasic(cfg, tx.msg).None? {
      assert cfg.bech.Parses(tx.msg.sender);
      if Subject(tx.msg).Some? {
        AdminCheck(cfg, s, tx.msg.sender, Subject(tx.msg).value);
      }
      HandlingAfterTheCheck(cfg, s, tx);
      hide Agree, ByAdmin, ValidateBasic, Handle, DenomRefusal, Bech32.Lawful;
    }
  }

  /** The admin is asked for first. */
  lemma HandlingAfterTheCheck(cfg: Config, s: State, tx: Tx)
    ensures var r, subject := Handle(cfg, s, tx), Subject(tx.msg);
            var stranger := subject.Some? && tx.msg.sender != s.AdminOf(subject.value);
            && (ValidateBasic(cfg, tx.msg).None? ==>
                 (r == Err(Unauthorized) <==> stranger && (tx.msg.MsgMint? ==> subject.value in s.bank.meta)))
            && (r == Err(DenomDoesNotExist) <==> tx.msg.MsgMint? && subject.value !in s.bank.meta)
  {
    hide MintTo, BurnFrom, Transfer, PlaceHook, Create, DenomRefusal, AuthorityOk, SendCoins, GetTokenDenom;
    match tx.msg
    case MsgCreateDenom(sender, subdenom) => RecordsAreNotAboutAsking(cfg, s, tx, sender, subdenom);
    case MsgMint(sender, amount, to) => MoneyIsNotAboutAsking(cfg, s.bank, amount, OrElse(to, sender), []);
    case MsgBurn(sender, amount, from) => MoneyIsNotAboutAsking(cfg, s.bank, amount, OrElse(from, sender), []);
    case MsgForceTransfer(_, amount, from, to) => MoneyIsNotAboutAsking(cfg, s.bank, amount, from, to);
    case MsgSetBeforeSendHook(_, denom, contract) => RecordsAreNotAboutAsking(cfg, s, tx, denom, contract);
    case MsgChangeAdmin(_, _, _) =>
    case MsgSetDenomMetadata(_, _) =>
    case MsgSend(_, _, _) =>
  }

  /** What the admin's own mint is answered, each recipient exactly once. */
  lemma MintAnswers(cfg: Config, s: State, tx: Tx)
    requires cfg.Lawful() && Agree(cfg, s) && tx.msg.MsgMint? && ValidateBasic(cfg, tx.msg).None?
    requires ByAdmin(cfg, s, tx.msg.sender, tx.msg.amount.denom)
    ensures var to := cfg.bech.parse(OrElse(tx.msg.mintTo, tx.msg.sender));
            Deliver(cfg, s, tx).1 ==
            if to.None? then Some(InvalidAddress)
            else if cfg.IsModule(to.value) then Some(MintToModuleAccount)
            else if to.value in cfg.blocked then Some(BankRefused(BlockedRecipient))
            else None
  {
    var m := tx.msg;
    AdminCheck(cfg, s, m.sender, m.amount.denom);
    MintToEffect(cfg, s.bank, m.amount, OrElse(m.mintTo, m.sender));
    MintSucceeds(s.bank, cfg.FactoryAddr(), m.amount);
    var to := cfg.bech.parse(OrElse(m.mintTo, m.sender));
    if to.Some? { IsModuleAccIsIsModule(cfg, to.value); }
    hide Agree, Paid, DenomRefusal, Config.IsModule, Config.IsModuleAcc, ByAdmin, ValidDenom, MintCoins, SendCoins;
  }

  /** What the admin's own burn is answered. */
  lemma BurnAnswers(cfg: Config, s: State, tx: Tx)
    requires cfg.Lawful() && Agree(cfg, s) && s.bank.Balanced() && tx.msg.MsgBurn?
    requires ValidateBasic(cfg, tx.msg).None? && ByAdmin(cfg, s, tx.msg.sender, tx.msg.amount.denom)
    ensures var who := OrElse(tx.msg.burnFrom, tx.msg.sender);
            var from := cfg.bech.parse(who);
            Deliver(cfg, s, tx).1 ==
            if cfg.rawModule(who) then Some(BurnFromModuleAccount)
            else if from.None? then Some(InvalidAddress)
            else if cfg.IsModule(from.value) then Some(BurnFromModuleAccount)
            else if s.bank.Balance(from.value, tx.msg.amount.denom) < tx.msg.amount.amount
              then Some(BankRefused(InsufficientFunds))
            else None
  {
    hide Agree, BurnFrom, DenomRefusal, Config.IsModule, ByAdmin, ValidDenom, Bank.Balanced, Bank.Balance;
    var m, who := tx.msg, OrElse(tx.msg.burnFrom, tx.msg.sender);
    AdminCheck(cfg, s, m.sender, m.amount.denom);
    BurnFromAnswers(cfg, s.bank, m.amount, who);
  }

  lemma BurnFromAnswers(cfg: Config, b: Bank, c: Coin, who: Bytes)
    requires cfg.Lawful() && b.Balanced() && ValidCoin(c) && DenomRefusal(cfg, c.denom).None?
    ensures var r, from := BurnFrom(cfg, b, c, who), cfg.bech.parse(who);
            if from.None? then r == Err(InvalidAddress)
            else if cfg.IsModule(from.value) then r == Err(BurnFromModuleAccount)
            else if b.Balance(from.value, c.denom) < c.amount then r == Err(BankRefused(InsufficientFunds))
            else r.Ok?
  {
    hide DenomRefusal, Config.IsModule, Bank.Balanced, Bank.Balance, ValidCoin, SendCoins, BurnCoins, Paid;
    BurnFromEffect(cfg, b, c, who);
    var from := cfg.bech.parse(who);
    if from.Some? {
      IsModuleAccIsIsModule(cfg, from.value);
      hide Config.IsModuleAcc, Config.Lawful;
      if b.Balance(from.value, c.denom) < c.amount {
        SendAnswers(b, from.value, cfg.FactoryAddr(), c);
      }
    }
  }

  lemma SendAnswers(b: Bank, from: Addr, to: Addr, c: Coin)
    requires ValidCoin(c) && b.Balance(from, c.denom) < c.amount
    ensures SendCoins(b, from, to, NewCoins(c)) == Err(InsufficientFunds)
  {
    OneCoinIsValid(c);
    hide ValidCoins;
  }

  /** Module `name` is a reason to refuse a forced transfer, and which. */
  predicate Objects(cfg: Config, name: Bytes, from: Addr, to: Addr, e: KeeperError) {
    var addr := cfg.moduleAddr(name);
    if !cfg.resolves(name) then e == ModuleAccountNotFound
    else if addr == from then e == SendFromModuleAccount
    else addr == to && e == SendToModuleAccount
  }

  predicate NoObjection(cfg: Config, name: Bytes, from: Addr, to: Addr) {
    cfg.resolves(name) && cfg.moduleAddr(name) != from && cfg.moduleAddr(name) != to
  }

  /** Module `i` of the list is the first to object, and with `e`. */
  ghost predicate FirstObjection(cfg: Config, names: seq<Bytes>, from: Addr, to: Addr, i: nat, e: KeeperError) {
    && i < |names| && Objects(cfg, names[i], from, to, e)
    && (forall j :: 0 <= j < i ==> NoObjection(cfg, names[j], from, to))
  }

  ghost predicate NobodyObjects(cfg: Config, from: Addr, to: Addr) {
    forall name :: name in cfg.perms ==> NoObjection(cfg, name, from, to)
  }

  /** The scan answers with the objection of the first module that has one. */
  lemma {:induction false} ScanAnswers(cfg: Config, names: seq<Bytes>, from: Addr, to: Addr)
    ensures var r := ScanModules(cfg, names, from, to);
            && (r.None? <==> forall name :: name in names ==> NoObjection(cfg, name, from, to))
            && (r.Some? ==> exists i: nat :: FirstObjection(cfg, names, from, to, i, r.value))
    decreases |names|
  {
    if names != [] {
      var rest, r := names[1..], ScanModules(cfg, names, from, to);
      ScanAnswers(cfg, rest, from, to);
      assert names == [names[0]] + rest;
      if !NoObjection(cfg, names[0], from, to) {
        assert FirstObjection(cfg, names, from, to, 0, r.value);
      } else if r.Some? {
        var i: nat :| FirstObjection(cfg, rest, from, to, i, r.value);
        assert FirstObjection(cfg, names, from, to, i + 1, r.value);
      }
    }
  }

  lemma TransferAnswers(cfg: Config, b: Bank, c: Coin, payer: Bytes, payee: Bytes)
    requires ValidCoin(c) && DenomRefusal(cfg, c.denom).None? && cfg.bech.Parses(payer) && cfg.bech.Parses(payee)
    ensures var from, to, r := cfg.bech.parse(payer).value, cfg.bech.parse(payee).value,
                               Transfer(cfg, b, c, payer, payee);
            if !NobodyObjects(cfg, from, to)
            then r.Err? && exists i: nat :: FirstObjection(cfg, Sorted(cfg.perms), from, to, i, r.error)
            else if b.Balance(from, c.denom) < c.amount then r == Err(BankRefused(InsufficientFunds))
            else r.Ok?
  {
    hide ScanModules, SendCoins, DenomRefusal, ValidCoin, Bank.Balance, NewCoins, NoObjection, FirstObjection;
    var from, to := cfg.bech.parse(payer).value, cfg.bech.parse(payee).value;
    ScanAnswers(cfg, Sorted(cfg.perms), from, to);
    SendSucceeds(b, from, to, c);
    if b.Balance(from, c.denom) < c.amount {
      SendAnswers(b, from, to, c);
    }
  }

  /**
   * What the admin's own forced transfer is answered: the objection of the first module account
   * in name order that has one, then the bank's.
   */
  lemma ForceTransferAnswers(cfg: Config, s: State, tx: Tx)
    requires cfg.bech.Lawful() && Agree(cfg, s) && tx.msg.MsgForceTransfer?
    requires ValidateBasic(cfg, tx.msg).None? && ByAdmin(cfg, s, tx.msg.sender, tx.msg.amount.denom)
    ensures cfg.bech.Parses(tx.msg.transferFrom) && cfg.bech.Parses(tx.msg.transferTo)
    ensures var m, answer := tx.msg, Deliver(cfg, s, tx).1;
            var from, to := cfg.bech.parse(m.transferFrom).value, cfg.bech.parse(m.transferTo).value;
            if !NobodyObjects(cfg, from, to)
            then answer.Some? && exists i: nat :: FirstObjection(cfg, Sorted(cfg.perms), from, to, i, answer.value)
            else if s.bank.Balance(from, m.amount.denom) < m.amount.amount
            then answer == Some(BankRefused(InsufficientFunds))
            else answer == None
  {
    hide Agree, Transfer, DenomRefusal, ByAdmin, ValidCoin, Bank.Balance, NobodyObjects, FirstObjection;
    var m := tx.msg;
    AdminCheck(cfg, s, m.sender, m.amount.denom);
    TransferAnswers(cfg, s.bank, m.amount, m.transferFrom, m.transferTo);
  }

  /** A direct send succeeds exactly to an address not blocked, for coins the sender holds. */
  lemma DirectSendExactly(cfg: Config, s: State, tx: Tx)
    requires tx.msg.MsgSend?
    ensures var m, n := tx.msg, Deliver(cfg, s, tx).0;
            var from, to := cfg.bech.parse(m.sender), cfg.bech.parse(m.recipient);
            && (Succeeds(cfg, s, tx) <==>
                 && from.Some? && to.Some? && to.value !in cfg.blocked
                 && m.coins != [] && ValidCoins(m.coins) && CanPay(s.bank, from.value, m.coins))
            && (Succeeds(cfg, s, tx) ==>
                 OnlyBank(s, n) && Carried(s.bank, n.bank, from.value, to.value, m.coins))
  {
    hide ValidCoins, CanPay, SendCoins, Carried;
    var from, to := cfg.bech.parse(tx.msg.sender), cfg.bech.parse(tx.msg.recipient);
    if from.Some? && to.Some? {
      SendExactly(s.bank, from.value, to.value, tx.msg.coins);
      SendCarries(s.bank, from.value, to.value, tx.msg.coins);
    }
  }
}
