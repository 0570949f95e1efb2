/** What every transaction keeps, and what therefore holds over whole runs. */
module Safety {
  import opened Common
  import opened Messages
  import opened Denoms
  import opened Store
  import opened Factory
  import opened Effects
  import opened Bank

  // ----- the structures agree -----------------------------------------------------------

  /** Registered denoms are factory denoms, with bank metadata and a sound admin. */
  ghost predicate Registered(cfg: Config, s: State, d: Bytes) {
    && d in s.tables.admins
    && DeconstructDenom(cfg.bech, d).Ok?
    && d in s.bank.meta
    && AuthorityOk(cfg, s.tables.admins[d])
  }

  /** `c` is a spelling of the creator named in `d`: as written there, or canonical. */
  predicate NamedIn(cfg: Config, c: Bytes, d: Bytes) {
    var spelled := SpelledCreator(d);
    cfg.bech.Parses(spelled) && (c == spelled || c == cfg.bech.Respell(spelled))
  }

  /**
   * The creator index, the authority records, the hooks and the bank metadata agree: a denom is
   * indexed exactly when it has an authority record, once, under the creator named inside it;
   * only registered denoms have hooks.
   */
  ghost predicate Agree(cfg: Config, s: State) {
    && (forall d :: d in s.tables.admins ==> Registered(cfg, s, d))
    && (forall d :: d in s.tables.admins ==> exists c :: (c, d) in s.tables.index)
    && (forall c, d :: (c, d) in s.tables.index ==> d in s.tables.admins && NamedIn(cfg, c, d))
    && (forall c, e, d :: (c, d) in s.tables.index && (e, d) in s.tables.index ==> c == e)
    && (forall d :: d in s.tables.hooks ==> d in s.tables.admins && cfg.bech.Parses(s.tables.hooks[d]))
  }

  /** Every denom is filed under exactly the creator DeconstructDenom names. */
  ghost predicate FiledCanonically(cfg: Config, s: State) {
    forall c, d :: (c, d) in s.tables.index ==>
      DeconstructDenom(cfg.bech, d).Ok? && DeconstructDenom(cfg.bech, d).value.creator == c
  }

  lemma EmptyAgrees(cfg: Config, bank: Bank, params: Params)
    ensures Agree(cfg, State(EMPTY_TABLES, bank, params)) && FiledCanonically(cfg, State(EMPTY_TABLES, bank, params))
  {
  }

  /** A sender is never the admin of an unregistered denom, nor of one with an empty admin. */
  lemma AdminIsRegistered(cfg: Config, s: State, d: Bytes, sender: Bytes)
    requires cfg.bech.Lawful() && cfg.bech.Parses(sender)
    requires sender == s.AdminOf(d)
    ensures d in s.tables.admins && s.tables.admins[d].admin == sender != []
  {
  }

  /** Registering a denom that is not registered yet keeps the agreement. */
  lemma RegisterKeepsAgree(cfg: Config, s: State, creator: Bytes, d: Bytes)
    requires Agree(cfg, s)
    requires DeconstructDenom(cfg.bech, d).Ok? && NamedIn(cfg, creator, d)
    requires d !in s.tables.admins
    ensures Register(cfg, s, creator, d).Ok? ==> Agree(cfg, Register(cfg, s, creator, d).value)
  {
    hide DeconstructDenom, NamedIn, Bech32.Parses;
    if Register(cfg, s, creator, d).Ok? {
      var n := Register(cfg, s, creator, d).value;
      assert n.tables.index == s.tables.index + {(creator, d)};
      forall e | e in n.tables.admins
        ensures Registered(cfg, n, e) && exists c :: (c, e) in n.tables.index
      {
        if e == d {
          assert (creator, e) in n.tables.index;
        } else {
          assert Registered(cfg, s, e);
          var c :| (c, e) in s.tables.index;
          assert (c, e) in n.tables.index;
        }
      }
    }
  }

  /** A changed bank with no less metadata keeps the agreement. */
  lemma BankKeepsAgree(cfg: Config, s: State, b: Bank)
    requires Agree(cfg, s)
    requires s.bank.meta.Keys <= b.meta.Keys
    ensures Agree(cfg, s.(bank := b))
  {
    hide DeconstructDenom, NamedIn, Bech32.Parses, AuthorityOk;
    var n := s.(bank := b);
    forall e | e in n.tables.admins ensures Registered(cfg, n, e) { assert Registered(cfg, s, e); }
  }

  lemma SetAdminKeepsAgree(cfg: Config, s: State, d: Bytes, a: Authority)
    requires Agree(cfg, s) && d in s.tables.admins && AuthorityOk(cfg, a)
    ensures Agree(cfg, WithAuthority(s, d, a))
  {
    hide DeconstructDenom, NamedIn, Bech32.Parses, AuthorityOk;
    var n := WithAuthority(s, d, a);
    assert n.tables.admins.Keys == s.tables.admins.Keys;
    forall e | e in n.tables.admins ensures Registered(cfg, n, e) { assert Registered(cfg, s, e); }
  }

  lemma HookKeepsAgree(cfg: Config, s: State, d: Bytes, contract: Bytes, probe: Probe)
    requires Agree(cfg, s) && d in s.tables.admins
    ensures PlaceHook(cfg, s, d, contract, probe).Ok? ==> Agree(cfg, PlaceHook(cfg, s, d, contract, probe).value)
  {
    hide DeconstructDenom, NamedIn, AuthorityOk, DenomRefusal;
    if PlaceHook(cfg, s, d, contract, probe).Ok? {
      var n := PlaceHook(cfg, s, d, contract, probe).value;
      forall e | e in n.tables.admins ensures Registered(cfg, n, e) { assert Registered(cfg, s, e); }
    }
  }

  /** The bank part of every handler keeps all metadata. */
  lemma SendKeepsMeta(b: Bank, from: Addr, to: Addr, coins: seq<Coin>)
    ensures SendCoins(b, from, to, coins).Ok? ==> SendCoins(b, from, to, coins).value.meta == b.meta
  {
    hide SendCoins;
    SendCarries(b, from, to, coins);
  }

  lemma MintKeepsMeta(cfg: Config, b: Bank, c: Coin, to: Bytes)
    requires c.amount >= 0
    ensures MintTo(cfg, b, c, to).Ok? ==> MintTo(cfg, b, c, to).value.meta == b.meta
  {
    hide SendCoins, MintCoins, DenomRefusal, Config.IsModuleAcc;
    if MintTo(cfg, b, c, to).Ok? {
      MintMoves(b, cfg.FactoryAddr(), c);
      SendKeepsMeta(MintCoins(b, cfg.FactoryAddr(), c).value, cfg.FactoryAddr(), cfg.bech.parse(to).value, NewCoins(c));
    }
  }

  lemma BurnKeepsMeta(cfg: Config, b: Bank, c: Coin, from: Bytes)
    requires c.amount >= 0
    ensures BurnFrom(cfg, b, c, from).Ok? ==> BurnFrom(cfg, b, c, from).value.meta == b.meta
  {
    hide SendCoins, BurnCoins, DenomRefusal, Config.IsModuleAcc;
    if BurnFrom(cfg, b, c, from).Ok? {
      var addr := cfg.bech.parse(from).value;
      SendKeepsMeta(b, addr, cfg.FactoryAddr(), NewCoins(c));
      BurnMoves(SendCoins(b, addr, cfg.FactoryAddr(), NewCoins(c)).value, cfg.FactoryAddr(), c);
    }
  }

  lemma TransferKeepsMeta(cfg: Config, b: Bank, c: Coin, from: Bytes, to: Bytes)
    ensures Transfer(cfg, b, c, from, to).Ok? ==> Transfer(cfg, b, c, from, to).value.meta == b.meta
  {
    hide SendCoins, DenomRefusal, ScanModules;
    if Transfer(cfg, b, c, from, to).Ok? {
      SendKeepsMeta(b, cfg.bech.parse(from).value, cfg.bech.parse(to).value, NewCoins(c));
    }
  }

  /** What a successful creation did, step by step. */
  lemma CreateDoes(cfg: Config, s: State, sender: Bytes, subdenom: Bytes, gasLeft: nat)
    requires cfg.bech.Lawful() && cfg.bech.Parses(sender)
    requires Create(cfg, s, sender, subdenom, gasLeft).Ok?
    ensures var n := Create(cfg, s, sender, subdenom, gasLeft).value;
            && GetTokenDenom(sender, subdenom).Ok?
            && var d := GetTokenDenom(sender, subdenom).value;
            && d !in s.bank.meta
            && Charge(cfg, s, sender, gasLeft).Ok? && Charge(cfg, s, sender, gasLeft).value.meta == s.bank.meta
            && Register(cfg, s.(bank := Charge(cfg, s, sender, gasLeft).value), sender, d) == Ok(n)
            && NamedIn(cfg, sender, d) && SpelledCreator(d) == sender
            && DeconstructDenom(cfg.bech, d) == Ok(Parts(cfg.bech.Respell(sender), subdenom))
  {
    hide GetTokenDenom, DeconstructDenom, SendCoins, Register, SpelledCreator;
    SendKeepsMeta(s.bank, cfg.bech.parse(sender).value, cfg.moduleAddr(DISTRIBUTION), s.params.fee);
    TokenDenomRoundTrip(cfg.bech, sender, subdenom);
    SpelledCreatorOfBuilt(sender, subdenom);
  }

  lemma CreateKeepsAgree(cfg: Config, s: State, sender: Bytes, subdenom: Bytes, gasLeft: nat)
    requires cfg.bech.Lawful() && cfg.bech.Parses(sender) && Agree(cfg, s)
    requires Create(cfg, s, sender, subdenom, gasLeft).Ok?
    ensures Agree(cfg, Create(cfg, s, sender, subdenom, gasLeft).value)
  {
    CreateDoes(cfg, s, sender, subdenom, gasLeft);
    hide Create, Charge, Register, GetTokenDenom, DeconstructDenom, NamedIn, SpelledCreator;
    var paid := Charge(cfg, s, sender, gasLeft).value;
    var d := GetTokenDenom(sender, subdenom).value;
    assert d in s.tables.admins ==> Registered(cfg, s, d);
    BankKeepsAgree(cfg, s, paid);
    RegisterKeepsAgree(cfg, s.(bank := paid), sender, d);
  }

  /** Every transaction keeps the agreement. */
  lemma DeliverKeepsAgree(cfg: Config, s: State, tx: Tx)
    requires cfg.bech.Lawful() && Agree(cfg, s)
    ensures Agree(cfg, Deliver(cfg, s, tx).0)
  {
    hide Agree, Create, MintTo, BurnFrom, Transfer, PlaceHook, SendCoins, DenomRefusal;
    if ValidateBasic(cfg, tx.msg).None? && Handle(cfg, s, tx).Ok? {
      var n := Handle(cfg, s, tx).value;
      match tx.msg
      case MsgCreateDenom(sender, subdenom) =>
        CreateKeepsAgree(cfg, s, sender, subdenom, tx.gasLeft);
      case MsgMint(sender, amount, mintTo) =>
        MintKeepsMeta(cfg, s.bank, amount, OrElse(mintTo, sender));
        BankKeepsAgree(cfg, s, n.bank);
      case MsgBurn(sender, amount, burnFrom) =>
        BurnKeepsMeta(cfg, s.bank, amount, OrElse(burnFrom, sender));
        BankKeepsAgree(cfg, s, n.bank);
      case MsgForceTransfer(sender, amount, from, to) =>
        TransferKeepsMeta(cfg, s.bank, amount, from, to);
        BankKeepsAgree(cfg, s, n.bank);
      case MsgChangeAdmin(sender, denom, newAdmin) =>
        AdminIsRegistered(cfg, s, denom, sender);
        SetAdminKeepsAgree(cfg, s, denom, Authority(newAdmin));
      case MsgSetDenomMetadata(sender, metadata) =>
        BankKeepsAgree(cfg, s, n.bank);
      case MsgSetBeforeSendHook(sender, denom, contract) =>
        AdminIsRegistered(cfg, s, denom, sender);
        HookKeepsAgree(cfg, s, denom, contract, tx.probe);
      case MsgSend(sender, recipient, coins) =>
        SendKeepsMeta(s.bank, cfg.bech.parse(sender).value, cfg.bech.parse(recipient).value, coins);
        BankKeepsAgree(cfg, s, n.bank);
    }
  }

  /** In every state a run reaches, the structures agree. */
  lemma {:induction false} StoresAgreeInEveryRun(cfg: Config, s: State, txs: seq<Tx>)
    requires cfg.bech.Lawful() && Agree(cfg, s)
    ensures Agree(cfg, Run(cfg, s, txs))
    decreases |txs|
  {
    hide Agree, Deliver;
    if txs != [] {
      DeliverKeepsAgree(cfg, s, txs[0]);
      StoresAgreeInEveryRun(cfg, Deliver(cfg, s, txs[0]).0, txs[1..]);
    }
  }

  /** Whether a delivered transaction succeeded. */
  predicate Succeeds(cfg: Config, s: State, tx: Tx) {
    Deliver(cfg, s, tx).1.None?
  }

  /** Transactions only ever add to the creator index. */
  lemma IndexOnlyGrows(cfg: Config, s: State, tx: Tx)
    requires cfg.bech.Lawful()
    ensures s.tables.index <= Deliver(cfg, s, tx).0.tables.index
    ensures !tx.msg.MsgCreateDenom? ==> s.tables.index == Deliver(cfg, s, tx).0.tables.index
  {
    hide Create, MintTo, BurnFrom, Transfer, SendCoins, DenomRefusal, AuthorityOk;
    if tx.msg.MsgCreateDenom? && Succeeds(cfg, s, tx) {
      CreateDoes(cfg, s, tx.msg.sender, tx.msg.subdenom, tx.gasLeft);
      hide Charge, GetTokenDenom, DeconstructDenom, NamedIn, SpelledCreator;
    }
  }

  /** A creation by a sender whose address string is not canonical. */
  predicate NonCanonicalCreation(cfg: Config, s: State, tx: Tx) {
    tx.msg.MsgCreateDenom? && Succeeds(cfg, s, tx) && !cfg.bech.Canonical(tx.msg.sender)
  }

  /** A creation adds the one entry, filed under the sender's own spelling. */
  lemma CreationFiles(cfg: Config, s: State, tx: Tx)
    requires cfg.bech.Lawful() && tx.msg.MsgCreateDenom? && Succeeds(cfg, s, tx)
    ensures GetTokenDenom(tx.msg.sender, tx.msg.subdenom).Ok?
    ensures var d := GetTokenDenom(tx.msg.sender, tx.msg.subdenom).value;
            && Deliver(cfg, s, tx).0.tables.index == s.tables.index + {(tx.msg.sender, d)}
            && DeconstructDenom(cfg.bech, d).Ok?
            && (DeconstructDenom(cfg.bech, d).value.creator == tx.msg.sender <==> cfg.bech.Canonical(tx.msg.sender))
  {
    assert cfg.bech.Parses(tx.msg.sender) && Create(cfg, s, tx.msg.sender, tx.msg.subdenom, tx.gasLeft).Ok?;
    CreateDoes(cfg, s, tx.msg.sender, tx.msg.subdenom, tx.gasLeft);
    hide Create, Charge, GetTokenDenom, DeconstructDenom, NamedIn, SpelledCreator, AuthorityOk;
  }

  /**
   * After a transaction filing is canonical if and only if it was before and the transaction did
   * not create a denom for a sender with a non-canonical address string.
   */
  lemma FilingStaysCanonicalExactly(cfg: Config, s: State, tx: Tx)
    requires cfg.bech.Lawful()
    ensures FiledCanonically(cfg, Deliver(cfg, s, tx).0) <==>
            FiledCanonically(cfg, s) && !NonCanonicalCreation(cfg, s, tx)
  {
    IndexOnlyGrows(cfg, s, tx);
    if tx.msg.MsgCreateDenom? && Succeeds(cfg, s, tx) {
      CreationFiles(cfg, s, tx);
      var d := GetTokenDenom(tx.msg.sender, tx.msg.subdenom).value;
      assert (tx.msg.sender, d) in Deliver(cfg, s, tx).0.tables.index;
    } else if tx.msg.MsgCreateDenom? {
      assert Deliver(cfg, s, tx).0 == s;
    }
    hide DeconstructDenom, GetTokenDenom, Deliver, Bech32.Canonical;
  }

  /** Some denom of the run is created by a sender with a non-canonical address string. */
  predicate NonCanonicalCreated(cfg: Config, s: State, txs: seq<Tx>)
    decreases |txs|
  {
    txs != [] && (NonCanonicalCreation(cfg, s, txs[0]) ||
                  NonCanonicalCreated(cfg, Deliver(cfg, s, txs[0]).0, txs[1..]))
  }

  /**
   * After a whole run filing is canonical if and only if it was before and no creation of the
   * run came from a non-canonical sender.
   */
  lemma {:induction false} FilingOverRunsExactly(cfg: Config, s: State, txs: seq<Tx>)
    requires cfg.bech.Lawful()
    ensures FiledCanonically(cfg, Run(cfg, s, txs)) <==>
            FiledCanonically(cfg, s) && !NonCanonicalCreated(cfg, s, txs)
    decreases |txs|
  {
    hide FiledCanonically, Deliver, NonCanonicalCreation;
    if txs != [] {
      FilingStaysCanonicalExactly(cfg, s, txs[0]);
      FilingOverRunsExactly(cfg, Deliver(cfg, s, txs[0]).0, txs[1..]);
    }
  }

  /** What can be seen before the run: all its creators spell their addresses canonically. */
  predicate CanonicalCreators(cfg: Config, txs: seq<Tx>) {
    forall i :: 0 <= i < |txs| && txs[i].msg.MsgCreateDenom? ==> cfg.bech.Canonical(txs[i].msg.sender)
  }

  lemma {:induction false} CanonicalCreatorsSuffice(cfg: Config, s: State, txs: seq<Tx>)
    requires CanonicalCreators(cfg, txs)
    ensures !NonCanonicalCreated(cfg, s, txs)
    decreases |txs|
  {
    hide Deliver, Bech32.Canonical;
    if txs != [] {
      assert txs[0].msg.MsgCreateDenom? ==> cfg.bech.Canonical(txs[0].msg.sender);
      CanonicalCreatorsSuffice(cfg, Deliver(cfg, s, txs[0]).0, txs[1..]);
    }
  }

  // ----- params --------------------------------------------------------------------------------

  /** No transaction changes the params. */
  lemma ParamsUntouched(cfg: Config, s: State, tx: Tx)
    ensures Deliver(cfg, s, tx).0.params == s.params
  {
    hide MintTo, BurnFrom, Transfer, Charge, DenomRefusal, GetTokenDenom, AuthorityOk;
  }

  lemma {:induction false} RunKeepsParams(cfg: Config, s: State, txs: seq<Tx>)
    ensures Run(cfg, s, txs).params == s.params
    decreases |txs|
  {
    hide Deliver;
    if txs != [] {
      ParamsUntouched(cfg, s, txs[0]);
      RunKeepsParams(cfg, Deliver(cfg, s, txs[0]).0, txs[1..]);
    }
  }
}
