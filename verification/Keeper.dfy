/**
 * The token factory keeper: handlers that work step by step on the flat store and the bank,
 * proved against the specification on tables.
 */
module TokenFactory {
  import opened Common
  import opened Varint
  import opened Order
  import opened Messages
  import opened Marshal
  import opened Denoms
  import opened Store
  import opened Factory
  import opened Safety
  import opened GenesisRoundTrip
  import opened Bank

  class Keeper {
    const cfg: Config
    var permAddrMap: set<Bytes>
    var store: KV
    var bank: Bank
    var params: Params
    ghost var tables: Tables

    /** The store holds the tables, and every admin in it is short enough to be an address. */
    ghost predicate Valid()
      reads this
    {
      && cfg.bech.Lawful()
      && permAddrMap == cfg.PermAddrs()
      && Holds(store, tables)
      && (forall d :: d in tables.admins ==> |tables.admins[d].admin| <= MAX_BECH32_LENGTH)
    }

    ghost function View(): State
      reads this
    {
      Factory.State(tables, bank, params)
    }

    /** NewKeeper over an empty store */
    constructor (cfg: Config, bank: Bank, params: Params)
      requires cfg.bech.Lawful()
      ensures Valid() && this.cfg == cfg
      ensures View() == Factory.State(EMPTY_TABLES, bank, params)
    {
      this.cfg, this.bank, this.params := cfg, bank, params;
      store, tables, permAddrMap := map[], EMPTY_TABLES, {};
      new;
      EmptyHolds();
      var names := cfg.perms;
      while names != {}
        invariant names <= cfg.perms
        invariant permAddrMap == set name | name in cfg.perms - names :: cfg.bech.show(cfg.moduleAddr(name))
        invariant this.cfg == cfg && this.bank == bank && this.params == params
        invariant store == map[] && tables == EMPTY_TABLES
        decreases names
      {
        var name :| name in names;
        permAddrMap := permAddrMap + {cfg.bech.show(cfg.moduleAddr(name))};
        names := names - {name};
      }
      assert cfg.perms - {} == cfg.perms;
    }

    // ----- records ---------------------------------------------------------------------

    /** GetAuthorityMetadata: what is stored always decodes, what is missing decodes as empty. */
    method GetAuthorityMetadata(denom: Bytes) returns (r: Result<Authority, WireError>)
      requires Valid()
      ensures r == Ok(View().AuthorityOf(denom))
    {
      LookupAuthority(store, tables, denom);
      var bz := if AuthorityKey(denom) in store then store[AuthorityKey(denom)] else [];
      if denom in tables.admins {
        AuthorityIsSmall(tables.admins[denom]);
        AuthorityRoundTrip(tables.admins[denom]);
      }
      hide EncAuthority, AuthorityKey;
      var consumed;
      r, consumed := UnmarshalAuthority(bz, NO_AUTHORITY);
    }

    /** setAuthorityMetadata */
    method SetAuthorityMetadata(denom: Bytes, a: Authority) returns (err: Option<KeeperError>)
      requires Valid()
      modifies this
      ensures Valid()
      ensures err == if AuthorityOk(cfg, a) then None else Some(BadAuthority)
      ensures View() == if err.None? then WithAuthority(old(View()), denom, a) else old(View())
    {
      hide Holds, EncAuthority, AuthorityKey;
      if a.admin != [] {
        if !cfg.bech.Parses(a.admin) {
          return Some(BadAuthority);
        }
      }
      AuthorityIsSmall(a);
      var bz := MarshalAuthority(a);
      SetAuthority(store, tables, denom, a);
      store := store[AuthorityKey(denom) := bz];
      tables := tables.(admins := tables.admins[denom := a]);
      err := None;
    }

    method SetAdmin(denom: Bytes, admin: Bytes) returns (err: Option<KeeperError>)
      requires Valid()
      modifies this
      ensures Valid()
      ensures err == if AuthorityOk(cfg, Authority(admin)) then None else Some(BadAuthority)
      ensures View() == if err.None? then WithAuthority(old(View()), denom, Authority(admin)) else old(View())
    {
      var metadata := GetAuthorityMetadata(denom);
      err := SetAuthorityMetadata(denom, metadata.value.(admin := admin));
    }

    method GetBeforeSendHook(denom: Bytes) returns (hook: Bytes)
      requires Valid()
      ensures hook == View().HookOf(denom)
    {
      LookupHook(store, tables, denom);
      if HookKey(denom) !in store {
        return [];
      }
      hook := store[HookKey(denom)];
    }

    /** setBeforeSendHook; `probe` is the contract's answer to the empty tracking message. */
    method SetBeforeSendHook(denom: Bytes, contract: Bytes, probe: Probe) returns (err: Option<KeeperError>)
      requires Valid()
      modifies this
      ensures Valid()
      ensures match PlaceHook(cfg, old(View()), denom, contract, probe)
              case Ok(n) => err == None && View() == n
              case Err(e) => err == Some(e)
    {
      hide Holds, HookKey, DenomRefusal;
      var refusal := DenomRefusal(cfg, denom);
      if refusal.Some? {
        return refusal;
      }
      if contract == [] {
        DeleteHook(store, tables, denom);
        store := store - {HookKey(denom)};
        tables := tables.(hooks := tables.hooks - {denom});
        return None;
      }
      if !cfg.hasContracts {
        return Some(NoContractKeeper);
      }
      if !cfg.bech.Parses(contract) {
        return Some(InvalidAddress);
      }
      if probe == Aborts {
        return Some(OutOfGas);
      }
      if probe == NotThere {
        return Some(NoSuchContract);
      }
      SetHook(store, tables, denom, contract);
      store := store[HookKey(denom) := contract];
      tables := tables.(hooks := tables.hooks[denom := contract]);
      err := None;
    }

    /** addDenomFromCreator */
    method AddDenomFromCreator(creator: Bytes, denom: Bytes)
      requires Valid() && PipeFree(creator) && PipeFree(denom)
      modifies this
      ensures Valid()
      ensures View() == old(View()).(tables := old(tables).(index := old(tables).index + {(creator, denom)}))
    {
      hide Holds, IndexKey;
      AddIndex(store, tables, creator, denom);
      store := store[IndexKey(creator, denom) := denom];
      tables := tables.(index := tables.index + {(creator, denom)});
    }

    // ----- bank actions -------------------------------------------------------------------

    method MintTo(amount: Coin, mintTo: Bytes) returns (err: Option<KeeperError>)
      requires Valid()
      modifies this`bank
      ensures match Factory.MintTo(cfg, old(bank), amount, mintTo)
              case Ok(b) => err == None && bank == b
              case Err(e) => err == Some(e)
    {
      hide Holds, DenomRefusal, MintCoins, SendCoins, NewCoins;
      var refusal := DenomRefusal(cfg, amount.denom);
      if refusal.Some? {
        return refusal;
      }
      var addr := cfg.bech.parse(mintTo);
      if addr.None? {
        return Some(InvalidAddress);
      }
      if cfg.bech.show(addr.value) in permAddrMap {
        return Some(MintToModuleAccount);
      }
      var minted := MintCoins(bank, cfg.FactoryAddr(), amount);
      if minted.Err? {
        return Some(BankRefused(minted.error));
      }
      bank := minted.value;
      if addr.value in cfg.blocked {
        return Some(BankRefused(BlockedRecipient));
      }
      var sent := SendCoins(bank, cfg.FactoryAddr(), addr.value, NewCoins(amount));
      if sent.Err? {
        return Some(BankRefused(sent.error));
      }
      bank := sent.value;
      err := None;
    }

    method BurnFrom(amount: Coin, burnFrom: Bytes) returns (err: Option<KeeperError>)
      requires Valid()
      modifies this`bank
      ensures match Factory.BurnFrom(cfg, old(bank), amount, burnFrom)
              case Ok(b) => err == None && bank == b
              case Err(e) => err == Some(e)
    {
      hide Holds, DenomRefusal, BurnCoins, SendCoins, NewCoins;
      var refusal := DenomRefusal(cfg, amount.denom);
      if refusal.Some? {
        return refusal;
      }
      var addr := cfg.bech.parse(burnFrom);
      if addr.None? {
        return Some(InvalidAddress);
      }
      if cfg.bech.show(addr.value) in permAddrMap {
        return Some(BurnFromModuleAccount);
      }
      var sent := SendCoins(bank, addr.value, cfg.FactoryAddr(), NewCoins(amount));
      if sent.Err? {
        return Some(BankRefused(sent.error));
      }
      bank := sent.value;
      var burned := BurnCoins(bank, cfg.FactoryAddr(), amount);
      if burned.Err? {
        return Some(BankRefused(burned.error));
      }
      bank := burned.value;
      err := None;
    }

    /** The loop of forceTransfer over the sorted module names. */
    method ScanModuleAccounts(from: Addr, to: Addr) returns (err: Option<KeeperError>)
      ensures err == ScanModules(cfg, Sorted(cfg.perms), from, to)
    {
      hide Sorted;
      var names := Sorted(cfg.perms);
      assert names[0..] == names;
      for i := 0 to |names|
        invariant ScanModules(cfg, names, from, to) == ScanModules(cfg, names[i..], from, to)
      {
        assert names[i..][0] == names[i] && names[i..][1..] == names[i + 1..];
        if !cfg.resolves(names[i]) {
          return Some(ModuleAccountNotFound);
        }
        var account := cfg.moduleAddr(names[i]);
        if account == from {
          return Some(SendFromModuleAccount);
        }
        if account == to {
          return Some(SendToModuleAccount);
        }
      }
      err := None;
    }

    method ForceTransferCoins(amount: Coin, fromAddr: Bytes, toAddr: Bytes) returns (err: Option<KeeperError>)
      modifies this`bank
      ensures match Transfer(cfg, old(bank), amount, fromAddr, toAddr)
              case Ok(b) => err == None && bank == b
              case Err(e) => err == Some(e)
    {
      hide DenomRefusal, SendCoins, NewCoins, ScanModules, Sorted;
      var refusal := DenomRefusal(cfg, amount.denom);
      if refusal.Some? {
        return refusal;
      }
      var from := cfg.bech.parse(fromAddr);
      if from.None? {
        return Some(InvalidAddress);
      }
      var to := cfg.bech.parse(toAddr);
      if to.None? {
        return Some(InvalidAddress);
      }
      err := ScanModuleAccounts(from.value, to.value);
      if err.Some? {
        return;
      }
      var sent := SendCoins(bank, from.value, to.value, NewCoins(amount));
      if sent.Err? {
        return Some(BankRefused(sent.error));
      }
      bank := sent.value;
    }

    // ----- creating denoms --------------------------------------------------------------------

    /** validateCreateDenom: what it refuses no creation gets past, whatever gas is left. */
    method ValidateCreateDenom(creator: Bytes, subdenom: Bytes) returns (r: Result<Bytes, KeeperError>)
      ensures r.Err? ==> forall gasLeft: nat :: Create(cfg, View(), creator, subdenom, gasLeft) == Err(r.error)
      ensures r.Ok? ==> GetTokenDenom(creator, subdenom) == Ok(r.value)
      ensures r.Ok? <==> !bank.HasSupply(subdenom) && GetTokenDenom(creator, subdenom).Ok? &&
                         GetTokenDenom(creator, subdenom).value !in bank.meta
    {
      if bank.HasSupply(subdenom) {
        return Err(NativeDenom);
      }
      var denom := GetTokenDenom(creator, subdenom);
      if denom.Err? {
        return Err(BadDenom(denom.error));
      }
      if denom.value in bank.meta {
        return Err(DenomExists);
      }
      r := Ok(denom.value);
    }

    /** chargeForCreateDenom */
    method ChargeForCreateDenom(creator: Bytes, gasLeft: nat) returns (err: Option<KeeperError>)
      modifies this`bank
      ensures match Charge(cfg, old(View()), creator, gasLeft)
              case Ok(b) => err == None && bank == b
              case Err(e) => err == Some(e)
    {
      hide SendCoins;
      var addr := cfg.bech.parse(creator);
      if addr.None? {
        return Some(InvalidAddress);
      }
      var paid := SendCoins(bank, addr.value, cfg.moduleAddr(DISTRIBUTION), params.fee);
      if paid.Err? {
        return Some(BankRefused(paid.error));
      }
      bank := paid.value;
      if params.gas != 0 {
        if params.gas > gasLeft {
          return Some(OutOfGas);
        }
      }
      err := None;
    }

    /** createDenomAfterValidation */
    method CreateDenomAfterValidation(creator: Bytes, denom: Bytes) returns (err: Option<KeeperError>)
      requires Valid() && PipeFree(creator) && PipeFree(denom)
      modifies this
      ensures Valid()
      ensures match Register(cfg, old(View()), creator, denom)
              case Ok(n) => err == None && View() == n
              case Err(e) => err == Some(e)
    {
      hide Holds, AuthorityOk;
      if denom !in bank.meta {
        bank := bank.(meta := bank.meta[denom := DefaultMetadata(denom)]);
      }
      err := SetAuthorityMetadata(denom, Authority(creator));
      if err.Some? {
        return;
      }
      AddDenomFromCreator(creator, denom);
    }

    method CreateDenom(sender: Bytes, subdenom: Bytes, gasLeft: nat) returns (err: Option<KeeperError>)
      requires Valid()
      modifies this
      ensures Valid()
      ensures match Create(cfg, old(View()), sender, subdenom, gasLeft)
              case Ok(n) => err == None && View() == n
              case Err(e) => err == Some(e)
    {
      hide Holds, GetTokenDenom, Charge, Register, Bank.HasSupply, PipeFree;
      var denom := ValidateCreateDenom(sender, subdenom);
      if denom.Err? {
        assert Create(cfg, View(), sender, subdenom, gasLeft) == Err(denom.error);
        return Some(denom.error);
      }
      err := ChargeForCreateDenom(sender, gasLeft);
      if err.Some? {
        return;
      }
      BuiltDenomIsPipeFree(sender, subdenom);
      err := CreateDenomAfterValidation(sender, denom.value);
    }

    // ----- the message server ---------------------------------------------------------------------

    method Mint(sender: Bytes, amount: Coin, mintTo: Bytes) returns (err: Option<KeeperError>)
      requires Valid()
      modifies this`bank
      ensures match Handle(cfg, old(View()), Tx(MsgMint(sender, amount, mintTo), 0, Accepts))
              case Ok(n) => err == None && View() == n
              case Err(e) => err == Some(e)
    {
      hide Holds, Factory.MintTo, Store.AuthorityKey;
      if amount.denom !in bank.meta {
        return Some(DenomDoesNotExist);
      }
      var metadata := GetAuthorityMetadata(amount.denom);
      if sender != metadata.value.admin {
        return Some(Unauthorized);
      }
      var to := mintTo;
      if to == [] {
        to := sender;
      }
      err := MintTo(amount, to);
    }

    method Burn(sender: Bytes, amount: Coin, burnFrom: Bytes) returns (err: Option<KeeperError>)
      requires Valid()
      modifies this`bank
      ensures match Handle(cfg, old(View()), Tx(MsgBurn(sender, amount, burnFrom), 0, Accepts))
              case Ok(n) => err == None && View() == n
              case Err(e) => err == Some(e)
    {
      hide Holds, Factory.BurnFrom;
      var metadata := GetAuthorityMetadata(amount.denom);
      if sender != metadata.value.admin {
        return Some(Unauthorized);
      }
      var from := burnFrom;
      if from == [] {
        from := sender;
      }
      if cfg.rawModule(from) {
        return Some(BurnFromModuleAccount);
      }
      err := BurnFrom(amount, from);
    }

    method ForceTransfer(sender: Bytes, amount: Coin, from: Bytes, to: Bytes) returns (err: Option<KeeperError>)
      requires Valid()
      modifies this`bank
      ensures match Handle(cfg, old(View()), Tx(MsgForceTransfer(sender, amount, from, to), 0, Accepts))
              case Ok(n) => err == None && View() == n
              case Err(e) => err == Some(e)
    {
      hide Holds, Transfer;
      var metadata := GetAuthorityMetadata(amount.denom);
      if sender != metadata.value.admin {
        return Some(Unauthorized);
      }
      err := ForceTransferCoins(amount, from, to);
    }

    method ChangeAdmin(sender: Bytes, denom: Bytes, newAdmin: Bytes) returns (err: Option<KeeperError>)
      requires Valid()
      modifies this
      ensures Valid()
      ensures match Handle(cfg, old(View()), Tx(MsgChangeAdmin(sender, denom, newAdmin), 0, Accepts))
              case Ok(n) => err == None && View() == n
              case Err(e) => err == Some(e)
    {
      hide Holds, AuthorityOk;
      var metadata := GetAuthorityMetadata(denom);
      if sender != metadata.value.admin {
        return Some(Unauthorized);
      }
      err := SetAdmin(denom, newAdmin);
    }

    method SetDenomMetadata(sender: Bytes, metadata: Metadata) returns (err: Option<KeeperError>)
      requires Valid()
      modifies this`bank
      ensures match Handle(cfg, old(View()), Tx(MsgSetDenomMetadata(sender, metadata), 0, Accepts))
              case Ok(n) => err == None && View() == n
              case Err(e) => err == Some(e)
    {
      hide Holds;
      if !cfg.metadataOk(metadata) {
        return Some(BadMetadata);
      }
      var authority := GetAuthorityMetadata(metadata.base);
      if sender != authority.value.admin {
        return Some(Unauthorized);
      }
      bank := bank.(meta := bank.meta[metadata.base := metadata]);
      err := None;
    }

    method SetHookAs(sender: Bytes, denom: Bytes, contract: Bytes, probe: Probe) returns (err: Option<KeeperError>)
      requires Valid()
      modifies this
      ensures Valid()
      ensures match Handle(cfg, old(View()), Tx(MsgSetBeforeSendHook(sender, denom, contract), 0, probe))
              case Ok(n) => err == None && View() == n
              case Err(e) => err == Some(e)
    {
      hide Holds, PlaceHook;
      var metadata := GetAuthorityMetadata(denom);
      if sender != metadata.value.admin {
        return Some(Unauthorized);
      }
      err := SetBeforeSendHook(denom, contract, probe);
    }

    /** The bank's own MsgSend */
    method SendDirectly(sender: Bytes, recipient: Bytes, coins: seq<Coin>) returns (err: Option<KeeperError>)
      requires Valid()
      modifies this`bank
      ensures match Handle(cfg, old(View()), Tx(MsgSend(sender, recipient, coins), 0, Accepts))
              case Ok(n) => err == None && View() == n
              case Err(e) => err == Some(e)
    {
      hide Holds, SendCoins;
      var from, to := cfg.bech.parse(sender), cfg.bech.parse(recipient);
      if from.None? || to.None? {
        return Some(InvalidAddress);
      }
      if to.value in cfg.blocked {
        return Some(BankRefused(BlockedRecipient));
      }
      var sent := SendCoins(bank, from.value, to.value, coins);
      if sent.Err? {
        return Some(BankRefused(sent.error));
      }
      bank := sent.value;
      err := None;
    }

    method Dispatch(tx: Tx) returns (err: Option<KeeperError>)
      requires Valid()
      modifies this
      ensures Valid()
      ensures match Handle(cfg, old(View()), tx)
              case Ok(n) => err == None && View() == n
              case Err(e) => err == Some(e)
    {
      hide Holds, Create, Factory.MintTo, Factory.BurnFrom, Transfer, PlaceHook, SendCoins, AuthorityOk;
      match tx.msg {
        case MsgCreateDenom(sender, subdenom) => err := CreateDenom(sender, subdenom, tx.gasLeft);
        case MsgMint(sender, amount, mintTo) => err := Mint(sender, amount, mintTo);
        case MsgBurn(sender, amount, burnFrom) => err := Burn(sender, amount, burnFrom);
        case MsgForceTransfer(sender, amount, from, to) => err := ForceTransfer(sender, amount, from, to);
        case MsgChangeAdmin(sender, denom, newAdmin) => err := ChangeAdmin(sender, denom, newAdmin);
        case MsgSetDenomMetadata(sender, metadata) => err := SetDenomMetadata(sender, metadata);
        case MsgSetBeforeSendHook(sender, denom, contract) => err := SetHookAs(sender, denom, contract, tx.probe);
        case MsgSend(sender, recipient, coins) => err := SendDirectly(sender, recipient, coins);
      }
    }

    /**
     * A transaction on the flat store: what the handlers did so far is dropped when one of them
     * fails. The store refines the tables step by step.
     */
    method DeliverTx(tx: Tx) returns (err: Option<KeeperError>)
      requires Valid()
      modifies this
      ensures Valid()
      ensures (View(), err) == Deliver(cfg, old(View()), tx)
    {
      hide Holds, ValidateBasic, Handle;
      err := ValidateBasic(cfg, tx.msg);
      if err.Some? {
        return;
      }
      var store0, bank0, params0 := store, bank, params;
      ghost var tables0 := tables;
      err := Dispatch(tx);
      if err.Some? {
        store, bank, params := store0, bank0, params0;
        tables := tables0;
      }
    }

    // ----- listings -----------------------------------------------------------------------------------

    /** getDenomsFromCreator */
    method GetDenomsFromCreator(creator: Bytes) returns (denoms: seq<Bytes>)
      requires Valid()
      ensures forall d :: d in denoms <==> (creator, d) in tables.index
      ensures Ascending(denoms)
    {
      var prefix := CreatorPrefix(creator);
      var keys := Iterate(store, prefix);
      denoms := [];
      hide Holds, CreatorPrefix, Iterate;
      for i := 0 to |keys|
        invariant |denoms| == i
        invariant forall j :: 0 <= j < i ==> denoms[j] == keys[j][|prefix|..]
      {
        denoms := denoms + [keys[i][|prefix|..]];
      }
      CreatorsDenoms(store, tables, creator, denoms);
    }

    /** GetAllBeforeSendHooks: the denoms with a hook, in index order, and their hooks beside them. */
    method GetAllBeforeSendHooks() returns (denoms: seq<Bytes>, hooks: seq<Bytes>)
      requires Valid()
      ensures denoms == HookedOf(View(), ListDenoms(store))
      ensures |hooks| == |denoms|
      ensures forall i :: 0 <= i < |denoms| ==> hooks[i] == View().HookOf(denoms[i])
    {
      denoms, hooks := HooksAmong(ListDenoms(store));
    }

    /** The loop of GetAllBeforeSendHooks over the denoms its iterator yields. */
    method HooksAmong(all: seq<Bytes>) returns (denoms: seq<Bytes>, hooks: seq<Bytes>)
      requires Valid()
      ensures denoms == HookedOf(View(), all)
      ensures |hooks| == |denoms|
      ensures forall i :: 0 <= i < |denoms| ==> hooks[i] == View().HookOf(denoms[i])
    {
      denoms, hooks := [], [];
      hide Valid, State.HookOf;
      ghost var s := View();
      for i := 0 to |all|
        invariant denoms == HookedOf(s, all[..i])
        invariant |hooks| == |denoms|
        invariant forall j :: 0 <= j < |denoms| ==> hooks[j] == s.HookOf(denoms[j])
      {
        hide HookedOf;
        var denom := all[i];
        var hook := GetBeforeSendHook(denom);
        assert all[..i + 1] == all[..i] + [denom];
        HookedOfSnoc(s, all[..i], denom);
        if hook != [] {
          denoms := denoms + [denom];
          hooks := hooks + [hook];
        }
      }
      assert all[..|all|] == all;
    }

    // ----- genesis ---------------------------------------------------------------------------------------

    /** InitGenesis; an error is a panic of InitGenesis or of SetParams. */
    method InitGenesis(g: Genesis) returns (err: Option<KeeperError>)
      requires Valid()
      modifies this
      ensures Valid()
      ensures match Init(cfg, old(View()), g)
              case Ok(n) => err == None && View() == n
              case Err(e) => err == Some(e)
    {
      hide Holds, DeconstructDenom, Register, AuthorityOk, PipeFree;
      if !ValidCoins(g.params.fee) {
        return Some(BadGenesis);
      }
      params := g.params;
      assert g.denoms[0..] == g.denoms;
      for i := 0 to |g.denoms|
        invariant Valid()
        invariant Init(cfg, old(View()), g) == InitDenoms(cfg, View(), g.denoms[i..])
      {
        var d := g.denoms[i];
        assert g.denoms[i..][0] == d && g.denoms[i..][1..] == g.denoms[i + 1..];
        var parts := DeconstructDenom(cfg.bech, d.denom);
        if parts.Err? {
          return Some(BadDenom(parts.error));
        }
        DeconstructedIsPipeFree(cfg.bech, d.denom);
        err := CreateDenomAfterValidation(parts.value.creator, d.denom);
        if err.Some? {
          return;
        }
        err := SetAuthorityMetadata(d.denom, d.authority);
        if err.Some? {
          return;
        }
      }
      err := None;
    }

    method ExportGenesis() returns (g: Genesis)
      requires Valid()
      ensures g == Export(store, View())
    {
      hide Holds, ListDenoms;
      var all := ListDenoms(store);
      var denoms := [];
      for i := 0 to |all|
        invariant |denoms| == i
        invariant forall j :: 0 <= j < i ==> denoms[j] == GenesisDenom(all[j], View().AuthorityOf(all[j]))
      {
        var authority := GetAuthorityMetadata(all[i]);
        denoms := denoms + [GenesisDenom(all[i], authority.value)];
      }
      g := Genesis(params, denoms);
    }
  }

  /** GenesisState.Validate */
  method ValidateGenesis(cfg: Config, g: Genesis) returns (err: Option<KeeperError>)
    ensures err == Validate(cfg, g)
  {
    hide DenomRefusal;
    if !ValidCoins(g.params.fee) {
      return Some(BadCoins);
    }
    var seen := {};
    assert g.denoms[0..] == g.denoms;
    for i := 0 to |g.denoms|
      invariant Validate(cfg, g) == CheckDenoms(cfg, g.denoms[i..], seen)
    {
      var d := g.denoms[i];
      assert g.denoms[i..][0] == d && g.denoms[i..][1..] == g.denoms[i + 1..];
      if d.denom in seen {
        return Some(BadGenesis);
      }
      seen := seen + {d.denom};
      var refusal := DenomRefusal(cfg, d.denom);
      if refusal.Some? {
        return refusal;
      }
      if d.authority.admin != [] {
        if !cfg.bech.Parses(d.authority.admin) {
          return Some(BadAuthority);
        }
      }
    }
    err := None;
  }

  // ----- supporting facts ---------------------------------------------------------------------------------

  lemma ValidDenomIsPipeFree(d: Bytes)
    requires ValidDenom(d)
    ensures PipeFree(d)
  {
  }

  lemma BuiltDenomIsPipeFree(creator: Bytes, subdenom: Bytes)
    ensures GetTokenDenom(creator, subdenom).Ok? ==>
              PipeFree(creator) && PipeFree(GetTokenDenom(creator, subdenom).value)
  {
    if GetTokenDenom(creator, subdenom).Ok? {
      FactoryDenomIs(creator, subdenom);
      ValidDenomIsPipeFree(FactoryDenom(creator, subdenom));
      hide FactoryDenom, ValidDenom;
    }
  }

  lemma DeconstructedIsPipeFree(bech: Bech32, d: Bytes)
    requires bech.Lawful() && DeconstructDenom(bech, d).Ok?
    ensures PipeFree(d) && PipeFree(DeconstructDenom(bech, d).value.creator)
  {
    ValidDenomIsPipeFree(d);
    DeconstructInverts(bech, d);
    hide Split, JoinSlash, ValidDenom, SpelledCreator, FactoryDenom;
  }

  /** The denoms of a list that have a hook, in order. */
  function HookedOf(s: State, ds: seq<Bytes>): seq<Bytes>
    decreases |ds|
  {
    if ds == [] then []
    else (if s.HookOf(ds[0]) != [] then [ds[0]] else []) + HookedOf(s, ds[1..])
  }

  lemma {:induction false} HookedOfSnoc(s: State, ds: seq<Bytes>, d: Bytes)
    ensures HookedOf(s, ds + [d]) == HookedOf(s, ds) + (if s.HookOf(d) != [] then [d] else [])
    decreases |ds|
  {
    hide State.HookOf;
    if ds == [] {
      assert [d][1..] == [];
      assert ds + [d] == [d];
    } else {
      assert (ds + [d])[1..] == ds[1..] + [d];
      HookedOfSnoc(s, ds[1..], d);
    }
  }

  lemma {:induction false} HookedOfIsFilter(s: State, ds: seq<Bytes>, d: Bytes)
    ensures d in HookedOf(s, ds) <==> d in ds && s.HookOf(d) != []
    decreases |ds|
  {
    hide State.HookOf;
    if ds != [] {
      HookedOfIsFilter(s, ds[1..], d);
      assert ds == [ds[0]] + ds[1..];
    }
  }

  predicate NoRepeats(ds: seq<Bytes>) {
    forall i, j :: 0 <= i < j < |ds| ==> ds[i] != ds[j]
  }

  lemma {:induction false} HookedOfNoRepeats(s: State, ds: seq<Bytes>)
    requires NoRepeats(ds)
    ensures NoRepeats(HookedOf(s, ds))
    decreases |ds|
  {
    hide State.HookOf;
    if ds != [] {
      var rest := HookedOf(s, ds[1..]);
      HookedOfNoRepeats(s, ds[1..]);
      HookedOfIsFilter(s, ds[1..], ds[0]);
      assert ds[0] !in ds[1..];
      assert forall i :: 0 <= i < |rest| ==> rest[i] in rest;
    }
  }

  /**
   * In every state where the structures agree the listing of hooks names each hooked denom
   * exactly once and no other.
   */
  lemma HookListingIsComplete(cfg: Config, kv: KV, s: State)
    requires cfg.bech.Lawful()
    requires Holds(kv, s.tables) && Agree(cfg, s)
    ensures forall d :: d in HookedOf(s, ListDenoms(kv)) <==> d in s.tables.hooks
    ensures NoRepeats(HookedOf(s, ListDenoms(kv)))
  {
    ListingIsTheRegistry(cfg, kv, s);
    HooksAreRegistered(cfg, s);
    hide Agree, Holds, ListDenoms;
    HookedOfNoRepeats(s, ListDenoms(kv));
    forall d ensures d in HookedOf(s, ListDenoms(kv)) <==> d in s.tables.hooks {
      HookedOfIsFilter(s, ListDenoms(kv), d);
    }
  }

  lemma HooksAreRegistered(cfg: Config, s: State)
    requires cfg.bech.Lawful() && Agree(cfg, s)
    ensures forall d :: d in s.tables.hooks ==> d in s.tables.admins && s.tables.hooks[d] != []
  {
    hide DeconstructDenom, NamedIn, Registered;
  }

  // ----- one creator's listing ----------------------------------------------------------------------------

  lemma {:induction false} LeBehindPrefix(p: Bytes, a: Bytes, b: Bytes)
    ensures Le(p + a, p + b) <==> Le(a, b)
    decreases |p|
  {
    if p == [] {
      assert p + a == a && p + b == b;
    } else {
      assert (p + a)[1..] == p[1..] + a && (p + b)[1..] == p[1..] + b;
      LeBehindPrefix(p[1..], a, b);
    }
  }

  /** Stripping the prefix off a creator's keys gives that creator's denoms, in ascending order. */
  lemma CreatorsDenoms(kv: KV, t: Tables, creator: Bytes, denoms: seq<Bytes>)
    requires Holds(kv, t)
    requires var ks := Iterate(kv, CreatorPrefix(creator));
             |denoms| == |ks| && forall j :: 0 <= j < |ks| ==> denoms[j] == ks[j][|CreatorPrefix(creator)|..]
    ensures forall d :: d in denoms <==> (creator, d) in t.index
    ensures Ascending(denoms)
  {
    var prefix := CreatorPrefix(creator);
    var ks := Iterate(kv, prefix);
    CreatorPrefixIsOneCreator(kv, t, creator);
    forall j | 0 <= j < |ks| ensures ks[j] == prefix + denoms[j] && (creator, denoms[j]) in t.index {
      assert ks[j] in ks;
      KeyOfCreator(kv, t, creator, ks[j]);
    }
    forall d | (creator, d) in t.index ensures d in denoms {
      var p := (creator, d);
      assert p in t.index && p.0 == creator && IndexKey(p.0, p.1) in KeysUnder(kv, prefix);
      assert IndexKey(creator, d) in ks;
      var j :| 0 <= j < |ks| && ks[j] == IndexKey(creator, d);
      assert denoms[j] == d;
    }
    hide Le, Holds, CreatorPrefix, IndexKey;
    forall i, j | 0 <= i < j < |denoms| ensures Less(denoms[i], denoms[j]) {
      assert Less(ks[i], ks[j]);
      LeBehindPrefix(prefix, denoms[i], denoms[j]);
    }
  }

  lemma KeyOfCreator(kv: KV, t: Tables, creator: Bytes, k: Bytes)
    requires Holds(kv, t) && k in KeysUnder(kv, CreatorPrefix(creator))
    ensures var n := |CreatorPrefix(creator)|;
            |k| >= n && k == CreatorPrefix(creator) + k[n..] && (creator, k[n..]) in t.index
  {
    CreatorPrefixIsOneCreator(kv, t, creator);
    var p :| p in t.index && p.0 == creator && k == IndexKey(p.0, p.1);
    assert p == (creator, p.1);
    assert k[|CreatorPrefix(creator)|..] == p.1;
  }
}
