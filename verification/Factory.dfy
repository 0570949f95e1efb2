/**
 * What each message of the token factory does, on the tables and the bank: the specification
 * the keeper's methods are proved against.
 */
module Factory {
  import opened Common
  import opened Order
  import opened Messages
  import opened Denoms
  import opened Store
  import opened Bank

  /** "tokenfactory" */
  const TOKENFACTORY: Bytes := [0x74, 0x6F, 0x6B, 0x65, 0x6E, 0x66, 0x61, 0x63, 0x74, 0x6F, 0x72, 0x79]

  /** "distribution" */
  const DISTRIBUTION: Bytes := [0x64, 0x69, 0x73, 0x74, 0x72, 0x69, 0x62, 0x75, 0x74, 0x69, 0x6F, 0x6E]

  /** The parts of the application the keeper is built over. */
  datatype Config = Config(
    bech: Bech32,
    perms: set<Bytes>,             // names of the module accounts with permissions
    moduleAddr: Bytes -> Addr,     // address of a module account
    resolves: Bytes -> bool,       // whether GetModuleAccount finds the account
    blocked: set<Addr>,            // addresses the bank refuses to send to
    metadataOk: Metadata -> bool,  // bank Metadata.Validate
    rawModule: Bytes -> bool,      // whether a module account sits at these raw address bytes
    hasContracts: bool)            // whether the wasm keeper is set
  {
    /** The account the factory mints to and burns from. */
    function FactoryAddr(): Addr {
      moduleAddr(TOKENFACTORY)
    }

    /** NewKeeper's permAddrMap: the printed addresses of the module accounts. */
    function PermAddrs(): set<Bytes> {
      set name | name in perms :: bech.show(moduleAddr(name))
    }

    predicate IsModuleAcc(a: Addr) {
      bech.show(a) in PermAddrs()
    }

    /** `a` is the address of a module account. */
    predicate IsModule(a: Addr) {
      exists name :: name in perms && moduleAddr(name) == a
    }

    /** GetModuleAccount finds every module account. */
    predicate AllFound() {
      forall name :: name in perms ==> resolves(name)
    }

    ghost predicate Lawful() {
      && bech.Lawful()
      && (forall name :: name in perms ==> bech.Valid(moduleAddr(name)))
      && TOKENFACTORY in perms && DISTRIBUTION in perms
      && moduleAddr(TOKENFACTORY) != moduleAddr(DISTRIBUTION)
      && FactoryAddr() in blocked
    }
  }

  /** The printed-address map answers the question it is asked: is this a module account? */
  lemma IsModuleAccIsIsModule(cfg: Config, a: Addr)
    requires cfg.Lawful() && cfg.bech.Valid(a)
    ensures cfg.IsModuleAcc(a) <==> cfg.IsModule(a)
  {
    if cfg.IsModuleAcc(a) {
      var name :| name in cfg.perms && cfg.bech.show(cfg.moduleAddr(name)) == cfg.bech.show(a);
      assert cfg.moduleAddr(name) == a;
    }
  }

  /** Addresses with a second spelling that is read but never written: `A` for the address `a`. */
  function ParseTwoSpellings(s: Bytes): Option<Addr> {
    if s == [0x41] then Some([0x61])
    else if s != [] && |s| <= MAX_BECH32_LENGTH && SLASH !in s && PIPE !in s then Some(s)
    else None
  }

  const TWO_SPELLINGS := Config(Bech32(ParseTwoSpellings, a => a), {TOKENFACTORY, DISTRIBUTION}, name => name,
                                _ => true, {TOKENFACTORY}, _ => true, _ => false, true)

  lemma TwoSpellingsBech32()
    ensures TWO_SPELLINGS.bech.Lawful()
    ensures TWO_SPELLINGS.bech.Parses([0x41]) && !TWO_SPELLINGS.bech.Canonical([0x41])
  {
  }

  /** The laws asked of the application can be met together, also when an address has two spellings. */
  lemma TwoSpellingsAreLawful()
    ensures TWO_SPELLINGS.Lawful()
    ensures TWO_SPELLINGS.bech.Parses([0x41]) && !TWO_SPELLINGS.bech.Canonical([0x41])
  {
    TwoSpellingsBech32();
    assert TOKENFACTORY[0] != DISTRIBUTION[0];
    hide Bech32.Lawful, Bech32.Canonical;
  }

  datatype State = State(tables: Tables, bank: Bank, params: Params) {
    /** GetAuthorityMetadata: a missing record reads as an empty one. */
    function AuthorityOf(denom: Bytes): Authority {
      if denom in tables.admins then tables.admins[denom] else NO_AUTHORITY
    }

    function AdminOf(denom: Bytes): Bytes {
      AuthorityOf(denom).admin
    }

    /** GetBeforeSendHook: a missing hook reads as the empty string. */
    function HookOf(denom: Bytes): Bytes {
      if denom in tables.hooks then tables.hooks[denom] else []
    }
  }

  datatype KeeperError =
    | InvalidAddress
    | BadDenom(why: DenomError)
    | BadCoins
    | BadMetadata
    | BadAuthority
    | NativeDenom
    | DenomExists
    | DenomDoesNotExist
    | Unauthorized
    | MintToModuleAccount
    | BurnFromModuleAccount
    | ModuleAccountNotFound
    | SendFromModuleAccount
    | SendToModuleAccount
    | BankRefused(bank: BankError)
    | OutOfGas
    | NoContractKeeper
    | NoSuchContract
    | BadGenesis

  /** What the contract answers to the probe of MsgSetBeforeSendHook. */
  datatype Probe = Accepts | NotThere | Fails | Aborts

  datatype Msg =
    | MsgCreateDenom(sender: Bytes, subdenom: Bytes)
    | MsgMint(sender: Bytes, amount: Coin, mintTo: Bytes)
    | MsgBurn(sender: Bytes, amount: Coin, burnFrom: Bytes)
    | MsgForceTransfer(sender: Bytes, amount: Coin, transferFrom: Bytes, transferTo: Bytes)
    | MsgChangeAdmin(sender: Bytes, denom: Bytes, newAdmin: Bytes)
    | MsgSetDenomMetadata(sender: Bytes, metadata: Metadata)
    | MsgSetBeforeSendHook(sender: Bytes, denom: Bytes, contract: Bytes)
    | MsgSend(sender: Bytes, recipient: Bytes, coins: seq<Coin>)

  /** A message with the gas left for it and the answer of the contract it may probe. */
  datatype Tx = Tx(msg: Msg, gasLeft: nat, probe: Probe)

  // ----- ValidateBasic ---------------------------------------------------------------

  function ValidateBasic(cfg: Config, msg: Msg): Option<KeeperError> {
    if !cfg.bech.Parses(msg.sender) then Some(InvalidAddress)
    else
      match msg
      case MsgCreateDenom(sender, subdenom) => (
        match GetTokenDenom(sender, subdenom)
        case Err(e) => Some(BadDenom(e))
        case Ok(_) => None)
      case MsgMint(_, amount, _) => if !ValidCoin(amount) || amount.amount == 0 then Some(BadCoins) else None
      case MsgBurn(_, amount, _) => if !ValidCoin(amount) || amount.amount == 0 then Some(BadCoins) else None
      case MsgForceTransfer(_, amount, from, to) =>
        if !cfg.bech.Parses(from) || !cfg.bech.Parses(to) then Some(InvalidAddress)
        else if !ValidCoin(amount) then Some(BadCoins)
        else None
      case MsgChangeAdmin(_, denom, newAdmin) =>
        if !cfg.bech.Parses(newAdmin) then Some(InvalidAddress) else DenomRefusal(cfg, denom)
      case MsgSetDenomMetadata(_, metadata) =>
        if !cfg.metadataOk(metadata) then Some(BadMetadata) else DenomRefusal(cfg, metadata.base)
      case MsgSetBeforeSendHook(_, denom, contract) =>
        if contract != [] && !cfg.bech.Parses(contract) then Some(InvalidAddress) else DenomRefusal(cfg, denom)
      case MsgSend(_, recipient, coins) =>
        if !cfg.bech.Parses(recipient) then Some(InvalidAddress)
        else if !ValidCoins(coins) || coins == [] then Some(BadCoins)
        else None
  }

  /** DeconstructDenom's verdict on a denom */
  function DenomRefusal(cfg: Config, denom: Bytes): Option<KeeperError> {
    match DeconstructDenom(cfg.bech, denom)
    case Err(e) => Some(BadDenom(e))
    case Ok(_) => None
  }

  // ----- the bank side of mint, burn and force transfer ----------------------------------

  function FromBank(r: Result<Bank, BankError>): Result<Bank, KeeperError> {
    match r
    case Err(e) => Err(BankRefused(e))
    case Ok(b) => Ok(b)
  }

  /** mintTo: mint to the factory's account, then pay out */
  function MintTo(cfg: Config, bank: Bank, amount: Coin, to: Bytes): Result<Bank, KeeperError> {
    if DenomRefusal(cfg, amount.denom).Some? then Err(DenomRefusal(cfg, amount.denom).value)
    else
      match cfg.bech.parse(to)
      case None => Err(InvalidAddress)
      case Some(addr) =>
        if cfg.IsModuleAcc(addr) then Err(MintToModuleAccount)
        else
          match MintCoins(bank, cfg.FactoryAddr(), amount)
          case Err(e) => Err(BankRefused(e))
          case Ok(minted) =>
            if addr in cfg.blocked then Err(BankRefused(BlockedRecipient))
            else FromBank(SendCoins(minted, cfg.FactoryAddr(), addr, NewCoins(amount)))
  }

  /** burnFrom: collect into the factory's account, then burn there */
  function BurnFrom(cfg: Config, bank: Bank, amount: Coin, from: Bytes): Result<Bank, KeeperError> {
    if DenomRefusal(cfg, amount.denom).Some? then Err(DenomRefusal(cfg, amount.denom).value)
    else
      match cfg.bech.parse(from)
      case None => Err(InvalidAddress)
      case Some(addr) =>
        if cfg.IsModuleAcc(addr) then Err(BurnFromModuleAccount)
        else
          match SendCoins(bank, addr, cfg.FactoryAddr(), NewCoins(amount))
          case Err(e) => Err(BankRefused(e))
          case Ok(paid) => FromBank(BurnCoins(paid, cfg.FactoryAddr(), amount))
  }

  /** The scan of forceTransfer over the module names in ascending order. */
  function ScanModules(cfg: Config, names: seq<Bytes>, from: Addr, to: Addr): Option<KeeperError>
    decreases |names|
  {
    if names == [] then None
    else if !cfg.resolves(names[0]) then Some(ModuleAccountNotFound)
    else if cfg.moduleAddr(names[0]) == from then Some(SendFromModuleAccount)
    else if cfg.moduleAddr(names[0]) == to then Some(SendToModuleAccount)
    else ScanModules(cfg, names[1..], from, to)
  }

  function Transfer(cfg: Config, bank: Bank, amount: Coin, from: Bytes, to: Bytes): Result<Bank, KeeperError> {
    if DenomRefusal(cfg, amount.denom).Some? then Err(DenomRefusal(cfg, amount.denom).value)
    else if !cfg.bech.Parses(from) || !cfg.bech.Parses(to) then Err(InvalidAddress)
    else
      var fromAddr, toAddr := cfg.bech.parse(from).value, cfg.bech.parse(to).value;
      match ScanModules(cfg, Sorted(cfg.perms), fromAddr, toAddr)
      case Some(e) => Err(e)
      case None => FromBank(SendCoins(bank, fromAddr, toAddr, NewCoins(amount)))
  }

  lemma {:induction false} ScanAccepts(cfg: Config, names: seq<Bytes>, from: Addr, to: Addr)
    ensures ScanModules(cfg, names, from, to).None? <==>
            forall name :: name in names ==>
              cfg.resolves(name) && cfg.moduleAddr(name) != from && cfg.moduleAddr(name) != to
    decreases |names|
  {
    if names != [] {
      ScanAccepts(cfg, names[1..], from, to);
      assert names == [names[0]] + names[1..];
    }
  }

  /**
   * The linear scan accepts exactly when every module account is found and the address map
   * says of neither end that it is a module account.
   */
  lemma ScanAgreesWithMap(cfg: Config, from: Addr, to: Addr)
    requires cfg.Lawful() && cfg.bech.Valid(from) && cfg.bech.Valid(to)
    ensures ScanModules(cfg, Sorted(cfg.perms), from, to).None? <==>
            cfg.AllFound() && !cfg.IsModuleAcc(from) && !cfg.IsModuleAcc(to)
  {
    ScanAccepts(cfg, Sorted(cfg.perms), from, to);
    IsModuleAccIsIsModule(cfg, from);
    IsModuleAccIsIsModule(cfg, to);
    hide Config.IsModuleAcc, Config.Lawful, ScanModules;
  }

  // ----- records -----------------------------------------------------------------------------

  function DefaultMetadata(denom: Bytes): Metadata {
    Metadata(denom, denom, denom, denom, [DenomUnit(denom, 0)])
  }

  /** The metadata of a denom nobody has described yet: every name is the denom, its only unit. */
  predicate Undescribed(m: Metadata, denom: Bytes) {
    && m.base == denom && m.name == denom && m.symbol == denom && m.display == denom
    && |m.units| == 1 && m.units[0].denom == denom && m.units[0].exponent == 0
  }

  lemma DefaultMetadataIs(denom: Bytes)
    ensures Undescribed(DefaultMetadata(denom), denom)
  {
  }

  /** Such metadata passes the bank's own check of units. */
  lemma UndescribedIsWellFormed(m: Metadata, denom: Bytes)
    requires Undescribed(m, denom)
    ensures WellFormedUnits(m)
  {
    assert m.units[0] in m.units;
  }

  predicate AuthorityOk(cfg: Config, a: Authority) {
    a.admin == [] || cfg.bech.Parses(a.admin)
  }

  function WithAuthority(s: State, denom: Bytes, a: Authority): State {
    s.(tables := s.tables.(admins := s.tables.admins[denom := a]))
  }

  function WithMetadata(s: State, m: Metadata): State {
    s.(bank := s.bank.(meta := s.bank.meta[m.base := m]))
  }

  /** createDenomAfterValidation */
  function Register(cfg: Config, s: State, creator: Bytes, denom: Bytes): Result<State, KeeperError> {
    var s1 := if denom in s.bank.meta then s else WithMetadata(s, DefaultMetadata(denom));
    if !AuthorityOk(cfg, Authority(creator)) then Err(BadAuthority)
    else
      var s2 := WithAuthority(s1, denom, Authority(creator));
      Ok(s2.(tables := s2.tables.(index := s2.tables.index + {(creator, denom)})))
  }

  // ----- the messages ----------------------------------------------------------------------------

  /** chargeForCreateDenom: the fee goes to the community pool, then gas is consumed. */
  function Charge(cfg: Config, s: State, creator: Bytes, gasLeft: nat): Result<Bank, KeeperError> {
    match cfg.bech.parse(creator)
    case None => Err(InvalidAddress)
    case Some(addr) =>
      match SendCoins(s.bank, addr, cfg.moduleAddr(DISTRIBUTION), s.params.fee)
      case Err(e) => Err(BankRefused(e))
      case Ok(paid) => if s.params.gas > gasLeft then Err(OutOfGas) else Ok(paid)
  }

  function Create(cfg: Config, s: State, sender: Bytes, subdenom: Bytes, gasLeft: nat): Result<State, KeeperError> {
    if s.bank.HasSupply(subdenom) then Err(NativeDenom)
    else
      match GetTokenDenom(sender, subdenom)
      case Err(e) => Err(BadDenom(e))
      case Ok(denom) =>
        if denom in s.bank.meta then Err(DenomExists)
        else
          match Charge(cfg, s, sender, gasLeft)
          case Err(e) => Err(e)
          case Ok(paid) => Register(cfg, s.(bank := paid), sender, denom)
  }

  function WithBank(s: State, r: Result<Bank, KeeperError>): Result<State, KeeperError> {
    match r
    case Err(e) => Err(e)
    case Ok(b) => Ok(s.(bank := b))
  }

  function OrElse(given: Bytes, default: Bytes): Bytes {
    if given == [] then default else given
  }

  /** setBeforeSendHook */
  function PlaceHook(cfg: Config, s: State, denom: Bytes, contract: Bytes, probe: Probe): Result<State, KeeperError> {
    if DenomRefusal(cfg, denom).Some? then Err(DenomRefusal(cfg, denom).value)
    else if contract == [] then Ok(s.(tables := s.tables.(hooks := s.tables.hooks - {denom})))
    else if !cfg.hasContracts then Err(NoContractKeeper)
    else if !cfg.bech.Parses(contract) then Err(InvalidAddress)
    else if probe == Aborts then Err(OutOfGas)
    else if probe == NotThere then Err(NoSuchContract)
    else Ok(s.(tables := s.tables.(hooks := s.tables.hooks[denom := contract])))
  }

  /** What a message does when its handler succeeds, or why it fails. */
  function Handle(cfg: Config, s: State, tx: Tx): Result<State, KeeperError> {
    match tx.msg
    case MsgCreateDenom(sender, subdenom) => Create(cfg, s, sender, subdenom, tx.gasLeft)
    case MsgMint(sender, amount, mintTo) =>
      if amount.denom !in s.bank.meta then Err(DenomDoesNotExist)
      else if sender != s.AdminOf(amount.denom) then Err(Unauthorized)
      else WithBank(s, MintTo(cfg, s.bank, amount, OrElse(mintTo, sender)))
    case MsgBurn(sender, amount, burnFrom) =>
      if sender != s.AdminOf(amount.denom) then Err(Unauthorized)
      else if cfg.rawModule(OrElse(burnFrom, sender)) then Err(BurnFromModuleAccount)
      else WithBank(s, BurnFrom(cfg, s.bank, amount, OrElse(burnFrom, sender)))
    case MsgForceTransfer(sender, amount, from, to) =>
      if sender != s.AdminOf(amount.denom) then Err(Unauthorized)
      else WithBank(s, Transfer(cfg, s.bank, amount, from, to))
    case MsgChangeAdmin(sender, denom, newAdmin) =>
      if sender != s.AdminOf(denom) then Err(Unauthorized)
      else if !AuthorityOk(cfg, Authority(newAdmin)) then Err(BadAuthority)
      else Ok(WithAuthority(s, denom, Authority(newAdmin)))
    case MsgSetDenomMetadata(sender, metadata) =>
      if !cfg.metadataOk(metadata) then Err(BadMetadata)
      else if sender != s.AdminOf(metadata.base) then Err(Unauthorized)
      else Ok(WithMetadata(s, metadata))
    case MsgSetBeforeSendHook(sender, denom, contract) =>
      if sender != s.AdminOf(denom) then Err(Unauthorized)
      else PlaceHook(cfg, s, denom, contract, tx.probe)
    case MsgSend(sender, recipient, coins) =>
      if !cfg.bech.Parses(sender) || !cfg.bech.Parses(recipient) then Err(InvalidAddress)
      else if cfg.bech.parse(recipient).value in cfg.blocked then Err(BankRefused(BlockedRecipient))
      else
        var from, to := cfg.bech.parse(sender).value, cfg.bech.parse(recipient).value;
        WithBank(s, FromBank(SendCoins(s.bank, from, to, coins)))
  }

  /** A transaction: ValidateBasic, then the handler; an error leaves the state as it was. */
  function Deliver(cfg: Config, s: State, tx: Tx): (State, Option<KeeperError>) {
    if ValidateBasic(cfg, tx.msg).Some? then (s, ValidateBasic(cfg, tx.msg))
    else
      match Handle(cfg, s, tx)
      case Err(e) => (s, Some(e))
      case Ok(n) => (n, None)
  }

  /** The state after a run of transactions. */
  function Run(cfg: Config, s: State, txs: seq<Tx>): State
    decreases |txs|
  {
    if txs == [] then s else Run(cfg, Deliver(cfg, s, txs[0]).0, txs[1..])
  }
}
