/** Genesis validation, import and export, and what survives the trip in both directions. */
module GenesisRoundTrip {
  import opened Common
  import opened Order
  import opened Messages
  import opened Denoms
  import opened Store
  import opened Factory
  import opened Safety
  import opened History
  import opened Bank

  // ----- GenesisState.Validate ---------------------------------------------------------

  predicate DenomOk(cfg: Config, d: GenesisDenom) {
    DenomRefusal(cfg, d.denom).None? && AuthorityOk(cfg, d.authority)
  }

  /** The loop of Validate over the denoms, with the denoms already seen. */
  function CheckDenoms(cfg: Config, ds: seq<GenesisDenom>, seen: set<Bytes>): Option<KeeperError>
    decreases |ds|
  {
    if ds == [] then None
    else if ds[0].denom in seen then Some(BadGenesis)
    else if DenomRefusal(cfg, ds[0].denom).Some? then DenomRefusal(cfg, ds[0].denom)
    else if !AuthorityOk(cfg, ds[0].authority) then Some(BadAuthority)
    else CheckDenoms(cfg, ds[1..], seen + {ds[0].denom})
  }

  function Validate(cfg: Config, g: Genesis): Option<KeeperError> {
    if !ValidCoins(g.params.fee) then Some(BadCoins) else CheckDenoms(cfg, g.denoms, {})
  }

  /** What Validate is for: factory denoms of parseable creators, each with no admin or one that parses. */
  ghost predicate WellFormed(cfg: Config, g: Genesis) {
    && ValidCoins(g.params.fee)
    && (forall i :: 0 <= i < |g.denoms| ==> Sound(cfg, g.denoms[i]))
    && Distinct(g.denoms)
  }

  ghost predicate Sound(cfg: Config, x: GenesisDenom) {
    && ValidDenom(x.denom) && (exists c, s :: SpelledAs(cfg.bech, x.denom, c, s))
    && (x.authority.admin == [] || cfg.bech.Parses(x.authority.admin))
  }

  lemma DenomOkIsSound(cfg: Config, x: GenesisDenom)
    ensures DenomOk(cfg, x) <==> Sound(cfg, x)
  {
    hide DeconstructDenom, ValidDenom, SpelledAs;
    DeconstructExactly(cfg.bech, x.denom);
  }

  ghost predicate Distinct(ds: seq<GenesisDenom>) {
    forall i, j :: 0 <= i < j < |ds| ==> ds[i].denom != ds[j].denom
  }

  lemma {:induction false} CheckDenomsFinds(cfg: Config, ds: seq<GenesisDenom>, seen: set<Bytes>)
    ensures CheckDenoms(cfg, ds, seen).None? <==>
            (forall i :: 0 <= i < |ds| ==> DenomOk(cfg, ds[i]) && ds[i].denom !in seen) && Distinct(ds)
    decreases |ds|
  {
    hide DenomRefusal, AuthorityOk;
    if ds != [] {
      CheckDenomsFinds(cfg, ds[1..], seen + {ds[0].denom});
      assert forall i :: 0 <= i < |ds[1..]| ==> ds[1..][i] == ds[i + 1];
      assert forall i :: 0 < i < |ds| ==> ds[i] == ds[1..][i - 1];
    }
  }

  /** Validate accepts exactly the well-formed genesis states. */
  lemma ValidateAcceptsWellFormed(cfg: Config, g: Genesis)
    ensures Validate(cfg, g).None? <==> WellFormed(cfg, g)
  {
    CheckDenomsFinds(cfg, g.denoms, {});
    forall x ensures DenomOk(cfg, x) <==> Sound(cfg, x) { DenomOkIsSound(cfg, x); }
    hide CheckDenoms, ValidCoins, DenomOk, Sound;
  }

  // ----- InitGenesis ------------------------------------------------------------------------

  /** One denom of the genesis: registered under the creator named in it, then given its authority. */
  function InitDenom(cfg: Config, s: State, d: GenesisDenom): Result<State, KeeperError> {
    match DeconstructDenom(cfg.bech, d.denom)
    case Err(e) => Err(BadDenom(e))
    case Ok(parts) =>
      match Register(cfg, s, parts.creator, d.denom)
      case Err(e) => Err(e)
      case Ok(registered) =>
        if !AuthorityOk(cfg, d.authority) then Err(BadAuthority)
        else Ok(WithAuthority(registered, d.denom, d.authority))
  }

  function InitDenoms(cfg: Config, s: State, ds: seq<GenesisDenom>): Result<State, KeeperError>
    decreases |ds|
  {
    if ds == [] then Ok(s)
    else
      match InitDenom(cfg, s, ds[0])
      case Err(e) => Err(e)
      case Ok(n) => InitDenoms(cfg, n, ds[1..])
  }

  /** InitGenesis; an error is a panic of InitGenesis or of SetParams. */
  function Init(cfg: Config, s: State, g: Genesis): Result<State, KeeperError> {
    if !ValidCoins(g.params.fee) then Err(BadGenesis)
    else InitDenoms(cfg, s.(params := g.params), g.denoms)
  }

  lemma InitDenomDoes(cfg: Config, s: State, d: GenesisDenom)
    requires cfg.bech.Lawful() && DenomOk(cfg, d)
    requires Agree(cfg, s) && FiledCanonically(cfg, s)
    requires d.denom !in s.tables.admins
    ensures InitDenom(cfg, s, d).Ok?
    ensures var n := InitDenom(cfg, s, d).value;
            && Agree(cfg, n) && FiledCanonically(cfg, n)
            && n.tables.admins == s.tables.admins[d.denom := d.authority]
            && n.tables.hooks == s.tables.hooks && n.params == s.params
  {
    hide Agree, NamedIn, FiledCanonically, DeconstructDenom, SpelledCreator, Register, AuthorityOk;
    var creator := DeconstructDenom(cfg.bech, d.denom).value.creator;
    NamedByDeconstruct(cfg, d.denom);
    RegisterKeepsAgree(cfg, s, creator, d.denom);
    RegisterFiles(cfg, s, creator, d.denom);
    var m := Register(cfg, s, creator, d.denom).value;
    SetAdminKeepsAgree(cfg, m, d.denom, d.authority);
    FilingIgnoresAdmins(cfg, m, d.denom, d.authority);
  }

  /** DeconstructDenom names the creator by its canonical spelling, which parses. */
  lemma NamedByDeconstruct(cfg: Config, d: Bytes)
    requires cfg.bech.Lawful() && DeconstructDenom(cfg.bech, d).Ok?
    ensures var c := DeconstructDenom(cfg.bech, d).value.creator;
            NamedIn(cfg, c, d) && AuthorityOk(cfg, Authority(c))
  {
    DeconstructInverts(cfg.bech, d);
    hide DeconstructDenom, SpelledCreator;
  }

  lemma RegisterFiles(cfg: Config, s: State, creator: Bytes, d: Bytes)
    requires FiledCanonically(cfg, s)
    requires DeconstructDenom(cfg.bech, d).Ok? && DeconstructDenom(cfg.bech, d).value.creator == creator
    requires AuthorityOk(cfg, Authority(creator))
    ensures Register(cfg, s, creator, d).Ok?
    ensures var m := Register(cfg, s, creator, d).value;
            && FiledCanonically(cfg, m)
            && m.tables.admins == s.tables.admins[d := Authority(creator)]
            && m.tables.hooks == s.tables.hooks && m.params == s.params
  {
    hide DeconstructDenom, AuthorityOk;
    assert Register(cfg, s, creator, d).value.tables.index == s.tables.index + {(creator, d)};
  }

  lemma FilingIgnoresAdmins(cfg: Config, s: State, d: Bytes, a: Authority)
    requires FiledCanonically(cfg, s)
    ensures FiledCanonically(cfg, WithAuthority(s, d, a))
  {
    hide DeconstructDenom;
  }

  /** What the denoms of a genesis turn into. */
  lemma {:induction false} InitDenomsDoes(cfg: Config, s: State, ds: seq<GenesisDenom>)
    requires cfg.bech.Lawful()
    requires Agree(cfg, s) && FiledCanonically(cfg, s)
    requires forall i :: 0 <= i < |ds| ==> DenomOk(cfg, ds[i]) && ds[i].denom !in s.tables.admins
    requires Distinct(ds)
    ensures InitDenoms(cfg, s, ds).Ok?
    ensures var n := InitDenoms(cfg, s, ds).value;
            && Agree(cfg, n) && FiledCanonically(cfg, n)
            && n.tables.hooks == s.tables.hooks && n.params == s.params
            && (forall d :: d in s.tables.admins ==> d in n.tables.admins && n.tables.admins[d] == s.tables.admins[d])
            && (forall x :: x in ds ==> x.denom in n.tables.admins && n.tables.admins[x.denom] == x.authority)
            && (forall d :: d in n.tables.admins ==> d in s.tables.admins || exists x :: x in ds && x.denom == d)
    decreases |ds|
  {
    hide Agree, FiledCanonically, DenomOk, InitDenom;
    if ds != [] {
      InitDenomDoes(cfg, s, ds[0]);
      var m := InitDenom(cfg, s, ds[0]).value;
      var rest := ds[1..];
      assert ds == [ds[0]] + rest;
      assert forall i :: 0 <= i < |rest| ==> rest[i] == ds[i + 1];
      InitDenomsDoes(cfg, m, rest);
    }
  }

  /** Importing a well-formed genesis into an empty store. */
  lemma InitDoes(cfg: Config, g: Genesis, bank: Bank, before: Params)
    requires cfg.bech.Lawful() && WellFormed(cfg, g)
    ensures var r := Init(cfg, State(EMPTY_TABLES, bank, before), g);
            && r.Ok? && Agree(cfg, r.value) && FiledCanonically(cfg, r.value) && r.value.params == g.params
            && (forall x :: x in g.denoms ==>
                 x.denom in r.value.tables.admins && r.value.tables.admins[x.denom] == x.authority)
            && (forall d :: d in r.value.tables.admins ==> exists x :: x in g.denoms && x.denom == d)
  {
    EmptyAgrees(cfg, bank, g.params);
    forall x ensures DenomOk(cfg, x) <==> Sound(cfg, x) { DenomOkIsSound(cfg, x); }
    hide Agree, FiledCanonically, DenomOk, Sound, InitDenoms, Distinct, ValidCoins;
    InitDenomsDoes(cfg, State(EMPTY_TABLES, bank, g.params), g.denoms);
  }

  /** InitGenesis gets through exactly when fee and denoms are sound; unlike Validate it minds no repetition. */
  lemma InitAcceptsExactly(cfg: Config, s: State, g: Genesis)
    requires cfg.bech.Lawful()
    ensures Init(cfg, s, g).Ok? <==>
            ValidCoins(g.params.fee) && forall i :: 0 <= i < |g.denoms| ==> Sound(cfg, g.denoms[i])
  {
    InitDenomsAccepts(cfg, s.(params := g.params), g.denoms);
    hide InitDenoms, Sound, ValidCoins;
  }

  lemma {:induction false} InitDenomsAccepts(cfg: Config, s: State, ds: seq<GenesisDenom>)
    requires cfg.bech.Lawful()
    ensures InitDenoms(cfg, s, ds).Ok? <==> forall i :: 0 <= i < |ds| ==> Sound(cfg, ds[i])
    decreases |ds|
  {
    if ds != [] {
      InitDenomAccepts(cfg, s, ds[0]);
      hide InitDenom, Sound;
      if InitDenom(cfg, s, ds[0]).Ok? {
        InitDenomsAccepts(cfg, InitDenom(cfg, s, ds[0]).value, ds[1..]);
        assert forall i :: 0 < i < |ds| ==> ds[i] == ds[1..][i - 1];
      }
    }
  }

  lemma InitDenomAccepts(cfg: Config, s: State, x: GenesisDenom)
    requires cfg.bech.Lawful()
    ensures InitDenom(cfg, s, x).Ok? <==> Sound(cfg, x)
  {
    DenomOkIsSound(cfg, x);
    if DeconstructDenom(cfg.bech, x.denom).Ok? { NamedByDeconstruct(cfg, x.denom); }
    hide DeconstructDenom, Sound, NamedIn, Bech32.Lawful;
  }

  // ----- what InitGenesis does to the bank ---------------------------------------------------------

  /**
   * No money moves, metadata the bank already holds stays as it is, and the other listed denoms
   * get the metadata of a denom nobody has described.
   */
  ghost predicate OnlyAddsMetadata(b: Bank, n: Bank, listed: set<Bytes>) {
    && n.balances == b.balances && n.supply == b.supply
    && n.meta.Keys == b.meta.Keys + listed
    && (forall d :: d in b.meta ==> n.meta[d] == b.meta[d])
    && (forall d :: d in listed && d !in b.meta ==> Undescribed(n.meta[d], d))
  }

  function Listed(ds: seq<GenesisDenom>): set<Bytes> {
    set x | x in ds :: x.denom
  }

  lemma {:induction false} InitDenomsAddsMetadata(cfg: Config, s: State, ds: seq<GenesisDenom>)
    requires InitDenoms(cfg, s, ds).Ok?
    ensures OnlyAddsMetadata(s.bank, InitDenoms(cfg, s, ds).value.bank, Listed(ds))
    decreases |ds|
  {
    hide OnlyAddsMetadata, InitDenom;
    if ds == [] {
      assert Listed(ds) == {};
      AddsNothing(s.bank);
    } else {
      var n := InitDenom(cfg, s, ds[0]).value;
      InitDenomAddsMetadata(cfg, s, ds[0]);
      InitDenomsAddsMetadata(cfg, n, ds[1..]);
      ListedFirst(ds);
      AddsTwice(s.bank, n.bank, InitDenoms(cfg, s, ds).value.bank, {ds[0].denom}, Listed(ds[1..]));
      hide Listed;
    }
  }

  lemma ListedFirst(ds: seq<GenesisDenom>)
    requires ds != []
    ensures Listed(ds) == {ds[0].denom} + Listed(ds[1..])
  {
    assert ds == [ds[0]] + ds[1..];
  }

  lemma AddsNothing(b: Bank)
    ensures OnlyAddsMetadata(b, b, {})
  {
  }

  lemma AddsTwice(b: Bank, m: Bank, n: Bank, first: set<Bytes>, later: set<Bytes>)
    requires OnlyAddsMetadata(b, m, first) && OnlyAddsMetadata(m, n, later)
    ensures OnlyAddsMetadata(b, n, first + later)
  {
    hide Undescribed;
  }

  lemma InitDenomAddsMetadata(cfg: Config, s: State, x: GenesisDenom)
    requires InitDenom(cfg, s, x).Ok?
    ensures OnlyAddsMetadata(s.bank, InitDenom(cfg, s, x).value.bank, {x.denom})
  {
    DefaultMetadataIs(x.denom);
    hide DeconstructDenom, AuthorityOk;
  }

  /**
   * Importing a genesis over a bank that has its own state already, as on a restart from an
   * export: nothing the bank holds is lost or overwritten, and every listed denom has metadata.
   */
  lemma ImportKeepsTheBank(cfg: Config, s: State, g: Genesis)
    requires Init(cfg, s, g).Ok?
    ensures OnlyAddsMetadata(s.bank, Init(cfg, s, g).value.bank, Listed(g.denoms))
  {
    InitDenomsAddsMetadata(cfg, s.(params := g.params), g.denoms);
    hide OnlyAddsMetadata, InitDenoms, Listed, ValidCoins;
  }

  // ----- ExportGenesis -------------------------------------------------------------------------

  /** GetAllDenomsIterator: the denoms in the order of their index keys. */
  function ListDenoms(kv: KV): (ds: seq<Bytes>)
    ensures |ds| == |Iterate(kv, CreatorsPrefix())|
  {
    var ks := Iterate(kv, CreatorsPrefix());
    seq(|ks|, i requires 0 <= i < |ks| => kv[ks[i]])
  }

  /** The authority records of the listed denoms. */
  function ExportDenoms(s: State, ds: seq<Bytes>): (gs: seq<GenesisDenom>)
    ensures |gs| == |ds|
  {
    seq(|ds|, i requires 0 <= i < |ds| => GenesisDenom(ds[i], s.AuthorityOf(ds[i])))
  }

  function Export(kv: KV, s: State): Genesis {
    Genesis(s.params, ExportDenoms(s, ListDenoms(kv)))
  }

  /** The i-th key the iterator visits is the key of an index entry for the i-th denom. */
  lemma ListedEntry(kv: KV, t: Tables, i: nat) returns (c: Bytes)
    requires Holds(kv, t) && i < |ListDenoms(kv)|
    ensures (c, ListDenoms(kv)[i]) in t.index
    ensures Iterate(kv, CreatorsPrefix())[i] == IndexKey(c, ListDenoms(kv)[i])
  {
    CreatorsPrefixIsTheIndex(kv, t);
    var ks := Iterate(kv, CreatorsPrefix());
    assert ks[i] in ks && ks[i] in IndexKeys(t);
    var p :| p in t.index && ks[i] == IndexKey(p.0, p.1);
    assert p == (p.0, p.1);
    c := p.0;
    hide IndexKey, AuthorityKey, HookKey;
  }

  lemma EntryIsListed(kv: KV, t: Tables, c: Bytes, d: Bytes)
    requires Holds(kv, t) && (c, d) in t.index
    ensures d in ListDenoms(kv)
  {
    CreatorsPrefixIsTheIndex(kv, t);
    var ks := Iterate(kv, CreatorsPrefix());
    var p := (c, d);
    assert p in t.index && IndexKey(p.0, p.1) in IndexKeys(t);
    hide IndexKey, AuthorityKey, HookKey, CreatorsPrefix;
    assert IndexKey(c, d) in KeysUnder(kv, CreatorsPrefix());
    assert IndexKey(c, d) in ks;
    var i :| 0 <= i < |ks| && ks[i] == IndexKey(c, d);
    assert ListDenoms(kv)[i] == d;
  }

  /** The listing names every registered denom exactly once and no other. */
  lemma ListingIsTheRegistry(cfg: Config, kv: KV, s: State)
    requires Holds(kv, s.tables) && Agree(cfg, s)
    ensures forall d :: d in ListDenoms(kv) <==> d in s.tables.admins
    ensures forall i, j :: 0 <= i < j < |ListDenoms(kv)| ==> ListDenoms(kv)[i] != ListDenoms(kv)[j]
  {
    var ds := ListDenoms(kv);
    hide Holds, ListDenoms, NamedIn, Registered, IndexKey;
    forall d ensures d in ds <==> d in s.tables.admins {
      if d in ds {
        var i :| 0 <= i < |ds| && ds[i] == d;
        var c := ListedEntry(kv, s.tables, i);
      }
      if d in s.tables.admins {
        var c :| (c, d) in s.tables.index;
        EntryIsListed(kv, s.tables, c, d);
      }
    }
    forall i, j | 0 <= i < j < |ds| ensures ds[i] != ds[j] {
      ListedTwice(cfg, kv, s, i, j);
    }
  }

  lemma ListedTwice(cfg: Config, kv: KV, s: State, i: nat, j: nat)
    requires Holds(kv, s.tables) && Agree(cfg, s)
    requires i < j < |ListDenoms(kv)|
    ensures ListDenoms(kv)[i] != ListDenoms(kv)[j]
  {
    var ks := Iterate(kv, CreatorsPrefix());
    assert Less(ks[i], ks[j]);
    hide Holds, NamedIn, Registered, Less, IndexKey, Iterate, ListDenoms;
    var c := ListedEntry(kv, s.tables, i);
    var e := ListedEntry(kv, s.tables, j);
    assert ks[i] != ks[j] by { LessIsDifferent(ks[i], ks[j]); }
  }

  lemma LessIsDifferent(a: Bytes, b: Bytes)
    requires Less(a, b)
    ensures a != b
  {
  }

  /** Equal creator indexes are listed in the same order. */
  lemma SameIndexSameListing(kv: KV, t: Tables, kv': KV, t': Tables)
    requires Holds(kv, t) && Holds(kv', t') && t.index == t'.index
    ensures ListDenoms(kv) == ListDenoms(kv')
  {
    CreatorsPrefixIsTheIndex(kv, t);
    CreatorsPrefixIsTheIndex(kv', t');
    hide CreatorsPrefix;
    var ks := Iterate(kv, CreatorsPrefix());
    assert ks == Iterate(kv', CreatorsPrefix());
    forall i | 0 <= i < |ks| ensures kv[ks[i]] == kv'[ks[i]] {
      var c := ListedEntry(kv, t, i);
      assert (c, ListDenoms(kv)[i]).0 == c && (c, ListDenoms(kv)[i]).1 == ListDenoms(kv)[i];
      hide IndexKey, AuthorityKey, HookKey, Iterate;
    }
  }

  // ----- the round trips ---------------------------------------------------------------------------

  lemma ExportDenomsHas(s: State, ds: seq<Bytes>, x: GenesisDenom)
    ensures x in ExportDenoms(s, ds) <==> x.denom in ds && x.authority == s.AuthorityOf(x.denom)
  {
    var gs := ExportDenoms(s, ds);
    assert forall i :: 0 <= i < |ds| ==> gs[i].denom == ds[i];
    if x.denom in ds && x.authority == s.AuthorityOf(x.denom) {
      var i :| 0 <= i < |ds| && ds[i] == x.denom;
      assert gs[i] == x;
    }
  }

  /** Which denoms an export contains, given the registry. */
  lemma ExportedExactly(cfg: Config, kv: KV, s: State, x: GenesisDenom)
    requires Holds(kv, s.tables) && Agree(cfg, s)
    ensures x in Export(kv, s).denoms <==>
            x.denom in s.tables.admins && x.authority == s.tables.admins[x.denom]
  {
    hide ListDenoms, ExportDenoms, Agree, Holds;
    ListingIsTheRegistry(cfg, kv, s);
    ExportDenomsHas(s, ListDenoms(kv), x);
  }

  lemma ExportedDistinct(cfg: Config, kv: KV, s: State)
    requires Holds(kv, s.tables) && Agree(cfg, s)
    ensures Distinct(Export(kv, s).denoms)
  {
    ListingIsTheRegistry(cfg, kv, s);
    hide ListDenoms, Agree, Holds;
  }

  /**
   * A genesis that Validate accepts is imported without panic into an empty store, and exporting
   * gives back the same params and the same (denom, authority) pairs, each denom once. The
   * imported state is one where all structures agree.
   */
  lemma ImportThenExport(cfg: Config, g: Genesis, bank: Bank, before: Params, kv: KV)
    requires cfg.bech.Lawful()
    requires Validate(cfg, g).None?
    ensures var r := Init(cfg, State(EMPTY_TABLES, bank, before), g);
            && r.Ok? && Agree(cfg, r.value) && FiledCanonically(cfg, r.value)
            && (Holds(kv, r.value.tables) ==>
                 && Export(kv, r.value).params == g.params
                 && (forall x :: x in Export(kv, r.value).denoms <==> x in g.denoms)
                 && Distinct(Export(kv, r.value).denoms))
  {
    hide Agree, FiledCanonically, WellFormed, Validate, Distinct, Holds, ListDenoms, ExportDenoms, Init;
    ValidateAcceptsWellFormed(cfg, g);
    InitDoes(cfg, g, bank, before);
    var n := Init(cfg, State(EMPTY_TABLES, bank, before), g).value;
    if Holds(kv, n.tables) {
      forall x ensures x in Export(kv, n).denoms <==> x in g.denoms {
        ExportedExactly(cfg, kv, n, x);
        if x.denom in n.tables.admins && x.authority == n.tables.admins[x.denom] {
          var y :| y in g.denoms && y.denom == x.denom;
          assert y == x;
        }
      }
      ExportedDistinct(cfg, kv, n);
    }
  }

  /** Two states with canonical filing and the same registered denoms have the same index. */
  lemma CanonicalIndexIsUnique(cfg: Config, s: State, n: State)
    requires Agree(cfg, s) && Agree(cfg, n)
    requires s.tables.admins.Keys == n.tables.admins.Keys
    requires FiledCanonically(cfg, s) && FiledCanonically(cfg, n)
    ensures s.tables.index == n.tables.index
  {
    hide DeconstructDenom, NamedIn, Registered;
    forall p ensures p in s.tables.index <==> p in n.tables.index {
      assert p == (p.0, p.1);
      if p in s.tables.index {
        var c :| (c, p.1) in n.tables.index;
      }
      if p in n.tables.index {
        var c :| (c, p.1) in s.tables.index;
      }
    }
  }

  /** The export of any reachable state is accepted by Validate. */
  lemma ExportIsValid(cfg: Config, kv: KV, s: State)
    requires Holds(kv, s.tables) && Agree(cfg, s) && ValidCoins(s.params.fee)
    ensures Validate(cfg, Export(kv, s)).None?
  {
    hide Agree, Holds, DenomOk, Sound, Distinct, ListDenoms, ExportDenoms;
    var g := Export(kv, s);
    forall i | 0 <= i < |g.denoms| ensures DenomOk(cfg, g.denoms[i]) {
      assert g.denoms[i] in g.denoms;
      ExportedExactly(cfg, kv, s, g.denoms[i]);
      RegisteredIsOk(cfg, s, g.denoms[i].denom);
    }
    forall x ensures DenomOk(cfg, x) <==> Sound(cfg, x) { DenomOkIsSound(cfg, x); }
    ExportedDistinct(cfg, kv, s);
    ValidateAcceptsWellFormed(cfg, g);
  }

  lemma RegisteredIsOk(cfg: Config, s: State, d: Bytes)
    requires Agree(cfg, s) && d in s.tables.admins
    ensures DenomOk(cfg, GenesisDenom(d, s.tables.admins[d]))
  {
    assert Registered(cfg, s, d);
    hide DeconstructDenom;
  }

  /**
   * Importing the export of a reachable state into an empty store never panics and rebuilds the
   * same authority records and params. It rebuilds the same creator index exactly when every
   * denom was filed under the creator DeconstructDenom names, which is so when all creators used
   * canonical address strings; then exporting once more gives the very same genesis, in the same
   * order.
   */
  lemma ExportThenImport(cfg: Config, s: State, kv: KV, bank: Bank, before: Params, kv': KV)
    requires cfg.bech.Lawful()
    requires Holds(kv, s.tables) && Agree(cfg, s) && ValidCoins(s.params.fee)
    ensures var r := Init(cfg, State(EMPTY_TABLES, bank, before), Export(kv, s));
            && r.Ok? && Agree(cfg, r.value)
            && r.value.tables.admins == s.tables.admins && r.value.params == s.params
            && (r.value.tables.index == s.tables.index <==> FiledCanonically(cfg, s))
            && (Holds(kv', r.value.tables) && FiledCanonically(cfg, s) ==> Export(kv', r.value) == Export(kv, s))
  {
    var g := Export(kv, s);
    hide Agree, WellFormed, Validate, ListDenoms, ExportDenoms, FiledCanonically, Holds, ValidCoins, Init;
    ExportIsValid(cfg, kv, s);
    ValidateAcceptsWellFormed(cfg, g);
    InitDoes(cfg, g, bank, before);
    var n := Init(cfg, State(EMPTY_TABLES, bank, before), g).value;
    SameAdmins(cfg, kv, s, n);
    SameFiling(cfg, s, n);
    if FiledCanonically(cfg, s) {
      CanonicalIndexIsUnique(cfg, s, n);
      if Holds(kv', n.tables) {
        SameIndexSameListing(kv, s.tables, kv', n.tables);
        SameRecordsSameExport(s, n, ListDenoms(kv));
      }
    }
  }

  lemma SameFiling(cfg: Config, s: State, n: State)
    requires FiledCanonically(cfg, n)
    ensures s.tables.index == n.tables.index ==> FiledCanonically(cfg, s)
  {
    hide DeconstructDenom;
  }

  lemma SameRecordsSameExport(s: State, n: State, ds: seq<Bytes>)
    requires s.tables.admins == n.tables.admins
    ensures ExportDenoms(s, ds) == ExportDenoms(n, ds)
  {
  }

  lemma SameAdmins(cfg: Config, kv: KV, s: State, n: State)
    requires Holds(kv, s.tables) && Agree(cfg, s)
    requires forall x :: x in Export(kv, s).denoms ==>
               x.denom in n.tables.admins && n.tables.admins[x.denom] == x.authority
    requires forall d :: d in n.tables.admins ==> exists x :: x in Export(kv, s).denoms && x.denom == d
    ensures n.tables.admins == s.tables.admins
  {
    hide Agree, Holds, Export;
    forall d | d in s.tables.admins
      ensures d in n.tables.admins && n.tables.admins[d] == s.tables.admins[d]
    {
      ExportedExactly(cfg, kv, s, GenesisDenom(d, s.tables.admins[d]));
      assert GenesisDenom(d, s.tables.admins[d]) in Export(kv, s).denoms;
    }
    forall d | d in n.tables.admins ensures d in s.tables.admins {
      var x :| x in Export(kv, s).denoms && x.denom == d;
      ExportedExactly(cfg, kv, s, x);
    }
  }

  // ----- reachable states ----------------------------------------------------------------------------

  /**
   * Starting from any genesis that Validate accepts, the structures agree after any run of
   * transactions, and filing is canonical if and only if no creation of the run came from a
   * sender with a non-canonical address string.
   */
  lemma ReachableStatesAgree(cfg: Config, g: Genesis, bank: Bank, before: Params, txs: seq<Tx>)
    requires cfg.bech.Lawful() && Validate(cfg, g).None?
    ensures var r := Init(cfg, State(EMPTY_TABLES, bank, before), g);
            && r.Ok? && Agree(cfg, Run(cfg, r.value, txs))
            && (FiledCanonically(cfg, Run(cfg, r.value, txs)) <==> !NonCanonicalCreated(cfg, r.value, txs))
  {
    hide Agree, FiledCanonically, WellFormed, Validate, Init, Run, NonCanonicalCreated;
    ValidateAcceptsWellFormed(cfg, g);
    InitDoes(cfg, g, bank, before);
    var s := Init(cfg, State(EMPTY_TABLES, bank, before), g).value;
    StoresAgreeInEveryRun(cfg, s, txs);
    FilingOverRunsExactly(cfg, s, txs);
  }

  /** In any state a run from a genesis reaches, the denoms without an admin are those the genesis lists so. */
  lemma OnlyAGenesisLeavesOutAdmins(cfg: Config, g: Genesis, bank: Bank, before: Params, txs: seq<Tx>, d: Bytes)
    requires cfg.bech.Lawful() && Validate(cfg, g).None?
    ensures var r := Init(cfg, State(EMPTY_TABLES, bank, before), g);
            r.Ok? && (Ownerless(Run(cfg, r.value, txs), d) <==> GenesisDenom(d, NO_AUTHORITY) in g.denoms)
  {
    hide Agree, FiledCanonically, WellFormed, Validate, Init, Run;
    ValidateAcceptsWellFormed(cfg, g);
    InitDoes(cfg, g, bank, before);
    var s := Init(cfg, State(EMPTY_TABLES, bank, before), g).value;
    OwnerlessDenomsAreFixed(cfg, s, txs, d);
    if Ownerless(s, d) {
      var x :| x in g.denoms && x.denom == d;
      assert x == GenesisDenom(d, NO_AUTHORITY);
    }
  }

  /**
   * The whole trip: import a genesis, run, export, import again. The authority records and params
   * always survive; the creator index does if and only if no creation of the run came from a
   * sender with a non-canonical address string.
   */
  lemma RunThenExportThenImport(cfg: Config, g: Genesis, bank: Bank, before: Params, start: State, txs: seq<Tx>,
                                kv: KV, again: Bank)
    requires cfg.bech.Lawful() && Validate(cfg, g).None?
    requires Init(cfg, State(EMPTY_TABLES, bank, before), g) == Ok(start)
    requires Holds(kv, Run(cfg, start, txs).tables)
    ensures var s := Run(cfg, start, txs);
            var r := Init(cfg, State(EMPTY_TABLES, again, before), Export(kv, s));
            && r.Ok? && r.value.tables.admins == s.tables.admins && r.value.params == s.params == g.params
            && (r.value.tables.index == s.tables.index <==> !NonCanonicalCreated(cfg, start, txs))
  {
    hide Agree, FiledCanonically, Init, Run, NonCanonicalCreated, Holds, Export, CheckDenoms, ValidCoins, WellFormed;
    ReachableStatesAgree(cfg, g, bank, before, txs);
    ValidateAcceptsWellFormed(cfg, g);
    InitDoes(cfg, g, bank, before);
    RunKeepsParams(cfg, start, txs);
    ExportThenImport(cfg, Run(cfg, start, txs), kv, again, before, kv);
  }

  // ----- a run whose index does not survive ---------------------------------------------------------

  const EMPTY_STATE := State(EMPTY_TABLES, Bank(map[], map[], map[]), NO_PARAMS)

  /** `A` creates the subdenom `xyz`. */
  const CREATION_BY_A := Tx(MsgCreateDenom([0x41], [0x78, 0x79, 0x7A]), 0, Accepts)

  /** factory/A/xyz */
  const DENOM_OF_A: Bytes := [0x66, 0x61, 0x63, 0x74, 0x6F, 0x72, 0x79, 0x2F, 0x41, 0x2F, 0x78, 0x79, 0x7A]

  lemma DenomOfAIsBuilt()
    ensures GetTokenDenom([0x41], [0x78, 0x79, 0x7A]) == Ok(DENOM_OF_A)
  {
    FactoryDenomIs([0x41], [0x78, 0x79, 0x7A]);
    hide FactoryDenom;
    assert FactoryDenom([0x41], [0x78, 0x79, 0x7A]) == DENOM_OF_A;
  }

  lemma CreationByASucceeds()
    ensures Succeeds(TWO_SPELLINGS, EMPTY_STATE, CREATION_BY_A)
  {
    DenomOfAIsBuilt();
    hide GetTokenDenom;
  }

  /**
   * The failing input: a lawful configuration, an agreeing empty state, and one creation by a
   * non-canonical sender. The state it leads to is exported and imported without complaint, and
   * the imported creator index is another one.
   */
  lemma IndexMayNotSurvive(kv: KV)
    requires Holds(kv, Deliver(TWO_SPELLINGS, EMPTY_STATE, CREATION_BY_A).0.tables)
    ensures var cfg := TWO_SPELLINGS;
            var s := Deliver(cfg, EMPTY_STATE, CREATION_BY_A).0;
            var r := Init(cfg, EMPTY_STATE, Export(kv, s));
            && cfg.Lawful() && Agree(cfg, EMPTY_STATE) && FiledCanonically(cfg, EMPTY_STATE)
            && Succeeds(cfg, EMPTY_STATE, CREATION_BY_A) && Agree(cfg, s)
            && r.Ok? && r.value.tables.admins == s.tables.admins && r.value.tables.index != s.tables.index
  {
    var cfg := TWO_SPELLINGS;
    TwoSpellingsAreLawful();
    CreationByASucceeds();
    EmptyAgrees(cfg, EMPTY_STATE.bank, NO_PARAMS);
    hide Agree, FiledCanonically, Deliver, Init, Export, Holds;
    DeliverKeepsAgree(cfg, EMPTY_STATE, CREATION_BY_A);
    FilingStaysCanonicalExactly(cfg, EMPTY_STATE, CREATION_BY_A);
    ParamsUntouched(cfg, EMPTY_STATE, CREATION_BY_A);
    ExportThenImport(cfg, Deliver(cfg, EMPTY_STATE, CREATION_BY_A).0, kv, EMPTY_STATE.bank, NO_PARAMS, kv);
  }

  lemma TablesAfterCreationByA()
    ensures Deliver(TWO_SPELLINGS, EMPTY_STATE, CREATION_BY_A).0.tables ==
            Tables(map[DENOM_OF_A := Authority([0x41])], {([0x41], DENOM_OF_A)}, map[])
  {
    DenomOfAIsBuilt();
    CreationByASucceeds();
    hide GetTokenDenom;
  }

  /** A store that holds those tables exists, so the lemma above speaks of something. */
  lemma StoreAfterCreationByA() returns (kv: KV)
    ensures Holds(kv, Deliver(TWO_SPELLINGS, EMPTY_STATE, CREATION_BY_A).0.tables)
  {
    TablesAfterCreationByA();
    EmptyHolds();
    assert PipeFree([0x41]) && PipeFree(DENOM_OF_A);
    hide Holds, Deliver, AuthorityKey, IndexKey, EncAuthority, PipeFree;
    kv := map[];
    SetAuthority(kv, EMPTY_TABLES, DENOM_OF_A, Authority([0x41]));
    kv := kv[AuthorityKey(DENOM_OF_A) := EncAuthority(Authority([0x41]))];
    AddIndex(kv, EMPTY_TABLES.(admins := map[DENOM_OF_A := Authority([0x41])]), [0x41], DENOM_OF_A);
    kv := kv[IndexKey([0x41], DENOM_OF_A) := DENOM_OF_A];
  }
}
