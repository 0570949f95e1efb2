# LumiWave token factory and inflation controller, verified

A Dafny model of three parts of the chain, with proofs of what they are for.

- **The protobuf codec of the token-factory genesis.** `Varint.dfy`, `Wire.dfy` and `Messages.dfy`
  define the messages and prove the round trips and the treatment of unknown fields;
  `WireForm.dfy` says which bytes they are and what each tag means to the decoders;
  `Marshal.dfy` holds the generated code: size computation, the buffer filled from its end, and the
  decoding loops, proved against those definitions. The model follows the Protocol Buffers
  "Encoding" document (Base 128 Varints, Message Structure, Length-Delimited Records, Last One
  Wins, Groups).
- **The token-factory keeper.** `Store.dfy` proves that the one flat key-value store is three
  independent tables; `Factory.dfy` says what each message does to those tables and the bank
  (`Bank.dfy`); `Keeper.dfy` holds the handlers, working on the flat store, proved to refine that.
  `Effects.dfy` and `Handlers.dfy` say exactly when an operation succeeds and what it does,
  `Safety.dfy` and `History.dfy` prove what holds over whole runs, `GenesisRoundTrip.dfy` what
  survives import and export, `BeforeSend.dfy` the gas and panic discipline of the before-send
  hooks.
- **The inflation controller.** `Inflation.dfy`: year arithmetic, the halving schedule with its
  64-bit doubling loop, and BeginBlock over all blocks.

`Common.dfy`, `Order.dfy` and `Denoms.dfy` hold bytes and 64-bit integers, the byte order of keys,
and the factory denoms.

What the program takes from elsewhere is a parameter with stated laws: bech32 parsing and printing
(`Denoms.Bech32`), the coin codec (`Messages.CoinCodec`), division of an 18-decimal number
(`Inflation.Rounding`; the SDK's ties-to-even division is shown to obey the laws), the application's
module accounts and blocked addresses (`Factory.Config`), contracts (`BeforeSend.Env`). Each message
is delivered as the SDK does it: ValidateBasic first, and an error drops what the handler wrote.

Findings about the code itself, as theorems:

- The doubling loop of the schedule is exact up to year 130; in years 131 and 132 it divides by -2^63,
  and from year 133 on BeginBlock panics in every block (`Inflation.CapByYear`).
- A denom created by a sender whose address string is not canonical is filed under that spelling, and
  export and import file it under another. That happens if and only if such a creation succeeds
  (`GenesisRoundTrip.RunThenExportThenImport`), and it can happen (`GenesisRoundTrip.IndexMayNotSurvive`).
- The before-send listener ends quietly, the hooks of the remaining coins uncalled, on any failing hook of
  a send from a module account, and for every sender on an error that mentions "no such contract". These
  are all the cases (`BeforeSend.ListenerVerdict`), and they occur
  (`BeforeSend.LaterHooksMayStayUncalled`).
- The comment on the admin field says it may be empty, but no message empties it: only a genesis can give
  a denom an empty admin (`GenesisRoundTrip.OnlyAGenesisLeavesOutAdmins`,
  `History.OwnerlessDenomsAreFixed`), and such a denom is frozen (`History.NoAdminFreezesForever`).
- The skipper of unknown fields lets any end tag close a group, where the wire format asks for the field
  number of the start tag (`Wire.AnyEndTagClosesAGroup`), and the decoders take field numbers modulo 2^32
  (`Wire.FieldNumbersWrap`).
- InitGenesis accepts a list that names a denom twice, which Validate refuses
  (`GenesisRoundTrip.InitAcceptsExactly`, `GenesisRoundTrip.ValidateAcceptsWellFormed`).

## Model

| member | source | states |
|---|---|---|
| Varint.SovIsLength | x/tokenfactory/types/genesis.pb.go:329-331 | the size formula on bit lengths is the number of bytes the varint encoder emits, for every value |
| Varint.ScanVarint | x/tokenfactory/types/genesis.pb.go:340-355 | the shift loop accumulating by OR, with its overflow and end-of-input exits, computes the base-128 number truncated to 64 bits |
| Varint.OrIsSum | x/tokenfactory/types/genesis.pb.go:349 | bitwise OR of a number below a power of two and a multiple of that power is their sum |
| Varint.OrAddsGroup | x/tokenfactory/types/genesis.pb.go:340-355 | each turn of the loop, OR on 64-bit words is addition of the shifted group, also where the tenth group is cut off |
| Varint.ReadVarintExactly | x/tokenfactory/types/genesis.pb.go:340-355 | for any bytes, minimal or not: overflow, end of input or success by the number of continued bytes, and the value is the sum of the groups weighed with their place, modulo 2^64 |
| Varint.VarintRoundTrip | x/tokenfactory/types/genesis.pb.go:286-296 | an encoded uint64 is read back whole, and the reader stops right behind it |
| Wire.Skip | x/tokenfactory/types/genesis.pb.go:567-644 | the skipping loop with its 64-bit index equals the unbounded specification, wrap-around included; it ends on every input |
| Wire.CounterIsRecursiveDescent | x/tokenfactory/types/genesis.pb.go:567-644 | on any bytes the depth counter accepts exactly what recursive descent over nested groups accepts, with the same end |
| Wire.SkipRec | x/tokenfactory/types/genesis.pb.go:567-644 | a well-formed record of any wire type, groups of any depth included, is consumed exactly |
| Wire.SkipRefuses | x/tokenfactory/types/genesis.pb.go:567-644 | wire types 6 and 7, an end tag outside any group and a length that is no int64 are refused, each with its error |
| Wire.FieldNumbersWrap | x/tokenfactory/types/genesis.pb.go:356-444 | field numbers count modulo 2^32: the same field, unknown or illegal, for every tag |
| Wire.AnyEndTagClosesAGroup | x/tokenfactory/types/genesis.pb.go:567-644 | a group is skipped as one record whatever field number its end tag carries, while its bytes are a record of the wire format if and only if the numbers agree |
| Wire.ScanField | x/tokenfactory/types/genesis.pb.go:338-444 | one turn of an Unmarshal loop: the same field, the same error, never an index outside the input |
| Wire.ReadEncodedField | x/tokenfactory/types/genesis.pb.go:361-430 | reading an encoded field gives the field and stops right behind it |
| Wire.StreamRoundTrip | x/tokenfactory/types/genesis.pb.go:335-450 | the records of an encoded message are read back one by one |
| Wire.FieldsSplit | x/tokenfactory/types/genesis.pb.go:338-444 | records that are complete stay the same records when more bytes follow |
| Wire.FieldsShift | x/tokenfactory/types/genesis.pb.go:338-444 | reading does not depend on what came before, up to the kind of a length error |
| Wire.UndeclaredIsSkipped | x/tokenfactory/types/genesis.pb.go:431-444 | an undeclared record between complete records shows up as one skipped record and changes nothing else |
| Messages.AuthorityRoundTrip | x/tokenfactory/types/authorityMetadata.pb.go:127-268 | decoding the encoding of an authority record gives the record |
| Messages.DenomRoundTrip | x/tokenfactory/types/genesis.pb.go:246-566 | decoding the encoding of a genesis denom gives the denom |
| Messages.ParamsRoundTrip | x/tokenfactory/types/params.pb.go:124-303 | decoding the encoding of params gives the params, for any number of coins and any uint64 gas |
| Messages.GenesisRoundTrip | x/tokenfactory/types/genesis.pb.go:199-566 | decoding the encoding of any genesis state into an empty message gives the state back, through all nesting levels |
| Messages.GenesisInto | x/tokenfactory/types/genesis.pb.go:199-566 | decoding an encoding on top of any message merges the two: lists are appended, non-empty single fields replace |
| WireForm.AuthorityBytes | x/tokenfactory/types/authorityMetadata.pb.go:142-155 | the admin under tag 0A, nothing if it is empty |
| WireForm.DenomBytes | x/tokenfactory/types/genesis.pb.go:261-284 | the denom under tag 0A unless it is empty, then always the authority record under tag 12 |
| WireForm.ParamsBytes | x/tokenfactory/types/params.pb.go:139-164 | one 0A record per coin in order, then tag 10 and the gas as a varint unless it is zero |
| WireForm.GenesisBytes | x/tokenfactory/types/genesis.pb.go:214-244 | the params under tag 0A, empty or not, then one 12 record per denom in order |
| WireForm.EmptyGenesisBytes | x/tokenfactory/types/genesis.pb.go:214-244 | the empty genesis is the two bytes 0A 00 |
| WireForm.AuthorityTags | x/tokenfactory/types/authorityMetadata.pb.go:187-268 | a record under tag 0A replaces the admin, and the rest is decoded on top of that |
| WireForm.DenomTags | x/tokenfactory/types/genesis.pb.go:452-566 | tag 0A replaces the denom, tag 12 is decoded into the authority record that is there, or its error is the answer |
| WireForm.ParamsTags | x/tokenfactory/types/params.pb.go:201-303 | tag 0A appends a coin, tag 10 replaces the gas, a coin that does not decode is an error |
| WireForm.GenesisTags | x/tokenfactory/types/genesis.pb.go:335-450 | tag 0A is decoded into the params that are there, tag 12 appends a denom of its own, or the inner error is the answer |
| WireForm.RefusedTags | x/tokenfactory/types/genesis.pb.go:356-370 | declared fields with another wire type, field number zero and end tags are refused by all decoders, each with its error |
| WireForm.GenesisEncodingsMerge | x/tokenfactory/types/genesis.pb.go:335-450 | two encodings in a row decode to the merge of the states: coins and denoms add up, the later gas wins unless it is zero |
| WireForm.ParamsEncodingsMerge | x/tokenfactory/types/params.pb.go:201-303 | coins add up and the later gas wins unless it is zero |
| WireForm.DenomEncodingsMerge | x/tokenfactory/types/genesis.pb.go:452-566 | the later denom wins unless it is empty, and the nested records merge |
| WireForm.AuthorityEncodingsMerge | x/tokenfactory/types/authorityMetadata.pb.go:187-268 | the later admin wins unless it is empty |
| Messages.CoinCodecsExist | x/tokenfactory/types/genesis.pb.go:361-430 | the round-trip law asked of the coin codec can be met |
| Messages.TheFourDecoders | x/tokenfactory/types/genesis.pb.go:335-566 | the decoders of the four messages fold the fields into the message and pass over skipped records |
| Messages.UnknownFieldsAreTransparent | x/tokenfactory/types/genesis.pb.go:431-444 | for each of the four messages: an undeclared well-formed record may be inserted at any record boundary of any input without changing the outcome |
| Messages.ConcatenationMerges | x/tokenfactory/types/genesis.pb.go:335-450 | for each of the four messages: decoding a concatenation is decoding the second part on top of the result of the first |
| Marshal.PutVarint | x/tokenfactory/types/genesis.pb.go:286-296 | writes the varint into the buffer ending at the offset, and nothing else |
| Marshal.SizeAuthority | x/tokenfactory/types/authorityMetadata.pb.go:168-179 | the size is the length of the encoding |
| Marshal.PutAuthority | x/tokenfactory/types/authorityMetadata.pb.go:142-155 | fills exactly the bytes below the end of the slice with the encoding and changes no other byte |
| Marshal.UnmarshalAuthority | x/tokenfactory/types/authorityMetadata.pb.go:187-268 | equals the field-by-field specification; success has consumed the whole input |
| Marshal.SizeDenom | x/tokenfactory/types/genesis.pb.go:314-327 | the size is the length of the encoding |
| Marshal.PutDenom | x/tokenfactory/types/genesis.pb.go:261-284 | fills exactly the bytes below the end of the slice, the nested record first |
| Marshal.UnmarshalDenom | x/tokenfactory/types/genesis.pb.go:452-566 | equals the specification; success has consumed the whole input |
| Marshal.SizeParams | x/tokenfactory/types/params.pb.go:177-193 | the size is the length of the encoding |
| Marshal.PutParams | x/tokenfactory/types/params.pb.go:139-164 | fills exactly the bytes below the end of the slice, last coin first |
| Marshal.UnmarshalParams | x/tokenfactory/types/params.pb.go:201-303 | equals the specification; success has consumed the whole input |
| Marshal.SizeGenesis | x/tokenfactory/types/genesis.pb.go:297-312 | the size is the length of the encoding |
| Marshal.PutGenesis | x/tokenfactory/types/genesis.pb.go:214-244 | writes exactly the last Size() bytes of its buffer and nothing else; every length prefix is the length of what follows |
| Marshal.MarshalGenesis | x/tokenfactory/types/genesis.pb.go:199-207 | a buffer of Size() bytes is filled to its first byte with the encoding |
| Marshal.UnmarshalGenesis | x/tokenfactory/types/genesis.pb.go:335-450 | equals the specification; success has consumed the whole input |
| Marshal.MarshalThenUnmarshal | x/tokenfactory/types/genesis.pb.go:199-566 | the two methods composed restore the message |
| Denoms.GetTokenDenomExactly | x/tokenfactory/types/denoms.go:24-36 | which pairs make a denom: 44 and 75 bytes, no slash in the creator, the bytes of denoms; the denom is spelled out, and each length and slash error has its condition |
| Denoms.DeconstructExactly | x/tokenfactory/types/denoms.go:41-68 | which denoms are accepted: valid ones of the form factory/address/subdenom, of any part lengths; the answer is the canonical address and the rest, slashes included |
| Denoms.TokenDenomRoundTrip | x/tokenfactory/types/denoms.go:24-68 | a built denom is taken apart into the same subdenom, slashes included, and the canonical spelling of its creator; refused if the creator is no address |
| Denoms.TokenDenomRoundTripExactlyForCanonical | x/tokenfactory/types/denoms.go:24-68 | the very same pair comes back if and only if the creator string is canonical |
| Denoms.DenomsAreDistinct | x/tokenfactory/types/denoms.go:24-36 | two accepted pairs give the same denom if and only if they are the same pair |
| Denoms.BuiltDenomsAreShort | x/tokenfactory/types/denoms.go:10-19 | the two length limits alone keep every built denom within 128 bytes |
| Denoms.DeconstructInverts | x/tokenfactory/types/denoms.go:41-68 | an accepted denom is the factory denom of the creator spelled in it and the returned subdenom |
| Store.KeyLayout | x/tokenfactory/types/keys.go:25-50 | the bytes of the three kinds of keys |
| Store.IndexKeysDiffer | x/tokenfactory/types/keys.go:41-50 | creator index keys of different entries differ |
| Store.AuthorityIsNoHook | x/tokenfactory/types/keys.go:25-39 | no authority record shares a key with a hook, of any two denoms |
| Store.IndexKeysAliasExactly | x/tokenfactory/types/keys.go:41-50 | entries of two denoms share a key for some creators if and only if one denom ends in the separator and the other denom |
| Store.LookupAuthority | x/tokenfactory/keeper/keeper.go:73-76 | reading through a denom's prefix store is reading an independent table of authority records |
| Store.SetAuthority | x/tokenfactory/keeper/admins.go:23-38 | writing an authority record changes that table at that denom and no other table |
| Store.SetHook | x/tokenfactory/keeper/before_send.go:64 | writing a hook changes the hook table at that denom and no other table |
| Store.DeleteHook | x/tokenfactory/keeper/before_send.go:28-30 | deleting a hook removes it from its table and touches no other table |
| Store.AddIndex | x/tokenfactory/keeper/creators.go:8-11 | adding an index entry adds exactly that entry |
| Store.CreatorsPrefixIsTheIndex | x/tokenfactory/keeper/creators.go:26-28 | the prefix of all creators captures the whole creator index and nothing else |
| Store.CreatorPrefixIsOneCreator | x/tokenfactory/keeper/creators.go:13-24 | the prefix of one creator, whatever bytes spell it, captures that creator's entries and nothing else |
| Store.DenomPrefixIsOneDenom | x/tokenfactory/keeper/keeper.go:73-76 | the prefix of a denom captures that denom's two records and nothing else |
| Factory.ScanAgreesWithMap | x/tokenfactory/keeper/bankactions.go:83-110 | the sorted scan accepts if and only if all module accounts are found and the address map clears both ends |
| Factory.TwoSpellingsAreLawful | app/app_config.go:78-105 | the laws asked of addresses, module accounts and blocked addresses can be met together, also when an address has a second, non-canonical spelling |
| Effects.MintToEffect | x/tokenfactory/keeper/bankactions.go:13-37 | exactly when minting succeeds; it adds the amount to the recipient and the supply and changes nothing else |
| Effects.BurnFromEffect | x/tokenfactory/keeper/bankactions.go:39-64 | exactly when burning succeeds; it takes the amount from the account and the supply and changes nothing else |
| Effects.TransferEffect | x/tokenfactory/keeper/bankactions.go:66-105 | exactly when a forced transfer succeeds; it moves the amount and changes no supply |
| Handlers.CreateExactly | x/tokenfactory/keeper/createdenom.go:13-101 | succeeds if and only if the sender is an address, the pair keeps to lengths and alphabet, the subdenom is no native denom, the denom is new, and fee and gas can be paid; then the records, the fee, and the metadata field by field |
| Handlers.CreateAnswers | x/tokenfactory/keeper/createdenom.go:13-101 | the error of every refused creation, first objection first |
| Handlers.UnauthorizedExactly | x/tokenfactory/keeper/msg_server.go:44-233 | Unauthorized is the answer if and only if a sound message comes from someone who is not the admin, DenomDoesNotExist if and only if such a mint is of an unknown denom |
| Handlers.MintAnswers | x/tokenfactory/keeper/bankactions.go:13-37 | what the admin is answered for every kind of recipient |
| Handlers.BurnAnswers | x/tokenfactory/keeper/msg_server.go:82-118 | what the admin is answered for every kind of account |
| Order.LeExactly | x/tokenfactory/keeper/bankactions.go:83-92 | the order names are sorted in and keys are visited in: a prefix first, otherwise by the first differing byte |
| Handlers.ForceTransferAnswers | x/tokenfactory/keeper/bankactions.go:66-105 | what the admin is answered: the objection of the first module account in name order that has one, then the lack of funds |
| Handlers.DirectSendExactly | app/app_config.go:94-105 | succeeds if and only if the recipient is not blocked and the sender holds the coins; it only moves them |
| Factory.UndescribedIsWellFormed | x/tokenfactory/keeper/createdenom.go:33-42 | the metadata of a new denom passes what the bank asks of units: base unit first with exponent 0, display listed |
| History.MetadataStaysWellFormed | x/tokenfactory/keeper/msg_server.go:176-205 | over any run every metadata entry is filed under its own base denom with well-formed units |
| Handlers.MintExactly | x/tokenfactory/keeper/msg_server.go:44-80 | succeeds if and only if the sender is the admin of a registered denom and the recipient is allowed |
| Handlers.BurnExactly | x/tokenfactory/keeper/msg_server.go:82-118 | succeeds if and only if the sender is the admin and the account may be and can be burned from |
| Handlers.ForceTransferExactly | x/tokenfactory/keeper/msg_server.go:120-147 | succeeds if and only if the sender is the admin, neither end is a module account and the payer holds the amount |
| Handlers.ChangeAdminExactly | x/tokenfactory/keeper/msg_server.go:149-174 | succeeds if and only if the current admin names an address; only that denom's admin changes |
| Handlers.SetMetadataExactly | x/tokenfactory/keeper/msg_server.go:176-205 | succeeds if and only if the admin sends valid metadata; only that entry changes |
| Handlers.SetHookExactly | x/tokenfactory/keeper/before_send.go:18-67 | succeeds if and only if the admin asks and the contract is not reported missing; only that hook changes |
| Safety.DeliverKeepsAgree | x/tokenfactory/keeper/msg_server.go:23-233 | every transaction keeps creator index, authority records, hooks and metadata in agreement |
| Safety.StoresAgreeInEveryRun | x/tokenfactory/keeper/createdenom.go:30-77 | after any run a denom is indexed exactly when it has an authority record, once, under the creator named in it, with metadata; only registered denoms have hooks |
| Safety.CreationFiles | x/tokenfactory/keeper/createdenom.go:30-57 | a creation files its denom under the sender's own spelling, which is the name DeconstructDenom gives if and only if that spelling is canonical |
| Safety.FilingStaysCanonicalExactly | x/tokenfactory/keeper/creators.go:8-11 | after a transaction all denoms are filed under the name DeconstructDenom gives if and only if they were before and no non-canonical sender created one in it |
| Safety.FilingOverRunsExactly | x/tokenfactory/keeper/creators.go:8-11 | after a whole run filing is canonical if and only if it was before and no successful creation of the run had a non-canonical sender |
| Safety.CanonicalCreatorsSuffice | x/tokenfactory/keeper/createdenom.go:13-28 | that is so when all creators of the run spell their addresses canonically, which can be seen before it |
| Safety.RunKeepsParams | x/tokenfactory/keeper/msg_server.go:23-233 | no run of transactions changes the params |
| History.AdminHistoryIsReplay | x/tokenfactory/keeper/admins.go:23-49 | a registered denom stays registered, and its admin after any run is the replay of the hand-over messages alone |
| History.NeverCreatedAgain | x/tokenfactory/keeper/createdenom.go:71-74 | a registered denom can never be created again, at any later point of any run |
| History.ReplayIsEmptyExactly | x/tokenfactory/keeper/msg_server.go:149-174 | the replayed admin is empty if and only if it was empty to begin with |
| History.OwnerlessDenomsAreFixed | x/tokenfactory/types/authorityMetadata.pb.go:27-33 | over any run, denoms created in it included, the registered denoms with an empty admin stay the same |
| History.NoAdminFreezesForever | x/tokenfactory/keeper/msg_server.go:44-233 | a denom with an empty admin keeps admin, supply, hook and metadata over every run |
| History.NoAdminKeepsBalances | x/tokenfactory/keeper/msg_server.go:44-147 | a denom with an empty admin is not moved by any factory message, a creation fee paid in it aside |
| History.SuppliesAreConserved | x/tokenfactory/keeper/bankactions.go:13-105 | along every run supply is the sum of balances, and initial supply plus successful mints minus successful burns |
| History.ModuleAccountsAreUntouched | x/tokenfactory/keeper/bankactions.go:25-36 | minting, burning and forced transfers change no balance of any module account |
| History.FactoryAccountStaysEmpty | app/app_config.go:94-105 | with sends to it blocked, the factory's own account holds nothing in every run |
| TokenFactory.Keeper.constructor | x/tokenfactory/keeper/keeper.go:36-65 | the loop builds the map of module account addresses over an empty store |
| TokenFactory.Keeper.GetAuthorityMetadata | x/tokenfactory/keeper/admins.go:11-20 | never fails: what is stored decodes to what was set, what is missing decodes as empty |
| TokenFactory.Keeper.SetAuthorityMetadata | x/tokenfactory/keeper/admins.go:23-38 | refuses an admin that is no address, otherwise sets the record and nothing else |
| TokenFactory.Keeper.SetBeforeSendHook | x/tokenfactory/keeper/before_send.go:18-67 | the step on the hook table, or the reason it is refused |
| TokenFactory.Keeper.MintTo | x/tokenfactory/keeper/bankactions.go:13-37 | the bank after minting to the module and paying out, or the reason it is refused |
| TokenFactory.Keeper.BurnFrom | x/tokenfactory/keeper/bankactions.go:39-64 | the bank after collecting and burning, or the reason it is refused |
| TokenFactory.Keeper.ScanModuleAccounts | x/tokenfactory/keeper/bankactions.go:83-102 | the loop finds the first objection in name order |
| TokenFactory.Keeper.CreateDenom | x/tokenfactory/keeper/createdenom.go:13-28 | the state after validation, charge and registration, or the reason it is refused |
| TokenFactory.Keeper.DeliverTx | x/tokenfactory/keeper/msg_server.go:23-233 | on the flat store a transaction is the step on the tables; an error leaves everything as it was |
| TokenFactory.Keeper.GetDenomsFromCreator | x/tokenfactory/keeper/creators.go:13-24 | lists exactly the creator's denoms, in ascending order |
| TokenFactory.Keeper.GetAllBeforeSendHooks | x/tokenfactory/keeper/before_send.go:80-96 | two aligned lists: the listed denoms that have a hook, and their hooks |
| TokenFactory.HookListingIsComplete | x/tokenfactory/keeper/before_send.go:80-96 | in every reachable state the listing names each hooked denom exactly once and no other |
| TokenFactory.Keeper.InitGenesis | x/tokenfactory/keeper/genesis.go:11-33 | the state after importing denom by denom, or the panic |
| TokenFactory.Keeper.ExportGenesis | x/tokenfactory/keeper/genesis.go:36-58 | the params and the records of all listed denoms in key order |
| TokenFactory.ValidateGenesis | x/tokenfactory/types/genesis.go:23-51 | the loop with its set of seen denoms, first objection first |
| GenesisRoundTrip.ValidateAcceptsWellFormed | x/tokenfactory/types/genesis.go:23-51 | accepted if and only if the fee is valid, denoms are distinct factory denoms and admins are addresses or empty |
| GenesisRoundTrip.InitAcceptsExactly | x/tokenfactory/keeper/genesis.go:11-33 | InitGenesis gets through if and only if fee and denoms are sound; unlike Validate it does not mind repetition |
| GenesisRoundTrip.ImportKeepsTheBank | x/tokenfactory/keeper/createdenom.go:30-57 | importing over any bank moves no money, keeps every metadata entry there is, and adds the default one for exactly the listed denoms without |
| GenesisRoundTrip.ListingIsTheRegistry | x/tokenfactory/keeper/creators.go:26-28 | the iterator names every registered denom exactly once and no other |
| GenesisRoundTrip.ImportThenExport | x/tokenfactory/keeper/genesis.go:11-58 | an accepted genesis is imported without panic and exported as the same params and (denom, authority) pairs |
| GenesisRoundTrip.ExportIsValid | x/tokenfactory/keeper/genesis.go:36-58 | the export of any reachable state is accepted by Validate |
| GenesisRoundTrip.ExportThenImport | x/tokenfactory/keeper/genesis.go:11-58 | importing an export rebuilds the same records and params; the same creator index if and only if filing is canonical, and then the second export is identical |
| GenesisRoundTrip.ReachableStatesAgree | x/tokenfactory/keeper/genesis.go:11-33 | after any run from any accepted genesis the structures agree, and filing is canonical if and only if no non-canonical sender created a denom in it |
| GenesisRoundTrip.RunThenExportThenImport | x/tokenfactory/keeper/genesis.go:11-58 | import, any run, export, import: records and params survive; the creator index does if and only if no non-canonical sender created a denom |
| GenesisRoundTrip.IndexMayNotSurvive | x/tokenfactory/keeper/genesis.go:11-58 | a failing input: one creation by a non-canonical sender, after which export and import are accepted and change the creator index |
| GenesisRoundTrip.OnlyAGenesisLeavesOutAdmins | x/tokenfactory/types/authorityMetadata.pb.go:27-33 | after any run from an accepted genesis a denom has an empty admin if and only if the genesis lists it so |
| BeforeSend.CallContract | x/tokenfactory/keeper/before_send.go:172-182 | the deferred code charges first and recovers second, so only a panic of the charge itself goes on |
| BeforeSend.ListenLoop | x/tokenfactory/keeper/before_send.go:131-201 | the loop over the coins: the calls, charges and exit of the specification, a panic on its way out included |
| BeforeSend.CallBeforeSendListener | x/tokenfactory/keeper/before_send.go:124-201 | the loop with the outer recovery around it: for every contract behaviour it returns, and a panic of the loop becomes the out-of-gas error |
| BeforeSend.GasIsChargedExactly | x/tokenfactory/keeper/before_send.go:132-186 | the parent meter shows exactly the lookups made and the sum of the child meters, and a panic leaves the loop exactly when they take a meter within its limit over it |
| BeforeSend.PanicsBeyondRemaining | x/tokenfactory/keeper/before_send.go:170-182 | a meter within its limit panics exactly on more than what remains, one without limit on overflow of its 64-bit counter |
| BeforeSend.LimitsAreExact | x/tokenfactory/keeper/before_send.go:170-173 | for every parent meter, limited or not, a call is limited by the lesser of 500,000 and what the parent has left after all lookups so far and all earlier calls |
| BeforeSend.LimitsAreKept | x/tokenfactory/keeper/before_send.go:170-173 | each child limit is at most 500,000, whatever the meter, and at most what the parent has left at that moment |
| BeforeSend.CallsFollowTheCoins | x/tokenfactory/keeper/before_send.go:132-201 | contracts are called once per hooked coin in order, up to the first failure; which of no error, a failed hook and a bad hook is returned, each if and only if its cause is there |
| BeforeSend.ListenerVerdict | x/tokenfactory/keeper/before_send.go:124-201 | out of gas if and only if the charges take a meter within its limit over it; for every meter, otherwise no error if and only if all hooks were heard or the last call failed quietly, and each error if and only if its cause is there |
| BeforeSend.LaterHooksMayStayUncalled | x/tokenfactory/keeper/before_send.go:188-197 | two hooked coins, one call and no error: for a module account on any error, for every sender on the no-such-contract error |
| Inflation.YearPartition | x/lumiwaveprotocol/module/module.go:41-47 | a height lies in year y if and only if (y-1)*b < h <= y*b, for every non-zero uint64 b, conversion to a negative int64 included |
| Inflation.YearsNeverGoBack | x/lumiwaveprotocol/module/module.go:41-47 | later blocks are never in earlier years |
| Inflation.DoubleInt64 | x/lumiwaveprotocol/module/module.go:58-61 | 2^cycles cut down to an int64: the power itself if and only if cycles <= 62, zero if and only if cycles >= 64 |
| Inflation.DoublingIsExactUntilYear130 | x/lumiwaveprotocol/module/module.go:56-61 | the loop yields the power of two if and only if the year is at most 130 |
| Inflation.InflationMaxForYear | x/lumiwaveprotocol/module/module.go:49-67 | the cap of a year, or the panic of a division by zero |
| Inflation.ScheduledCaps | x/lumiwaveprotocol/module/module.go:32-39 | the caps of years 1 to 6 are the published rates, 88.81 percent together |
| Inflation.CapByYear | x/lumiwaveprotocol/module/module.go:49-67 | within one unit of the halved rate up to year 130, not positive in the two years after, and a panic if and only if the year is 133 or later |
| Inflation.CapIsExactWhenRepresentable | x/lumiwaveprotocol/module/module_boundary_test.go:42-73 | where the halved rate has 18 digits, the cap is that rate |
| Inflation.CapNeverRises | x/lumiwaveprotocol/module/module.go:32-67 | the cap never rises from one year to any later one |
| Inflation.SumOfCapsIsBounded | x/lumiwaveprotocol/module/module.go:32-67 | the caps from year 7 to any year up to 130 add up to at most 0.0882 plus one unit per year |
| Inflation.HalfEvenIsLawful | x/lumiwaveprotocol/module/module.go:63 | the SDK's ties-to-even division meets the laws the schedule is proved from |
| Inflation.MintKeeper.BeginBlock | x/lumiwaveprotocol/module/module.go:185-230 | params and minter after the controller, or its error with nothing changed |
| Inflation.ControllerOnlyLowers | x/lumiwaveprotocol/module/module.go:185-228 | for every state and height: inflation is never raised, cut to a new cap if above it and left alone otherwise; the minimum is zero after a change and left alone otherwise |
| Inflation.NeverRaisedInAnyBlock | x/lumiwaveprotocol/module/module.go:204-228 | in no block of any run does the controller raise inflation |
| Inflation.ClipInEveryBlock | x/lumiwaveprotocol/module/module.go:204-228 | over any run each BeginBlock leaves the lesser of inflation and cap, and the minimum is the initial one until the cap first differs from the initial maximum, zero from then on |
| Inflation.CapHoldsInEveryBlock | app/app_config.go:124-128 | over any run of blocks the maximum is the scheduled cap, min <= max, and inflation never exceeds the cap |
| Inflation.BeginTwiceIsBeginOnce | x/lumiwaveprotocol/module/module.go:204-228 | a second run at the same height changes nothing |
| Inflation.BeginSucceedsBelowYear133 | x/lumiwaveprotocol/module/module.go:185-202 | BeginBlock succeeds if and only if blocks_per_year is set and the year is below 133 |

## Left out

- The nil coin list: Go tells a nil fee from an empty one; both encode to nothing, and the model has one empty list. The branch that skips charging for a nil fee is therefore the empty payment.
- Partly decoded messages: a failing Unmarshal leaves the fields read so far in its receiver; the model returns the error alone.
- Marshal.UnmarshalGenesis: the length of its input is assumed below 2^63, as for every Go slice; so for the other decoders.
- The other copies of the generated template: the varint loop, the skipper and the shared part of the decoding loop are modelled once, for all three files that repeat them.
- Bank internals: vesting locks, send restrictions, send-enabled flags and the 256-bit bound on amounts; a payer who holds the coins can pay them.
- Events, logging, JSON, gas other than the creation gas and the hook lookups, and the query server.
- The default params that GetParams falls back to when a chain has none stored.
- MsgSetBeforeSendHook: the probing call is its answer (accepts, not there, fails, aborts); what a contract does to other state in it is dropped by the cache context anyway.
- BeforeSend.CallBeforeSendListener: contracts may change hooks between calls, but no other state of the keeper is part of that model; the messages sent to the contracts are left out.
- Factory.Config: module accounts, blocked addresses and contract keeper do not change during a run.
- Hooks in genesis: the export does not carry them, so the round trips say nothing about them.
- Other modules that mint, burn or send: the runs consist of the seven messages and direct sends.
- Inflation.CapHoldsInEveryBlock: nothing but the controller and the mint step edits the mint params, and heights stay within year 130; failures of the params store are left out.
- The application wiring, upgrades, command line and the lumiwaveprotocol keeper with its empty params.
