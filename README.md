# Contract lookup: symbolic name and address resolution

This project models the resolution engine of the Venus protocol scenario
runner (`scenario/src/ContractLookup.ts`). Scenario scripts name contracts
and tokens symbolically ("Comptroller", "vBNB", "XVS"); the engine turns
those names into addresses and contract handles by reading four parts of the
scenario world:

- the **contract-data table**, a tree whose nodes are string leaves or ordered
  string-keyed maps (`Data = Str(s) | Tbl(entries)`), searched with keys
  compared after lower-casing and trimming;
- the **contract index**, a flat map from lower-cased address to an opaque
  handle (the type parameter `H` of `World<H>`);
- the **alias settings**, an ordered list of (name, address) entries;
- the **accounts**, an ordered list of named accounts.

The world is passed to every function; nothing is modified.

Files and modules:

- `options.dfy` (`Options`): the `Option` type, standing for `undefined`.
- `ascii.dfy` (`Ascii`): ASCII stand-ins for `toLowerCase`, `trim` and
  `startsWith`, with the facts about them that key matching needs.
- `finding.dfy` (`Finding`): first-match search, the shared meaning of
  `Map.find` and `Array.prototype.find`.
- `contract_lookup.dfy` (`ContractLookup`): the two nested folds of
  `getContractData`, the string-required lookup, the handle index,
  `getWorldContract` and `getAddress`, with the lemmas about candidate order,
  key spelling and early string leaves.
- `contract_accessors.dfy` (`ContractAccessors`): `getContractByName` and the
  typed accessors, each specified over the fixed path it uses.
- `scenarios.dfy` (`LookupScenarios`): small hand-built worlds and what the
  engine yields on them.

How the walk is modelled. `WalkIndex` is the inner `reduce` over the
segments of one candidate path and `FoldIndices` the outer `reduce` over the
candidates, as left folds with the source's accumulators. `Descend` is an
independent, structural reading of one walk; `WalkIsDescent` proves the two
agree, and the accessors are specified over `Descend`.

Truthiness follows JavaScript: `undefined` and `""` are falsy, every map is
truthy, even an empty one. So a candidate that ends on a map stops the
search, and `getContractDataString` then fails even if a later candidate
holds a string (`NestedMapStopsSearch`). A path ending on a nested map is
not a miss: line 26 returns any truthy accumulator, so that candidate ends
the search. A candidate with no segments yields the root map, which is
truthy; this also follows from the fold.

## Model

| member | source | states |
|---|---|---|
| Finding.Find | scenario/src/ContractLookup.ts:37 | the index returned holds the first element satisfying the predicate: every earlier one fails it; None exactly when no element satisfies it |
| ContractLookup.Lookup | scenario/src/ContractLookup.ts:37 | one table level: undefined exactly when no key has the segment's lower-cased trimmed form; otherwise the value of the first such key in entry order |
| ContractLookup.Step | scenario/src/ContractLookup.ts:30-38 | no ensures: the reducer of the inner fold (a falsy accumulator becomes undefined, a string is kept, a map is searched with Lookup); its meaning is given by WalkFromNone, EarlyStringLeaf and WalkIsDescent |
| ContractLookup.WalkIndex | scenario/src/ContractLookup.ts:29-39 | no ensures: the inner reduce over one path's segments; WalkIsDescent proves it equals the structural Descend, and WalkFromNone and WalkAppend state how it composes |
| ContractLookup.Candidate | scenario/src/ContractLookup.ts:39 | no ensures: the inner reduce seeded with the root of the contract-data table; SingleCandidate, EarlyStringLeaf and MissingSegment give its meaning |
| ContractLookup.FoldIndices | scenario/src/ContractLookup.ts:25-41 | no ensures: the outer reduce over the candidates; FoldKeepsTruthy, FoldFirstTruthy and FoldNoneTruthy determine its value from every accumulator |
| ContractLookup.GetContractData | scenario/src/ContractLookup.ts:24-42 | no ensures: the outer fold started from undefined; FirstTruthyCandidateWins, NoTruthyCandidate and TruthyIffSomeCandidate give its result for every candidate list |
| ContractLookup.WalkFromNone | scenario/src/ContractLookup.ts:32-33 | once the walk is undefined it stays undefined whatever segments follow |
| ContractLookup.WalkIsDescent | scenario/src/ContractLookup.ts:29-39 | the fold over segments equals the structural descent: map keys are followed, a non-empty string leaf ends the walk early, an empty string mid-path or a missing key is undefined |
| ContractLookup.WalkAppend | scenario/src/ContractLookup.ts:29-39 | walking p + q is walking q from where p ended |
| ContractLookup.EarlyStringLeaf | scenario/src/ContractLookup.ts:34-35 | a non-empty string reached before the path is used up is the candidate's result; remaining segments are ignored |
| ContractLookup.MissingSegment | scenario/src/ContractLookup.ts:32-33 | a path whose prefix is undefined is undefined for every continuation |
| ContractLookup.LookupIgnoresSpelling | scenario/src/ContractLookup.ts:30-37 | two segments with the same lower-cased trimmed form find the same value at a table level |
| ContractLookup.WalkIgnoresSpelling | scenario/src/ContractLookup.ts:29-39 | paths whose segments agree segment by segment after lower-casing and trimming walk to the same value |
| ContractLookup.FoldIgnoresSpelling | scenario/src/ContractLookup.ts:25-41 | the outer fold gives the same value for candidate lists that agree after lower-casing and trimming every segment |
| ContractLookup.ContractDataIgnoresSpelling | scenario/src/ContractLookup.ts:24-42 | getContractData is unchanged when any segment of any candidate is respelt in case or surrounding white space |
| ContractLookup.DescendIgnoresSpelling | scenario/src/ContractLookup.ts:29-39 | the descent along two equally keyed paths reaches the same value |
| ContractLookup.RespeltSegment | scenario/src/ContractLookup.ts:30-37 | a segment changed only in letter case and padded with white space on both sides has the same key form |
| Ascii.KeyFormIgnoresPadding | scenario/src/ContractLookup.ts:37 | lower-casing then trimming ignores white space added at either end |
| Ascii.LowerIdempotent | scenario/src/ContractLookup.ts:65 | lower-casing an already lower-cased string changes nothing |
| ContractLookup.FoldKeepsTruthy | scenario/src/ContractLookup.ts:26-27 | a truthy accumulator is returned unchanged by the rest of the outer fold |
| ContractLookup.FoldFirstTruthy | scenario/src/ContractLookup.ts:25-41 | from a falsy accumulator, the outer fold yields the walk of the first candidate whose walk is truthy |
| ContractLookup.FoldNoneTruthy | scenario/src/ContractLookup.ts:25-41 | from a falsy accumulator with no truthy candidate, the fold yields the last candidate's value, or the accumulator when there are none |
| ContractLookup.FirstTruthyCandidateWins | scenario/src/ContractLookup.ts:24-42 | getContractData returns the walk of the first candidate whose walk is a non-empty string or a map |
| ContractLookup.NoTruthyCandidate | scenario/src/ContractLookup.ts:24-42 | with no truthy candidate the result is falsy: the last candidate's value (undefined or an empty string), or undefined for no candidates |
| ContractLookup.TruthyIffSomeCandidate | scenario/src/ContractLookup.ts:24-42 | getContractData is truthy exactly when some candidate's walk is truthy |
| ContractLookup.LaterCandidatesIgnored | scenario/src/ContractLookup.ts:25-28 | once a prefix of the candidate list yields a truthy value, appending any candidates changes nothing |
| ContractLookup.NestedMapStopsSearch | scenario/src/ContractLookup.ts:26-27 | a candidate ending on a map, even an empty one, is the result and blocks later candidates, so getContractDataString fails |
| ContractLookup.FalsyCandidateSkipped | scenario/src/ContractLookup.ts:25-29 | a candidate that is undefined or an empty string lets the search continue with the next candidates as if it were absent |
| ContractLookup.FoldFalsyStart | scenario/src/ContractLookup.ts:26-29 | the outer fold over at least one candidate does not depend on which falsy value it starts from |
| ContractLookup.SingleCandidate | scenario/src/ContractLookup.ts:24-42 | a one-candidate lookup is the structural descent along that path |
| ContractLookup.GetContractDataString | scenario/src/ContractLookup.ts:44-56 | succeeds exactly when the lookup yields a non-empty string and returns it unchanged; otherwise ResolutionNotFound carrying the candidates |
| ContractLookup.GetWorldContractByAddress | scenario/src/ContractLookup.ts:64-76 | succeeds exactly when the lower-cased address is indexed and returns that handle; otherwise HandleNotFound carrying the address as given |
| ContractLookup.HandleLookupIgnoresCase | scenario/src/ContractLookup.ts:65 | addresses with the same lower-case form give the same outcome and the same handle |
| ContractLookup.IndexedAddressFound | scenario/src/ContractLookup.ts:65 | a handle indexed under the lower-cased address is found both by the address and by its lower-case form |
| ContractLookup.GetWorldContract | scenario/src/ContractLookup.ts:58-62 | ResolutionNotFound when the lookup yields no non-empty string; otherwise the handle under its lower-case form, or HandleNotFound even though the table had the address |
| ContractLookup.ZeroAddressShape | scenario/src/ContractLookup.ts:242 | the sentinel address is 0x followed by forty zero digits |
| ContractLookup.FallbackIndices | scenario/src/ContractLookup.ts:261-267 | no ensures: the five candidate paths Contracts, vTokens, VTokenDelegate, Tokens and Comptroller in source order; GetAddress's last ensures, EmptyWorldNotFound and TokenFallback state what they resolve to |
| ContractLookup.GetAddress | scenario/src/ContractLookup.ts:240-268 | `zero` in any case gives the zero address before every other rule; then a case-sensitive 0x prefix returns the argument verbatim; then the first alias whose name matches case-insensitively gives its address; only with no alias, the first matching account; only with neither, the string lookup over Contracts, vTokens, VTokenDelegate, Tokens, Comptroller in that order |
| ContractAccessors.HandleOf | scenario/src/ContractLookup.ts:78-80 | the one-path getWorldContract call of each handle accessor: the handle indexed under the non-empty string that Descend finds on the path, HandleNotFound when that string is not indexed, ResolutionNotFound otherwise |
| ContractAccessors.TextOf | scenario/src/ContractLookup.ts:98-100 | the one-path getContractDataString call of each address accessor: Ok exactly when Descend finds a non-empty string on the path, returned unchanged, else ResolutionNotFound with that path |
| ContractAccessors.WithMetadata | scenario/src/ContractLookup.ts:129-137 | the triple of each Data accessor: the handle lookup's error passed through unchanged, otherwise the handle, the name as given, and Descend's value at the metadata path, absent or not |
| ContractAccessors.GetContractByName | scenario/src/ContractLookup.ts:270-272 | the handle indexed under the string at Contracts.name, with both error cases |
| ContractAccessors.FixedTokensIgnoreName | scenario/src/ContractLookup.ts:122-161 | getXVS, getSXP and getVAI give the same result for any two name arguments |
| ContractAccessors.GetTimelock | scenario/src/ContractLookup.ts:78-80 | the handle indexed under the string at Contracts.Timelock, with both error cases |
| ContractAccessors.GetUnitroller | scenario/src/ContractLookup.ts:82-84 | the handle indexed under the string at Contracts.Unitroller, with both error cases |
| ContractAccessors.GetMaximillion | scenario/src/ContractLookup.ts:86-88 | the handle indexed under the string at Contracts.Maximillion, with both error cases |
| ContractAccessors.GetComptroller | scenario/src/ContractLookup.ts:90-92 | the handle indexed under the string at Contracts.Comptroller, with both error cases |
| ContractAccessors.GetComptrollerImpl | scenario/src/ContractLookup.ts:94-96 | the handle indexed under the string at Comptroller.name.address, with both error cases |
| ContractAccessors.GetVTokenAddress | scenario/src/ContractLookup.ts:98-100 | the non-empty string at vTokens.name.address, else ResolutionNotFound |
| ContractAccessors.GetVTokenDelegateAddress | scenario/src/ContractLookup.ts:102-104 | the non-empty string at VTokenDelegate.name.address, else ResolutionNotFound |
| ContractAccessors.GetBep20Address | scenario/src/ContractLookup.ts:106-108 | the non-empty string at Tokens.name.address, else ResolutionNotFound |
| ContractAccessors.GetGovernorAddress | scenario/src/ContractLookup.ts:110-112 | the non-empty string at Contracts.name (not under Governor), else ResolutionNotFound |
| ContractAccessors.GetPriceOracleProxy | scenario/src/ContractLookup.ts:114-116 | the handle indexed under the string at Contracts.PriceOracleProxy, with both error cases |
| ContractAccessors.GetPriceOracle | scenario/src/ContractLookup.ts:118-120 | the handle indexed under the string at Contracts.PriceOracle, with both error cases |
| ContractAccessors.GetXVS | scenario/src/ContractLookup.ts:122-127 | the handle indexed under the string at XVS.address; the name argument does not occur in the contract, so the result is independent of it |
| ContractAccessors.GetXVSData | scenario/src/ContractLookup.ts:129-137 | fails exactly as GetXVS does; otherwise the handle, the name unchanged, and whatever XVS.name yields, absent or not |
| ContractAccessors.GetSXP | scenario/src/ContractLookup.ts:139-144 | the handle indexed under the string at SXP.address, independent of the name argument |
| ContractAccessors.GetSXPData | scenario/src/ContractLookup.ts:146-154 | fails exactly as GetSXP does; otherwise the handle, the name unchanged, and whatever SXP.name yields |
| ContractAccessors.GetVAI | scenario/src/ContractLookup.ts:156-161 | the handle indexed under the string at VAI.address, independent of the name argument |
| ContractAccessors.GetVAIData | scenario/src/ContractLookup.ts:163-171 | fails exactly as GetVAI does; otherwise the handle, the name unchanged, and whatever VAI.name yields |
| ContractAccessors.GetGovernorData | scenario/src/ContractLookup.ts:173-181 | fails exactly as the handle lookup at Governor.name.address does; otherwise that handle, the name unchanged, and whatever Governor.name yields |
| ContractAccessors.GetInterestRateModel | scenario/src/ContractLookup.ts:183-188 | the handle indexed under the string at InterestRateModel.name.address, with both error cases |
| ContractAccessors.GetInterestRateModelData | scenario/src/ContractLookup.ts:190-198 | fails exactly as GetInterestRateModel does; otherwise the handle, the name unchanged, and whatever InterestRateModel.name yields |
| ContractAccessors.GetBep20Data | scenario/src/ContractLookup.ts:200-208 | fails exactly as the handle lookup at Tokens.name.address does; otherwise that handle, the name unchanged, and whatever Tokens.name yields |
| ContractAccessors.GetVTokenData | scenario/src/ContractLookup.ts:210-218 | fails exactly as the handle lookup at vTokens.name.address does; otherwise that handle, the name unchanged, and the metadata read under VTokens, which is the entry under vTokens because keys ignore case |
| ContractAccessors.GetVTokenDelegateData | scenario/src/ContractLookup.ts:220-228 | fails exactly as the handle lookup at VTokenDelegate.name.address does; otherwise that handle, the name unchanged, and whatever VTokenDelegate.name yields |
| ContractAccessors.GetComptrollerImplData | scenario/src/ContractLookup.ts:230-238 | fails exactly as GetComptrollerImpl does; otherwise the handle, the name unchanged, and whatever Comptroller.name yields |
| LookupScenarios.ZeroInAnyCase | scenario/src/ContractLookup.ts:241-243 | `zero`, `ZERO` and `Zero` all give the zero address in every world |
| LookupScenarios.PaddedZeroIsAName | scenario/src/ContractLookup.ts:241 | the sentinel is not trimmed: ` zero` is resolved as a name and fails in an empty world |
| LookupScenarios.LiteralVerbatim | scenario/src/ContractLookup.ts:245-247 | `0xABC` is returned verbatim even when an alias carries that name |
| LookupScenarios.AliasBeforeAccount | scenario/src/ContractLookup.ts:249-259 | an alias `Foo` wins over an account `foo` for the argument `foo` |
| LookupScenarios.AccountWhenNoAlias | scenario/src/ContractLookup.ts:256-259 | with no alias, the first of two accounts matching `bar` case-insensitively gives the address |
| LookupScenarios.EmptyWorldNotFound | scenario/src/ContractLookup.ts:261-267 | in an empty world every name that is neither the sentinel nor a literal fails with the five fallback paths |
| LookupScenarios.UnknownFails | scenario/src/ContractLookup.ts:261-267 | `Unknown` in an empty world fails with ResolutionNotFound |
| LookupScenarios.LookupSingle | scenario/src/ContractLookup.ts:37 | a one-entry level yields its value exactly when the key matches |
| LookupScenarios.TokenFallback | scenario/src/ContractLookup.ts:261-267 | a name registered only under Tokens.name.address resolves to that address after the three earlier paths miss |
| LookupScenarios.XVSTokenFallback | scenario/src/ContractLookup.ts:261-267 | Tokens.XVS.address = 0x3333 with no alias or account gives 0x3333 for `XVS` |
| LookupScenarios.ContractByNameNeedsIndex | scenario/src/ContractLookup.ts:270-272 | Contracts.Comptroller = 0x4444 gives the handle indexed under 0x4444, and HandleNotFound when the index lacks it |
| LookupScenarios.NestedMapBlocksLaterPath | scenario/src/ContractLookup.ts:26-27 | a first path ending on an empty map makes the string lookup fail although the second path holds a string |

## Left out

- Unicode case mapping and white space: `toLowerCase` is modelled on ASCII letters only and `trim` on ASCII white space (tab, line feed, vertical tab, form feed, carriage return, space), as stand-ins for the full Unicode behaviour.
- Iteration order of the immutable `Map`: the table is an ordered entry list and "first match" is first in that order; the library's own order for large hashed maps is not modelled.
- Table values other than strings and maps (numbers, arrays, objects of other kinds) are not modelled.
- The contract index is a map from string to handle: every indexed handle is truthy, and keys inherited from JavaScript's object prototype are not modelled.
- Exact error messages (`JSON.stringify` of the candidates, of the table and of the index keys): the errors are the two tagged variants `ResolutionNotFound(candidates)` and `HandleNotFound(address)`.
- The `async`/`Promise` wrappers: the accessors are plain functions returning a `Result`; a rejected promise is an `Err`.
- `mustString` and `Event` (`./Utils`, `./Event`) are not part of this model: name arguments are already strings.
- The casts `<T>(<unknown>contract)` and the contract classes under `./Contract/` are not part of this model: every handle has the one opaque type `H`.
- How the world, its table, index, aliases and accounts are built and populated: the engine only reads them.
