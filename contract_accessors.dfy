/**
 * The typed accessors of scenario/src/ContractLookup.ts: each binds a contract
 * kind to a fixed candidate path, possibly built from the caller's name, and
 * feeds it to the table walk and then to the handle index. The asynchronous
 * wrappers of the source are plain functions here, and every handle has the
 * one opaque type H.
 */
module ContractAccessors {
  import opened Options
  import opened Ascii
  import opened ContractLookup

  /**
   * What an accessor over one fixed path promises, stated over the structural
   * descent: the handle indexed under the lower-cased non-empty string found at
   * the path; HandleNotFound when the index lacks it; ResolutionNotFound when
   * the path yields no non-empty string.
   */
  ghost predicate HandleAt<H>(w: World<H>, path: seq<string>, r: Result<H>) {
    var v := Descend(Tbl(w.contractData), path);
    if !IsText(v) then r == Err(ResolutionNotFound([path]))
    else
      var a := v.value.s;
      if Lower(a) in w.contractIndex then r == Ok(w.contractIndex[Lower(a)])
      else r == Err(HandleNotFound(a))
  }

  /** What an address accessor over one fixed path promises: the non-empty string found there. */
  ghost predicate TextAt<H>(w: World<H>, path: seq<string>, r: Result<string>) {
    var v := Descend(Tbl(w.contractData), path);
    if IsText(v) then r == Ok(v.value.s) else r == Err(ResolutionNotFound([path]))
  }

  /**
   * What a *Data accessor promises: it fails exactly as the handle lookup does;
   * otherwise it returns the handle, the caller's name unchanged, and whatever
   * the metadata path yields, absent or not.
   */
  ghost predicate TripleAt<H>(w: World<H>, handlePath: seq<string>, metaPath: seq<string>, name: string,
                              r: Result<(H, string, Option<Data>)>) {
    match r
    case Ok(t) =>
      HandleAt(w, handlePath, Ok(t.0)) && t.1 == name && t.2 == Descend(Tbl(w.contractData), metaPath)
    case Err(e) => HandleAt(w, handlePath, Err(e))
  }

  function HandleOf<H>(w: World<H>, path: seq<string>): (r: Result<H>)
    ensures HandleAt(w, path, r)
  {
    SingleCandidate(w, path);
    GetWorldContract(w, [path])
  }

  function TextOf<H>(w: World<H>, path: seq<string>): (r: Result<string>)
    ensures TextAt(w, path, r)
  {
    SingleCandidate(w, path);
    GetContractDataString(w, [path])
  }

  /** Pairs a fetched handle with the caller's name and the metadata found at metaPath. */
  function WithMetadata<H>(w: World<H>, contract: Result<H>, name: string, metaPath: seq<string>)
    : (r: Result<(H, string, Option<Data>)>)
    ensures contract.Err? ==> r == Err(contract.error)
    ensures contract.Ok? ==> r == Ok((contract.value, name, Descend(Tbl(w.contractData), metaPath)))
  {
    SingleCandidate(w, metaPath);
    match contract
    case Err(e) => Err(e)
    case Ok(h) => Ok((h, name, GetContractData(w, [metaPath])))
  }

  function GetTimelock<H>(w: World<H>): (r: Result<H>)
    ensures HandleAt(w, ["Contracts", "Timelock"], r)
  {
    HandleOf(w, ["Contracts", "Timelock"])
  }

  function GetUnitroller<H>(w: World<H>): (r: Result<H>)
    ensures HandleAt(w, ["Contracts", "Unitroller"], r)
  {
    HandleOf(w, ["Contracts", "Unitroller"])
  }

  function GetMaximillion<H>(w: World<H>): (r: Result<H>)
    ensures HandleAt(w, ["Contracts", "Maximillion"], r)
  {
    HandleOf(w, ["Contracts", "Maximillion"])
  }

  function GetComptroller<H>(w: World<H>): (r: Result<H>)
    ensures HandleAt(w, ["Contracts", "Comptroller"], r)
  {
    HandleOf(w, ["Contracts", "Comptroller"])
  }

  function GetComptrollerImpl<H>(w: World<H>, name: string): (r: Result<H>)
    ensures HandleAt(w, ["Comptroller", name, "address"], r)
  {
    HandleOf(w, ["Comptroller", name, "address"])
  }

  function GetVTokenAddress<H>(w: World<H>, name: string): (r: Result<string>)
    ensures TextAt(w, ["vTokens", name, "address"], r)
  {
    TextOf(w, ["vTokens", name, "address"])
  }

  function GetVTokenDelegateAddress<H>(w: World<H>, name: string): (r: Result<string>)
    ensures TextAt(w, ["VTokenDelegate", name, "address"], r)
  {
    TextOf(w, ["VTokenDelegate", name, "address"])
  }

  function GetBep20Address<H>(w: World<H>, name: string): (r: Result<string>)
    ensures TextAt(w, ["Tokens", name, "address"], r)
  {
    TextOf(w, ["Tokens", name, "address"])
  }

  /** The governor's address is read under Contracts, not under Governor. */
  function GetGovernorAddress<H>(w: World<H>, name: string): (r: Result<string>)
    ensures TextAt(w, ["Contracts", name], r)
  {
    TextOf(w, ["Contracts", name])
  }

  function GetPriceOracleProxy<H>(w: World<H>): (r: Result<H>)
    ensures HandleAt(w, ["Contracts", "PriceOracleProxy"], r)
  {
    HandleOf(w, ["Contracts", "PriceOracleProxy"])
  }

  function GetPriceOracle<H>(w: World<H>): (r: Result<H>)
    ensures HandleAt(w, ["Contracts", "PriceOracle"], r)
  {
    HandleOf(w, ["Contracts", "PriceOracle"])
  }

  /** The name argument is ignored: the result depends on the world alone. */
  function GetXVS<H>(w: World<H>, name: string): (r: Result<H>)
    ensures HandleAt(w, ["XVS", "address"], r)
  {
    HandleOf(w, ["XVS", "address"])
  }

  function GetXVSData<H>(w: World<H>, name: string): (r: Result<(H, string, Option<Data>)>)
    ensures TripleAt(w, ["XVS", "address"], ["XVS", name], name, r)
  {
    WithMetadata(w, GetXVS(w, name), name, ["XVS", name])
  }

  function GetSXP<H>(w: World<H>, name: string): (r: Result<H>)
    ensures HandleAt(w, ["SXP", "address"], r)
  {
    HandleOf(w, ["SXP", "address"])
  }

  function GetSXPData<H>(w: World<H>, name: string): (r: Result<(H, string, Option<Data>)>)
    ensures TripleAt(w, ["SXP", "address"], ["SXP", name], name, r)
  {
    WithMetadata(w, GetSXP(w, name), name, ["SXP", name])
  }

  function GetVAI<H>(w: World<H>, name: string): (r: Result<H>)
    ensures HandleAt(w, ["VAI", "address"], r)
  {
    HandleOf(w, ["VAI", "address"])
  }

  function GetVAIData<H>(w: World<H>, name: string): (r: Result<(H, string, Option<Data>)>)
    ensures TripleAt(w, ["VAI", "address"], ["VAI", name], name, r)
  {
    WithMetadata(w, GetVAI(w, name), name, ["VAI", name])
  }

  function GetGovernorData<H>(w: World<H>, name: string): (r: Result<(H, string, Option<Data>)>)
    ensures TripleAt(w, ["Governor", name, "address"], ["Governor", name], name, r)
  {
    WithMetadata(w, HandleOf(w, ["Governor", name, "address"]), name, ["Governor", name])
  }

  function GetInterestRateModel<H>(w: World<H>, name: string): (r: Result<H>)
    ensures HandleAt(w, ["InterestRateModel", name, "address"], r)
  {
    HandleOf(w, ["InterestRateModel", name, "address"])
  }

  function GetInterestRateModelData<H>(w: World<H>, name: string): (r: Result<(H, string, Option<Data>)>)
    ensures TripleAt(w, ["InterestRateModel", name, "address"], ["InterestRateModel", name], name, r)
  {
    WithMetadata(w, GetInterestRateModel(w, name), name, ["InterestRateModel", name])
  }

  function GetBep20Data<H>(w: World<H>, name: string): (r: Result<(H, string, Option<Data>)>)
    ensures TripleAt(w, ["Tokens", name, "address"], ["Tokens", name], name, r)
  {
    WithMetadata(w, HandleOf(w, ["Tokens", name, "address"]), name, ["Tokens", name])
  }

  /**
   * The metadata is read under VTokens while the handle comes from vTokens;
   * keys match case-insensitively, so both name the same table entry.
   */
  function GetVTokenData<H>(w: World<H>, name: string): (r: Result<(H, string, Option<Data>)>)
    ensures TripleAt(w, ["vTokens", name, "address"], ["VTokens", name], name, r)
    ensures TripleAt(w, ["vTokens", name, "address"], ["vTokens", name], name, r)
  {
    assert Lower("VTokens") == Lower("vTokens") by {
      assert forall i :: 0 <= i < 7 ==> LowerChar("VTokens"[i]) == LowerChar("vTokens"[i]);
    }
    DescendIgnoresSpelling(Tbl(w.contractData), ["VTokens", name], ["vTokens", name]);
    WithMetadata(w, HandleOf(w, ["vTokens", name, "address"]), name, ["VTokens", name])
  }

  function GetVTokenDelegateData<H>(w: World<H>, name: string): (r: Result<(H, string, Option<Data>)>)
    ensures TripleAt(w, ["VTokenDelegate", name, "address"], ["VTokenDelegate", name], name, r)
  {
    WithMetadata(w, HandleOf(w, ["VTokenDelegate", name, "address"]), name, ["VTokenDelegate", name])
  }

  function GetComptrollerImplData<H>(w: World<H>, name: string): (r: Result<(H, string, Option<Data>)>)
    ensures TripleAt(w, ["Comptroller", name, "address"], ["Comptroller", name], name, r)
  {
    WithMetadata(w, GetComptrollerImpl(w, name), name, ["Comptroller", name])
  }

  /** getContractByName: the handle at Contracts.<name>. */
  function GetContractByName<H>(w: World<H>, name: string): (r: Result<H>)
    ensures HandleAt(w, ["Contracts", name], r)
  {
    HandleOf(w, ["Contracts", name])
  }

  /** getXVS, getSXP and getVAI ignore their name argument. */
  lemma FixedTokensIgnoreName<H>(w: World<H>, a: string, b: string)
    ensures GetXVS(w, a) == GetXVS(w, b)
    ensures GetSXP(w, a) == GetSXP(w, b)
    ensures GetVAI(w, a) == GetVAI(w, b)
  {
  }
}
