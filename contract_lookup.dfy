/**
 * Symbolic name and address resolution of the scenario runner
 * (scenario/src/ContractLookup.ts): the walk over the nested contract-data
 * table, the string-required lookup, the address-to-handle index and the
 * precedence chain of getAddress.
 *
 * The world is passed explicitly. H is the opaque type of contract handles.
 */
module ContractLookup {
  import opened Options
  import opened Ascii
  import opened Finding

  /** A value of the contract-data table: a string leaf or an ordered string-keyed map. */
  datatype Data = Str(s: string) | Tbl(entries: seq<(string, Data)>)

  datatype Account = Account(name: string, address: string)

  /**
   * What the engine reads of the world: the root of the contract-data table,
   * the index from lower-cased address to handle, the alias settings in
   * entry order, and the named accounts.
   */
  datatype World<H> = World(
    contractData: seq<(string, Data)>,
    contractIndex: map<string, H>,
    aliases: seq<(string, string)>,
    accounts: seq<Account>)

  /** The two errors the source throws: no usable string, or no handle for an address. */
  datatype Error = ResolutionNotFound(indices: seq<seq<string>>) | HandleNotFound(address: string)

  datatype Result<T> = Ok(value: T) | Err(error: Error)

  /** JavaScript truthiness of a table value: undefined and "" are falsy, every map is truthy. */
  predicate Truthy(v: Option<Data>) {
    match v
    case None => false
    case Some(Str(s)) => s != ""
    case Some(Tbl(_)) => true
  }

  /** A non-empty string leaf: the only value getContractDataString accepts. */
  predicate IsText(v: Option<Data>) {
    v.Some? && v.value.Str? && v.value.s != ""
  }

  /** The form in which keys and path segments are compared. */
  function KeyForm(s: string): string {
    Trim(Lower(s))
  }

  predicate KeyMatches(key: string, el: string) {
    KeyForm(key) == KeyForm(el)
  }

  /** i is the position of the first entry whose key matches el. */
  predicate FirstKey(entries: seq<(string, Data)>, el: string, i: int) {
    && 0 <= i < |entries|
    && KeyMatches(entries[i].0, el)
    && forall j :: 0 <= j < i ==> !KeyMatches(entries[j].0, el)
  }

  /** Map.find on one table level: the value of the first entry whose key matches el. */
  function Lookup(entries: seq<(string, Data)>, el: string): (r: Option<Data>)
    ensures r.None? <==> forall i :: 0 <= i < |entries| ==> !KeyMatches(entries[i].0, el)
    ensures r.Some? ==> exists i :: FirstKey(entries, el, i) && r.value == entries[i].1
    ensures forall i :: FirstKey(entries, el, i) ==> r == Some(entries[i].1)
  {
    match Find(entries, (e: (string, Data)) => KeyMatches(e.0, el))
    case None => None
    case Some(i) => Some(entries[i].1)
  }

  /** One step of the inner fold: falsy stays undefined, a string is kept, a map is searched. */
  function Step(data: Option<Data>, el: string): Option<Data> {
    if !Truthy(data) then None
    else match data.value
      case Str(_) => data
      case Tbl(entries) => Lookup(entries, el)
  }

  /** The inner reduce over the segments of one candidate path. */
  function WalkIndex(data: Option<Data>, index: seq<string>): Option<Data>
    decreases |index|
  {
    if |index| == 0 then data else WalkIndex(Step(data, index[0]), index[1..])
  }

  /** One candidate path walked from the root of the table. */
  function Candidate(root: seq<(string, Data)>, index: seq<string>): Option<Data> {
    WalkIndex(Some(Tbl(root)), index)
  }

  /** The outer reduce: a truthy accumulator is kept, otherwise the next candidate is walked. */
  function FoldIndices(value: Option<Data>, root: seq<(string, Data)>, indices: seq<seq<string>>): Option<Data>
    decreases |indices|
  {
    if |indices| == 0 then value
    else FoldIndices(if Truthy(value) then value else Candidate(root, indices[0]), root, indices[1..])
  }

  /** getContractData. */
  function GetContractData<H>(w: World<H>, indices: seq<seq<string>>): Option<Data> {
    FoldIndices(None, w.contractData, indices)
  }

  /**
   * An independent reading of one walk: descend segment by segment, a
   * non-empty string leaf ends the descent early, an empty one mid-path is a miss.
   */
  function Descend(d: Data, path: seq<string>): Option<Data>
    decreases |path|
  {
    if |path| == 0 then Some(d)
    else match d
      case Str(s) => if s == "" then None else Some(d)
      case Tbl(entries) =>
        match Lookup(entries, path[0])
        case None => None
        case Some(child) => Descend(child, path[1..])
  }

  // ---------------------------------------------------------------------------
  // The walk of one candidate

  lemma {:induction false} WalkFromNone(index: seq<string>)
    ensures WalkIndex(None, index) == None
    decreases |index|
  {
    if |index| > 0 {
      WalkFromNone(index[1..]);
    }
  }

  /** The fold over segments agrees with the structural descent. */
  lemma {:induction false} WalkIsDescent(d: Data, index: seq<string>)
    ensures WalkIndex(Some(d), index) == Descend(d, index)
    decreases |index|
  {
    if |index| > 0 {
      match d
      case Str(s) =>
        if s == "" {
          WalkFromNone(index[1..]);
        } else {
          WalkIsDescent(d, index[1..]);
        }
      case Tbl(entries) =>
        match Lookup(entries, index[0])
        case None => WalkFromNone(index[1..]);
        case Some(child) => WalkIsDescent(child, index[1..]);
    }
  }

  lemma {:induction false} WalkAppend(data: Option<Data>, p: seq<string>, q: seq<string>)
    ensures WalkIndex(data, p + q) == WalkIndex(WalkIndex(data, p), q)
    decreases |p|
  {
    if |p| == 0 {
      assert p + q == q;
    } else {
      assert (p + q)[0] == p[0];
      assert (p + q)[1..] == p[1..] + q;
      WalkAppend(Step(data, p[0]), p[1..], q);
    }
  }

  /** A string leaf reached before the path runs out is the candidate's result. */
  lemma EarlyStringLeaf(root: seq<(string, Data)>, prefix: seq<string>, rest: seq<string>, s: string)
    requires s != "" && Candidate(root, prefix) == Some(Str(s))
    ensures Candidate(root, prefix + rest) == Some(Str(s))
  {
    WalkAppend(Some(Tbl(root)), prefix, rest);
    WalkIsDescent(Str(s), rest);
  }

  /** A missing segment makes the whole candidate undefined, whatever follows. */
  lemma MissingSegment(root: seq<(string, Data)>, prefix: seq<string>, rest: seq<string>)
    requires Candidate(root, prefix) == None
    ensures Candidate(root, prefix + rest) == None
  {
    WalkAppend(Some(Tbl(root)), prefix, rest);
    WalkFromNone(rest);
  }

  // ---------------------------------------------------------------------------
  // Case- and white-space-insensitive keys

  /** Two paths of the same length whose segments have the same key form. */
  predicate SameSpelling(p: seq<string>, q: seq<string>) {
    |p| == |q| && forall i :: 0 <= i < |p| ==> KeyForm(p[i]) == KeyForm(q[i])
  }

  lemma LookupIgnoresSpelling(entries: seq<(string, Data)>, a: string, b: string)
    requires KeyForm(a) == KeyForm(b)
    ensures Lookup(entries, a) == Lookup(entries, b)
  {
  }

  lemma {:induction false} WalkIgnoresSpelling(data: Option<Data>, p: seq<string>, q: seq<string>)
    requires SameSpelling(p, q)
    ensures WalkIndex(data, p) == WalkIndex(data, q)
    decreases |p|
  {
    if |p| > 0 {
      assert KeyForm(p[0]) == KeyForm(q[0]);
      match data {
        case Some(Tbl(entries)) => LookupIgnoresSpelling(entries, p[0], q[0]);
        case _ =>
      }
      assert SameSpelling(p[1..], q[1..]) by {
        forall i | 0 <= i < |p[1..]| ensures KeyForm(p[1..][i]) == KeyForm(q[1..][i]) {
          assert p[1..][i] == p[i + 1] && q[1..][i] == q[i + 1];
        }
      }
      WalkIgnoresSpelling(Step(data, p[0]), p[1..], q[1..]);
    }
  }

  lemma {:induction false} FoldIgnoresSpelling(value: Option<Data>, root: seq<(string, Data)>, cs: seq<seq<string>>, ds: seq<seq<string>>)
    requires |cs| == |ds| && forall i :: 0 <= i < |cs| ==> SameSpelling(cs[i], ds[i])
    ensures FoldIndices(value, root, cs) == FoldIndices(value, root, ds)
    decreases |cs|
  {
    if |cs| > 0 {
      WalkIgnoresSpelling(Some(Tbl(root)), cs[0], ds[0]);
      assert forall i :: 0 <= i < |cs[1..]| ==> cs[1..][i] == cs[i + 1] && ds[1..][i] == ds[i + 1];
      FoldIgnoresSpelling(if Truthy(value) then value else Candidate(root, cs[0]), root, cs[1..], ds[1..]);
    }
  }

  /** Respelling any segment of any candidate in case or surrounding white space changes nothing. */
  lemma ContractDataIgnoresSpelling<H>(w: World<H>, cs: seq<seq<string>>, ds: seq<seq<string>>)
    requires |cs| == |ds| && forall i :: 0 <= i < |cs| ==> SameSpelling(cs[i], ds[i])
    ensures GetContractData(w, cs) == GetContractData(w, ds)
  {
    FoldIgnoresSpelling(None, w.contractData, cs, ds);
  }

  lemma DescendIgnoresSpelling(d: Data, p: seq<string>, q: seq<string>)
    requires SameSpelling(p, q)
    ensures Descend(d, p) == Descend(d, q)
  {
    WalkIsDescent(d, p);
    WalkIsDescent(d, q);
    WalkIgnoresSpelling(Some(d), p, q);
  }

  /** A segment with its case changed and white space around it has the same key form. */
  lemma RespeltSegment(a: string, b: string, w1: string, w2: string)
    requires Lower(a) == Lower(b) && AllSpace(w1) && AllSpace(w2)
    ensures KeyForm(w1 + b + w2) == KeyForm(a)
  {
    KeyFormIgnoresPadding(w1, b, w2);
  }

  // ---------------------------------------------------------------------------
  // The order of candidates

  lemma {:induction false} FoldKeepsTruthy(value: Option<Data>, root: seq<(string, Data)>, indices: seq<seq<string>>)
    requires Truthy(value)
    ensures FoldIndices(value, root, indices) == value
    decreases |indices|
  {
    if |indices| > 0 {
      FoldKeepsTruthy(value, root, indices[1..]);
    }
  }

  lemma {:induction false} FoldFirstTruthy(value: Option<Data>, root: seq<(string, Data)>, indices: seq<seq<string>>, i: nat)
    requires !Truthy(value)
    requires i < |indices| && Truthy(Candidate(root, indices[i]))
    requires forall j :: 0 <= j < i ==> !Truthy(Candidate(root, indices[j]))
    ensures FoldIndices(value, root, indices) == Candidate(root, indices[i])
    decreases |indices|
  {
    if i == 0 {
      FoldKeepsTruthy(Candidate(root, indices[0]), root, indices[1..]);
    } else {
      assert forall j :: 0 <= j < i - 1 ==> indices[1..][j] == indices[j + 1];
      FoldFirstTruthy(Candidate(root, indices[0]), root, indices[1..], i - 1);
    }
  }

  lemma {:induction false} FoldNoneTruthy(value: Option<Data>, root: seq<(string, Data)>, indices: seq<seq<string>>)
    requires !Truthy(value)
    requires forall j :: 0 <= j < |indices| ==> !Truthy(Candidate(root, indices[j]))
    ensures FoldIndices(value, root, indices) == if |indices| == 0 then value else Candidate(root, indices[|indices| - 1])
    decreases |indices|
  {
    if |indices| > 0 {
      var first := Candidate(root, indices[0]);
      var rest := indices[1..];
      assert !Truthy(first);
      assert FoldIndices(value, root, indices) == FoldIndices(first, root, rest);
      forall j | 0 <= j < |rest| ensures !Truthy(Candidate(root, rest[j])) {
        assert rest[j] == indices[j + 1];
      }
      FoldNoneTruthy(first, root, rest);
      if |rest| > 0 {
        assert rest[|rest| - 1] == indices[|indices| - 1];
      }
    }
  }

  /** The first candidate with a truthy walk decides the result. */
  lemma FirstTruthyCandidateWins<H>(w: World<H>, indices: seq<seq<string>>, i: nat)
    requires i < |indices| && Truthy(Candidate(w.contractData, indices[i]))
    requires forall j :: 0 <= j < i ==> !Truthy(Candidate(w.contractData, indices[j]))
    ensures GetContractData(w, indices) == Candidate(w.contractData, indices[i])
  {
    FoldFirstTruthy(None, w.contractData, indices, i);
  }

  /** With no truthy candidate the result is the last candidate's falsy value, or undefined. */
  lemma NoTruthyCandidate<H>(w: World<H>, indices: seq<seq<string>>)
    requires forall j :: 0 <= j < |indices| ==> !Truthy(Candidate(w.contractData, indices[j]))
    ensures !Truthy(GetContractData(w, indices))
    ensures GetContractData(w, indices) == if |indices| == 0 then None else Candidate(w.contractData, indices[|indices| - 1])
  {
    FoldNoneTruthy(None, w.contractData, indices);
  }

  /** The result is truthy exactly when some candidate's walk is. */
  lemma TruthyIffSomeCandidate<H>(w: World<H>, indices: seq<seq<string>>)
    ensures Truthy(GetContractData(w, indices)) <==>
      exists i :: 0 <= i < |indices| && Truthy(Candidate(w.contractData, indices[i]))
  {
    match Find(indices, (c: seq<string>) => Truthy(Candidate(w.contractData, c)))
    case None => NoTruthyCandidate(w, indices);
    case Some(i) => FirstTruthyCandidateWins(w, indices, i);
  }

  /** Once a prefix of the candidates yields a truthy value, later candidates are never consulted. */
  lemma LaterCandidatesIgnored<H>(w: World<H>, first: seq<seq<string>>, later: seq<seq<string>>)
    requires Truthy(GetContractData(w, first))
    ensures GetContractData(w, first + later) == GetContractData(w, first)
  {
    // The first truthy candidate of `first` is also the first of `first + later`;
    // by TruthyIffSomeCandidate, Find cannot come back empty.
    TruthyIffSomeCandidate(w, first);
    match Find(first, (c: seq<string>) => Truthy(Candidate(w.contractData, c)))
    case None =>
      assert false;
    case Some(k) =>
      assert forall j :: 0 <= j < |first| ==> (first + later)[j] == first[j];
      FirstTruthyCandidateWins(w, first, k);
      FirstTruthyCandidateWins(w, first + later, k);
  }

  /** A candidate that ends on a map, even an empty one, stops the search there. */
  lemma NestedMapStopsSearch<H>(w: World<H>, index: seq<string>, later: seq<seq<string>>, entries: seq<(string, Data)>)
    requires Candidate(w.contractData, index) == Some(Tbl(entries))
    ensures GetContractData(w, [index] + later) == Some(Tbl(entries))
    ensures GetContractDataString(w, [index] + later) == Err(ResolutionNotFound([index] + later))
  {
    FirstTruthyCandidateWins(w, [index] + later, 0);
  }

  /** A missing segment or an empty-string leaf lets the search move on to the next candidate. */
  lemma FalsyCandidateSkipped<H>(w: World<H>, index: seq<string>, later: seq<seq<string>>)
    requires !Truthy(Candidate(w.contractData, index)) && |later| > 0
    ensures GetContractData(w, [index] + later) == GetContractData(w, later)
  {
    assert ([index] + later)[1..] == later;
    FoldFalsyStart(Candidate(w.contractData, index), None, w.contractData, later);
  }

  lemma FoldFalsyStart(v1: Option<Data>, v2: Option<Data>, root: seq<(string, Data)>, indices: seq<seq<string>>)
    requires !Truthy(v1) && !Truthy(v2) && |indices| > 0
    ensures FoldIndices(v1, root, indices) == FoldIndices(v2, root, indices)
  {
  }

  /** A single candidate is exactly its descent from the root. */
  lemma SingleCandidate<H>(w: World<H>, index: seq<string>)
    ensures GetContractData(w, [index]) == Descend(Tbl(w.contractData), index)
  {
    var root := w.contractData;
    assert [index][1..] == [];
    calc {
      GetContractData(w, [index]);
      FoldIndices(None, root, [index]);
      FoldIndices(Candidate(root, index), root, []);
      Candidate(root, index);
      { WalkIsDescent(Tbl(root), index); }
      Descend(Tbl(root), index);
    }
  }

  // ---------------------------------------------------------------------------
  // String-required lookup and the handle index

  /** getContractDataString: succeeds with the string exactly when the lookup yields a non-empty string. */
  function GetContractDataString<H>(w: World<H>, indices: seq<seq<string>>): (r: Result<string>)
    ensures r.Ok? <==> IsText(GetContractData(w, indices))
    ensures r.Ok? ==> GetContractData(w, indices) == Some(Str(r.value))
    ensures r.Err? ==> r.error == ResolutionNotFound(indices)
  {
    match GetContractData(w, indices)
    case Some(Str(s)) => if s == "" then Err(ResolutionNotFound(indices)) else Ok(s)
    case _ => Err(ResolutionNotFound(indices))
  }

  /** getWorldContractByAddress: the handle stored under the lower-cased address. */
  function GetWorldContractByAddress<H>(w: World<H>, address: string): (r: Result<H>)
    ensures r.Ok? <==> Lower(address) in w.contractIndex
    ensures r.Ok? ==> r.value == w.contractIndex[Lower(address)]
    ensures r.Err? ==> r.error == HandleNotFound(address)
  {
    var key := Lower(address);
    if key in w.contractIndex then Ok(w.contractIndex[key]) else Err(HandleNotFound(address))
  }

  /** Addresses that differ only in letter case find the same handle, or both fail. */
  lemma HandleLookupIgnoresCase<H>(w: World<H>, a: string, b: string)
    requires Lower(a) == Lower(b)
    ensures GetWorldContractByAddress(w, a).Ok? == GetWorldContractByAddress(w, b).Ok?
    ensures GetWorldContractByAddress(w, a).Ok? ==>
      GetWorldContractByAddress(w, a).value == GetWorldContractByAddress(w, b).value
  {
  }

  /** A handle indexed under the lower-cased form of an address is found by any spelling of it. */
  lemma IndexedAddressFound<H>(w: World<H>, address: string, h: H)
    requires Lower(address) in w.contractIndex && w.contractIndex[Lower(address)] == h
    ensures GetWorldContractByAddress(w, address) == Ok(h)
    ensures GetWorldContractByAddress(w, Lower(address)) == Ok(h)
  {
    LowerIdempotent(address);
  }

  /** getWorldContract: the string lookup, then the handle index; a table hit can still miss the index. */
  function GetWorldContract<H>(w: World<H>, indices: seq<seq<string>>): (r: Result<H>)
    ensures !IsText(GetContractData(w, indices)) ==> r == Err(ResolutionNotFound(indices))
    ensures IsText(GetContractData(w, indices)) ==>
      var a := GetContractData(w, indices).value.s;
      r == if Lower(a) in w.contractIndex then Ok(w.contractIndex[Lower(a)]) else Err(HandleNotFound(a))
  {
    match GetContractDataString(w, indices)
    case Err(e) => Err(e)
    case Ok(address) => GetWorldContractByAddress(w, address)
  }

  // ---------------------------------------------------------------------------
  // getAddress

  /** The address returned for the `zero` sentinel: 0x and forty zero hex digits. */
  const ZeroAddress: string := "0x0000000000000000000000000000000000000000"

  lemma ZeroAddressShape()
    ensures |ZeroAddress| == 42 && StartsWith(ZeroAddress, "0x")
    ensures forall i :: 2 <= i < 42 ==> ZeroAddress[i] == '0'
  {
    assert ZeroAddress[0] == '0' && ZeroAddress[1] == 'x';
    assert ZeroAddress[..2] == "0x";
  }

  /** Alias names and account names are compared after lower-casing only, without trimming. */
  predicate NameMatches(name: string, arg: string) {
    Lower(name) == Lower(arg)
  }

  predicate FirstAlias(aliases: seq<(string, string)>, arg: string, i: int) {
    && 0 <= i < |aliases|
    && NameMatches(aliases[i].0, arg)
    && forall j :: 0 <= j < i ==> !NameMatches(aliases[j].0, arg)
  }

  predicate FirstAccount(accounts: seq<Account>, arg: string, i: int) {
    && 0 <= i < |accounts|
    && NameMatches(accounts[i].name, arg)
    && forall j :: 0 <= j < i ==> !NameMatches(accounts[j].name, arg)
  }

  /** The five table paths tried last, in their fixed order. */
  function FallbackIndices(arg: string): seq<seq<string>> {
    [ ["Contracts", arg],
      ["vTokens", arg, "address"],
      ["VTokenDelegate", arg, "address"],
      ["Tokens", arg, "address"],
      ["Comptroller", arg, "address"] ]
  }

  /**
   * getAddress: the zero sentinel, then a literal 0x address, then the first
   * matching alias, then the first matching account, then the table paths.
   */
  function GetAddress<H>(w: World<H>, addressArg: string): (r: Result<string>)
    ensures Lower(addressArg) == "zero" ==> r == Ok(ZeroAddress)
    ensures Lower(addressArg) != "zero" && StartsWith(addressArg, "0x") ==> r == Ok(addressArg)
    ensures Lower(addressArg) != "zero" && !StartsWith(addressArg, "0x") ==>
      forall i :: FirstAlias(w.aliases, addressArg, i) ==> r == Ok(w.aliases[i].1)
    ensures (Lower(addressArg) != "zero" && !StartsWith(addressArg, "0x")
      && forall j :: 0 <= j < |w.aliases| ==> !NameMatches(w.aliases[j].0, addressArg)) ==>
      forall i :: FirstAccount(w.accounts, addressArg, i) ==> r == Ok(w.accounts[i].address)
    ensures (Lower(addressArg) != "zero" && !StartsWith(addressArg, "0x")
      && (forall j :: 0 <= j < |w.aliases| ==> !NameMatches(w.aliases[j].0, addressArg))
      && forall j :: 0 <= j < |w.accounts| ==> !NameMatches(w.accounts[j].name, addressArg)) ==>
      r == GetContractDataString(w, FallbackIndices(addressArg))
  {
    if Lower(addressArg) == "zero" then Ok(ZeroAddress)
    else if StartsWith(addressArg, "0x") then Ok(addressArg)
    else match Find(w.aliases, (a: (string, string)) => NameMatches(a.0, addressArg))
      case Some(i) => Ok(w.aliases[i].1)
      case None =>
        match Find(w.accounts, (a: Account) => NameMatches(a.name, addressArg))
        case Some(i) => Ok(w.accounts[i].address)
        case None => GetContractDataString(w, FallbackIndices(addressArg))
  }

}
