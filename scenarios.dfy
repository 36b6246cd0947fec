/**
 * Concrete resolution scenarios: small worlds built by hand and what the
 * engine yields on them. Handles are plain numbers here.
 */
module LookupScenarios {
  import opened Options
  import opened Ascii
  import opened ContractLookup
  import opened ContractAccessors

  const Empty: World<int> := World([], map[], [], [])

  /** The sentinel is recognised in any letter case, before any other rule. */
  lemma ZeroInAnyCase(w: World<int>)
    ensures GetAddress(w, "zero") == Ok(ZeroAddress)
    ensures GetAddress(w, "ZERO") == Ok(ZeroAddress)
    ensures GetAddress(w, "Zero") == Ok(ZeroAddress)
  {
    assert Lower("ZERO") == "zero" by {
      assert forall i :: 0 <= i < 4 ==> LowerChar("ZERO"[i]) == "zero"[i];
    }
    assert Lower("Zero") == "zero" by {
      assert forall i :: 0 <= i < 4 ==> LowerChar("Zero"[i]) == "zero"[i];
    }
    assert Lower("zero") == "zero" by {
      assert forall i :: 0 <= i < 4 ==> LowerChar("zero"[i]) == "zero"[i];
    }
  }

  /** Every non-empty path misses in an empty table. */
  lemma EmptyTableMisses(index: seq<string>)
    requires |index| > 0
    ensures Candidate([], index) == None
  {
    WalkFromNone(index[1..]);
  }

  lemma EmptyWorldNotFound(arg: string)
    requires Lower(arg) != "zero" && !StartsWith(arg, "0x")
    ensures GetAddress(Empty, arg) == Err(ResolutionNotFound(FallbackIndices(arg)))
  {
    var cs := FallbackIndices(arg);
    forall j | 0 <= j < |cs| ensures !Truthy(Candidate([], cs[j])) {
      EmptyTableMisses(cs[j]);
    }
    NoTruthyCandidate(Empty, cs);
  }

  /** The sentinel is not trimmed: a padded " zero" is looked up like any other name. */
  lemma PaddedZeroIsAName()
    ensures GetAddress(Empty, " zero") == Err(ResolutionNotFound(FallbackIndices(" zero")))
  {
    assert |Lower(" zero")| == 5;
    assert " zero"[0] != '0';
    EmptyWorldNotFound(" zero");
  }

  /** A literal address comes back verbatim, upper-case hex digits included, even when an alias has its name. */
  lemma LiteralVerbatim()
    ensures GetAddress<int>(World([], map[], [("0xABC", "0x1111")], []), "0xABC") == Ok("0xABC")
  {
  }

  /** An alias wins over an account of the same name, matched without regard to case. */
  lemma AliasBeforeAccount()
    ensures GetAddress<int>(World([], map[], [("Foo", "0x1111")], [Account("foo", "0x2222")]), "foo") == Ok("0x1111")
  {
    var w: World<int> := World([], map[], [("Foo", "0x1111")], [Account("foo", "0x2222")]);
    assert Lower("Foo") == Lower("foo") by {
      assert forall i :: 0 <= i < 3 ==> LowerChar("Foo"[i]) == LowerChar("foo"[i]);
    }
    assert !StartsWith("foo", "0x") by {
      assert "foo"[..2] != "0x" by { assert "foo"[0] != '0'; }
    }
    assert FirstAlias(w.aliases, "foo", 0);
  }

  /** With no alias of the name, the first account with that name gives the address. */
  lemma AccountWhenNoAlias()
    ensures GetAddress<int>(World([], map[], [], [Account("Bar", "0x2222"), Account("bar", "0x9999")]), "bar") == Ok("0x2222")
  {
    var w: World<int> := World([], map[], [], [Account("Bar", "0x2222"), Account("bar", "0x9999")]);
    assert Lower("Bar") == Lower("bar") by {
      assert forall i :: 0 <= i < 3 ==> LowerChar("Bar"[i]) == LowerChar("bar"[i]);
    }
    assert !StartsWith("bar", "0x") by {
      assert "bar"[0] != '0';
    }
    assert FirstAccount(w.accounts, "bar", 0);
  }

  /** A name that no rule knows fails with the five fallback paths. */
  lemma UnknownFails()
    ensures GetAddress(Empty, "Unknown") == Err(ResolutionNotFound(FallbackIndices("Unknown")))
  {
    assert |Lower("Unknown")| == 7;
    assert "Unknown"[0] != '0';
    EmptyWorldNotFound("Unknown");
  }

  /** A key with no white space at either end is compared in its lower-case form. */
  lemma KeyFormOfWord(s: string)
    requires |s| > 0 && !IsSpace(s[0]) && !IsSpace(s[|s| - 1])
    ensures KeyForm(s) == Lower(s)
  {
  }

  /** One level with a single entry: its value when the key matches, undefined otherwise. */
  lemma LookupSingle(key: string, v: Data, el: string)
    ensures Lookup([(key, v)], el) == if KeyMatches(key, el) then Some(v) else None
  {
  }

  /** A table holding only Tokens.<name>.address. */
  function TokenTable(name: string, address: string): seq<(string, Data)> {
    [("Tokens", Tbl([(name, Tbl([("address", Str(address))]))]))]
  }

  lemma TokenTableMisses(name: string, address: string, ns: string, rest: seq<string>)
    requires |ns| > 0 && !IsSpace(ns[0]) && !IsSpace(ns[|ns| - 1]) && Lower(ns)[0] != 't'
    ensures Candidate(TokenTable(name, address), [ns] + rest) == None
  {
    var root := TokenTable(name, address);
    KeyFormOfWord("Tokens");
    KeyFormOfWord(ns);
    assert Lower("Tokens")[0] == 't';
    LookupSingle("Tokens", root[0].1, ns);
    WalkIsDescent(Tbl(root), [ns] + rest);
  }

  lemma TokenTableHit(name: string, address: string)
    requires address != ""
    ensures Candidate(TokenTable(name, address), ["Tokens", name, "address"]) == Some(Str(address))
  {
    var root := TokenTable(name, address);
    LookupSingle("Tokens", root[0].1, "Tokens");
    LookupSingle(name, Tbl([("address", Str(address))]), name);
    LookupSingle("address", Str(address), "address");
    var p := ["Tokens", name, "address"];
    assert p[1..] == [name, "address"] && p[1..][1..] == ["address"];
    assert Descend(Str(address), []) == Some(Str(address));
    assert Descend(Tbl([("address", Str(address))]), ["address"]) == Some(Str(address));
    assert Descend(root[0].1, [name, "address"]) == Some(Str(address));
    WalkIsDescent(Tbl(root), p);
  }

  /**
   * A token registered only under Tokens.<name>.address is found by getAddress
   * once the Contracts, vTokens and VTokenDelegate paths have missed.
   */
  lemma TokenFallback(w: World<int>, name: string, address: string)
    requires w.contractData == TokenTable(name, address) && w.aliases == [] && w.accounts == []
    requires Lower(name) != "zero" && !StartsWith(name, "0x") && address != ""
    ensures GetAddress(w, name) == Ok(address)
  {
    var cs := FallbackIndices(name);
    var root := w.contractData;
    assert Lower("Contracts")[0] == 'c' && Lower("vTokens")[0] == 'v' && Lower("VTokenDelegate")[0] == 'v';
    assert cs[0] == ["Contracts"] + [name];
    TokenTableMisses(name, address, "Contracts", [name]);
    assert cs[1] == ["vTokens"] + [name, "address"];
    TokenTableMisses(name, address, "vTokens", [name, "address"]);
    assert cs[2] == ["VTokenDelegate"] + [name, "address"];
    TokenTableMisses(name, address, "VTokenDelegate", [name, "address"]);
    TokenTableHit(name, address);
    FirstTruthyCandidateWins(w, cs, 3);
  }

  lemma XVSTokenFallback(w: World<int>)
    requires w.contractData == TokenTable("XVS", "0x3333") && w.aliases == [] && w.accounts == []
    ensures GetAddress(w, "XVS") == Ok("0x3333")
  {
    assert "XVS"[0] != '0';
    assert |Lower("XVS")| == 3;
    TokenFallback(w, "XVS", "0x3333");
  }

  /** Contracts.Comptroller found and indexed gives the handle; missing from the index, it fails. */
  lemma ContractByNameNeedsIndex()
    ensures GetContractByName<int>(World([("Contracts", Tbl([("Comptroller", Str("0x4444"))]))], map["0x4444" := 7], [], []), "Comptroller") == Ok(7)
    ensures GetContractByName<int>(World([("Contracts", Tbl([("Comptroller", Str("0x4444"))]))], map[], [], []), "Comptroller") == Err(HandleNotFound("0x4444"))
  {
    var root := [("Contracts", Tbl([("Comptroller", Str("0x4444"))]))];
    assert Lower("0x4444") == "0x4444" by {
      assert forall i :: 0 <= i < 6 ==> LowerChar("0x4444"[i]) == "0x4444"[i];
    }
    assert FirstKey(root, "Contracts", 0);
    assert FirstKey([("Comptroller", Str("0x4444"))], "Comptroller", 0);
    assert Descend(Tbl(root), ["Contracts", "Comptroller"]) == Some(Str("0x4444"));
  }

  /** A path ending on a map stops the search even when a later path has the string. */
  lemma NestedMapBlocksLaterPath()
    ensures GetContractDataString<int>(World([("A", Tbl([])), ("B", Str("0x5555"))], map[], [], []), [["A"], ["B"]])
      == Err(ResolutionNotFound([["A"], ["B"]]))
  {
  }
}
