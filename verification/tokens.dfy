/** The token tables of the UI kit (frontend/uikit/src/tokens.ts): which
    strings are token and collateral symbols, the collateral token list, and
    the symbol-to-token table. Icons are the names of the bundled assets. */
module Tokens {
  import opened Common
  import opened WhiteLabel

  /** A token, or a collateral token when `collateralRatio` is present. */
  datatype Token = Token(icon: string, name: string, symbol: string, collateralRatio: Option<real>)

  const MainTokenIcon: string := "main-token.svg"
  const LqtyIcon: string := "lqty.svg"
  const LusdIcon: string := "lusd.svg"
  const SboldIcon: string := "sbold.svg"

  /** `collateralIcons`: the collaterals with a bundled icon. */
  function CollateralIcon(symbol: string): Option<string> {
    if symbol == "ETH" then Some("eth.svg")
    else if symbol == "RETH" then Some("reth.svg")
    else if symbol == "WSTETH" then Some("wsteth.svg")
    else None
  }

  /** `isCollateralSymbol`: some configured collateral has the symbol. */
  predicate IsCollateralSymbol(config: Config, s: string) {
    exists i :: 0 <= i < |config.collaterals| && config.collaterals[i].symbol == s
  }

  /** The symbols of the four named tokens. */
  function BaseSymbols(config: Config): seq<string> {
    [config.mainToken.symbol, config.governanceToken.symbol, config.lusd.symbol, config.staked.symbol]
  }

  /** `isTokenSymbol`: one of the four named tokens or a collateral. */
  predicate IsTokenSymbol(config: Config, s: string) {
    s in BaseSymbols(config) || IsCollateralSymbol(config, s)
  }

  /** Every collateral symbol is a token symbol. */
  lemma CollateralSymbolIsTokenSymbol(config: Config, s: string)
    requires IsCollateralSymbol(config, s)
    ensures IsTokenSymbol(config, s)
  {
  }

  /** One entry of `COLLATERALS`: the icon falls back to the main token's. */
  function CollateralToken(c: CollateralConfig): (t: Token)
    ensures t.symbol == c.symbol && t.name == c.name && t.collateralRatio == Some(c.collateralRatio)
    ensures t.icon == (if CollateralIcon(c.symbol).Some? then CollateralIcon(c.symbol).value else MainTokenIcon)
  {
    var icon := CollateralIcon(c.symbol);
    Token(if icon.Some? then icon.value else MainTokenIcon, c.name, c.symbol, Some(c.collateralRatio))
  }

  /** `COLLATERALS`: the configured collaterals in order. */
  function Collaterals(config: Config): (r: seq<Token>)
    ensures |r| == |config.collaterals|
    ensures forall i :: 0 <= i < |r| ==> r[i] == CollateralToken(config.collaterals[i])
  {
    seq(|config.collaterals|, i requires 0 <= i < |config.collaterals| => CollateralToken(config.collaterals[i]))
  }

  /** `ETH`, `RETH`, `WSTETH`: the first collateral token with the symbol, else
      the first collateral token (undefined with no collaterals). */
  function TokenOrFirst(collaterals: seq<Token>, symbol: string): (r: Option<Token>)
    ensures r.None? <==> collaterals == []
    ensures r.Some? && r.value.symbol != symbol ==>
      r.value == collaterals[0] && forall i :: 0 <= i < |collaterals| ==> collaterals[i].symbol != symbol
    ensures r.Some? && r.value.symbol == symbol ==>
      exists i :: 0 <= i < |collaterals| && collaterals[i] == r.value && forall j :: 0 <= j < i ==> collaterals[j].symbol != symbol
  {
    if collaterals == [] then None
    else
      var found := FirstWithSymbolToken(collaterals, symbol);
      if found.Some? then found else Some(collaterals[0])
  }

  function FirstWithSymbolToken(collaterals: seq<Token>, symbol: string): (r: Option<Token>)
    ensures r.None? <==> forall i :: 0 <= i < |collaterals| ==> collaterals[i].symbol != symbol
    ensures r.Some? ==> r.value.symbol == symbol
    ensures r.Some? ==>
      exists i :: 0 <= i < |collaterals| && collaterals[i] == r.value && forall j :: 0 <= j < i ==> collaterals[j].symbol != symbol
  {
    if collaterals == [] then None
    else if collaterals[0].symbol == symbol then Some(collaterals[0])
    else
      var r := FirstWithSymbolToken(collaterals[1..], symbol);
      assert r.Some? ==> exists i :: 1 <= i < |collaterals| && collaterals[i] == r.value && forall j :: 0 <= j < i ==> collaterals[j].symbol != symbol by {
        if r.Some? {
          var k :| 0 <= k < |collaterals[1..]| && collaterals[1..][k] == r.value && forall j :: 0 <= j < k ==> collaterals[1..][j].symbol != symbol;
          assert forall j :: 0 <= j < k + 1 ==> collaterals[j].symbol != symbol by {
            forall j | 0 <= j < k + 1 ensures collaterals[j].symbol != symbol {
              if j > 0 { assert collaterals[j] == collaterals[1..][j - 1]; }
            }
          }
        }
      }
      r
  }

  /** The four named tokens, in the order of the `tokensMap` literal. */
  function BaseTokens(config: Config): seq<Token> {
    [ Token(MainTokenIcon, config.mainToken.name, config.mainToken.symbol, None),
      Token(LqtyIcon, config.governanceToken.name, config.governanceToken.symbol, None),
      Token(LusdIcon, config.lusd.name, config.lusd.symbol, None),
      Token(SboldIcon, config.staked.name, config.staked.symbol, None) ]
  }

  /** Entry `i` is the last one in `ts` with its symbol. */
  predicate LastWithSymbol(ts: seq<Token>, i: int) {
    0 <= i < |ts| && forall j :: i < j < |ts| ==> ts[j].symbol != ts[i].symbol
  }

  /** Writing `ts` into `m` one by one, later entries overwriting earlier ones. */
  function WriteAll(m: map<string, Token>, ts: seq<Token>): map<string, Token> {
    if ts == [] then m else WriteAll(m, ts[..|ts| - 1])[ts[|ts| - 1].symbol := ts[|ts| - 1]]
  }

  /** Some entry of `ts` has the symbol. */
  predicate HasSymbol(ts: seq<Token>, s: string) {
    exists i :: 0 <= i < |ts| && ts[i].symbol == s
  }

  /** After writing `ts`, the table holds exactly the old keys and the symbols
      of `ts`. */
  lemma {:induction false} WriteAllKeys(m: map<string, Token>, ts: seq<Token>, s: string)
    ensures s in WriteAll(m, ts) <==> s in m || HasSymbol(ts, s)
  {
    if ts != [] {
      var init := ts[..|ts| - 1];
      WriteAllKeys(m, init, s);
      if HasSymbol(ts, s) && ts[|ts| - 1].symbol != s {
        var i :| 0 <= i < |ts| && ts[i].symbol == s;
        assert init[i].symbol == s;
      }
      if HasSymbol(init, s) {
        var i :| 0 <= i < |init| && init[i].symbol == s;
        assert ts[i].symbol == s;
      }
    }
  }

  /** A symbol of `ts` maps to the last entry with that symbol. */
  lemma {:induction false} WriteAllLast(m: map<string, Token>, ts: seq<Token>, i: int)
    requires LastWithSymbol(ts, i)
    ensures ts[i].symbol in WriteAll(m, ts) && WriteAll(m, ts)[ts[i].symbol] == ts[i]
  {
    var init := ts[..|ts| - 1];
    if i < |init| {
      assert LastWithSymbol(init, i);
      WriteAllLast(m, init, i);
    }
  }

  /** A key no entry of `ts` has keeps its old token. */
  lemma {:induction false} WriteAllOther(m: map<string, Token>, ts: seq<Token>, s: string)
    requires s in m && !HasSymbol(ts, s)
    ensures s in WriteAll(m, ts) && WriteAll(m, ts)[s] == m[s]
  {
    if ts != [] {
      var init := ts[..|ts| - 1];
      assert !HasSymbol(init, s) by {
        forall i | 0 <= i < |init| ensures init[i].symbol != s {
          assert init[i] == ts[i];
        }
      }
      WriteAllOther(m, init, s);
    }
  }

  /** The `tokensMap` literal is the four named tokens written in order. */
  lemma BaseLiteral(base: seq<Token>)
    requires |base| == 4
    ensures WriteAll(map[], base) == map[base[0].symbol := base[0], base[1].symbol := base[1], base[2].symbol := base[2], base[3].symbol := base[3]]
  {
    assert base[..1][..0] == [];
    assert WriteAll(map[], base[..1]) == map[base[0].symbol := base[0]];
    assert base[..2][..1] == base[..1];
    assert WriteAll(map[], base[..2]) == map[base[0].symbol := base[0], base[1].symbol := base[1]];
    assert base[..3][..2] == base[..2];
    assert WriteAll(map[], base[..3]) == map[base[0].symbol := base[0], base[1].symbol := base[1], base[2].symbol := base[2]];
    assert base[..3] == base[..|base| - 1];
  }

  /** The collateral symbols are those of `COLLATERALS`, and the named symbols
      those of the named tokens. */
  lemma CollateralSymbols(config: Config, s: string)
    ensures HasSymbol(Collaterals(config), s) <==> IsCollateralSymbol(config, s)
    ensures HasSymbol(BaseTokens(config), s) <==> s in BaseSymbols(config)
  {
    var cols := Collaterals(config);
    if IsCollateralSymbol(config, s) {
      var i :| 0 <= i < |config.collaterals| && config.collaterals[i].symbol == s;
      assert cols[i].symbol == s;
    }
    if s in BaseSymbols(config) {
      var i :| 0 <= i < 4 && BaseSymbols(config)[i] == s;
      assert BaseTokens(config)[i].symbol == s;
    }
  }

  /** The table of the named tokens with the collateral tokens written over
      them: the properties `TokensBySymbol` promises. */
  lemma TokenTableFacts(config: Config)
    ensures var t := WriteAll(WriteAll(map[], BaseTokens(config)), Collaterals(config));
      forall s :: s in t <==> IsTokenSymbol(config, s)
    ensures var t := WriteAll(WriteAll(map[], BaseTokens(config)), Collaterals(config));
      forall i :: LastWithSymbol(Collaterals(config), i) ==>
        Collaterals(config)[i].symbol in t && t[Collaterals(config)[i].symbol] == Collaterals(config)[i]
    ensures var t := WriteAll(WriteAll(map[], BaseTokens(config)), Collaterals(config));
      forall s :: s in t && !IsCollateralSymbol(config, s) ==>
        s in WriteAll(map[], BaseTokens(config)) && t[s] == WriteAll(map[], BaseTokens(config))[s]
  {
    var base, cols := BaseTokens(config), Collaterals(config);
    var t := WriteAll(WriteAll(map[], base), cols);
    forall s ensures s in t <==> IsTokenSymbol(config, s) {
      WriteAllKeys(map[], base, s);
      WriteAllKeys(WriteAll(map[], base), cols, s);
      CollateralSymbols(config, s);
    }
    forall i | LastWithSymbol(cols, i) ensures cols[i].symbol in t && t[cols[i].symbol] == cols[i] {
      WriteAllLast(WriteAll(map[], base), cols, i);
    }
    forall s | s in t && !IsCollateralSymbol(config, s)
      ensures s in WriteAll(map[], base) && t[s] == WriteAll(map[], base)[s]
    {
      WriteAllKeys(map[], base, s);
      WriteAllKeys(WriteAll(map[], base), cols, s);
      CollateralSymbols(config, s);
      WriteAllOther(WriteAll(map[], base), cols, s);
    }
  }

  /** `TOKENS_BY_SYMBOL`: the four named tokens (a later one wins a shared
      symbol), then every collateral token written over them in order. Its keys
      are exactly the token symbols; a collateral symbol maps to the last
      collateral with that symbol, overriding a named token; any other symbol
      maps to its named token. */
  method TokensBySymbol(config: Config) returns (tokensMap: map<string, Token>)
    ensures forall s :: s in tokensMap <==> IsTokenSymbol(config, s)
    ensures forall i :: LastWithSymbol(Collaterals(config), i) ==>
      Collaterals(config)[i].symbol in tokensMap && tokensMap[Collaterals(config)[i].symbol] == Collaterals(config)[i]
    ensures forall s :: s in tokensMap && !IsCollateralSymbol(config, s) ==>
      s in WriteAll(map[], BaseTokens(config)) && tokensMap[s] == WriteAll(map[], BaseTokens(config))[s]
  {
    var base := BaseTokens(config);
    tokensMap := map[base[0].symbol := base[0], base[1].symbol := base[1], base[2].symbol := base[2], base[3].symbol := base[3]];
    BaseLiteral(base);
    var cols := Collaterals(config);
    for k := 0 to |cols|
      invariant tokensMap == WriteAll(WriteAll(map[], base), cols[..k])
    {
      assert cols[..k + 1][..k] == cols[..k];
      tokensMap := tokensMap[cols[k].symbol := cols[k]];
    }
    assert cols[..|cols|] == cols;
    TokenTableFacts(config);
  }
}
