/** The parts of the white-label configuration the frontend helpers read: the
    named tokens and the collateral list. The configuration is a parameter of
    every helper, so the helpers hold for any fork's configuration. */
module WhiteLabel {
  import opened Common

  datatype TokenInfo = TokenInfo(symbol: string, name: string)

  /** A deployment of a collateral on one chain; only the gauge is read. */
  datatype Deployment = Deployment(gauge: Option<string>)

  /** One entry of the collateral list. `kind` is the optional `type` field
      ("samm", "vamm" or absent); `token1` and `token2` are present on LP
      collaterals; `deployments` is keyed by chain id; `maxLTV` and
      `collateralRatio` are JavaScript numbers. */
  datatype CollateralConfig = CollateralConfig(
    symbol: string,
    name: string,
    maxLTV: real,
    collateralRatio: real,
    kind: Option<string>,
    token1: Option<TokenInfo>,
    token2: Option<TokenInfo>,
    deployments: map<nat, Deployment>)

  datatype Config = Config(
    mainToken: TokenInfo,
    governanceToken: TokenInfo,
    lusd: TokenInfo,
    staked: TokenInfo,
    collaterals: seq<CollateralConfig>)

  /** Entry `i` is the first entry with the symbol. */
  predicate FirstWithSymbol(collaterals: seq<CollateralConfig>, symbol: string, i: int) {
    && 0 <= i < |collaterals| && collaterals[i].symbol == symbol
    && forall j :: 0 <= j < i ==> collaterals[j].symbol != symbol
  }

  /** `collaterals.find((c) => c.symbol === symbol)`: the first entry with the
      symbol, if any. */
  function FindCollateral(collaterals: seq<CollateralConfig>, symbol: string): (r: Option<CollateralConfig>)
    ensures r.None? <==> forall i :: 0 <= i < |collaterals| ==> collaterals[i].symbol != symbol
    ensures r.Some? ==> exists i :: FirstWithSymbol(collaterals, symbol, i) && collaterals[i] == r.value
  {
    if collaterals == [] then None
    else if collaterals[0].symbol == symbol then Some(collaterals[0])
    else
      var r := FindCollateral(collaterals[1..], symbol);
      if r.Some? then
        var i :| FirstWithSymbol(collaterals[1..], symbol, i) && collaterals[1..][i] == r.value;
        assert FirstWithSymbol(collaterals, symbol, i + 1);
        r
      else r
  }

  /** A collateral whose `type` is one of the two Aerodrome pool kinds. */
  predicate IsAmmKind(kind: Option<string>) {
    kind == Some("samm") || kind == Some("vamm")
  }
}
