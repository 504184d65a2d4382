/** The AMM helpers of the token icons (frontend/uikit/src/TokenIcon/utils.ts),
    over the configured collateral list. */
module TokenIconUtils {
  import opened Common
  import opened WhiteLabel

  /** `isAmmCollateral`: the symbol's configured collateral has type "samm" or
      "vamm"; an unknown symbol is not an AMM collateral. */
  function IsAmmCollateral(collaterals: seq<CollateralConfig>, symbol: string): (b: bool)
    ensures b <==> exists i :: FirstWithSymbol(collaterals, symbol, i) && IsAmmKind(collaterals[i].kind)
  {
    var c := FindCollateral(collaterals, symbol);
    c.Some? && IsAmmKind(c.value.kind)
  }

  /** The two tokens of a pool, as the configuration holds them (a cast in
      the source: either may be missing). */
  datatype TokenPair = TokenPair(token1: Option<TokenInfo>, token2: Option<TokenInfo>)

  /** `getAmmTokenPair`: `null` for an unknown symbol or one whose type is not
      an AMM type, so it is present exactly for the AMM collaterals; otherwise
      the configured tokens, unchanged. */
  function GetAmmTokenPair(collaterals: seq<CollateralConfig>, symbol: string): (r: Option<TokenPair>)
    ensures r.Some? <==> IsAmmCollateral(collaterals, symbol)
    ensures r.Some? ==>
      exists i :: FirstWithSymbol(collaterals, symbol, i) && r.value == TokenPair(collaterals[i].token1, collaterals[i].token2)
  {
    var c := FindCollateral(collaterals, symbol);
    if c.None? || c.value.kind.None? || c.value.kind.value == "" || !IsAmmKind(c.value.kind) then None
    else Some(TokenPair(c.value.token1, c.value.token2))
  }
}
