/** Matching LP collaterals to DefiLlama yield pools
    (frontend/app/src/services/LpApy.tsx): which collaterals are LP tokens, how
    token symbols are normalised, the Aerodrome-on-Base pool filter, and the
    choice of the pool whose APY a collateral shows. The pool list is a
    parameter; `apy` and `tvlUsd` are JavaScript numbers. */
module LpApy {
  import opened Common
  import opened WhiteLabel
  import TokenIconUtils

  /** One DefiLlama pool; `chain` may be missing from the feed. */
  datatype Pool = Pool(pool: string, project: string, symbol: string, apy: real, tvlUsd: real, chain: Option<string>)

  // ---------------------------------------------------------------- the pool filter

  /** The pool-list filter: the project names Aerodrome in any case and the
      chain is Base in any case. */
  predicate IsAerodromeBasePool(p: Pool) {
    Contains(ToLower(p.project), "aerodrome") && p.chain.Some? && ToLower(p.chain.value) == "base"
  }

  /** The filter ignores the case the project and chain are written in. */
  lemma AerodromeFilterIgnoresCase(p: Pool)
    ensures IsAerodromeBasePool(p) == IsAerodromeBasePool(p.(project := ToUpper(p.project)))
    ensures p.chain.Some? ==> IsAerodromeBasePool(p) == IsAerodromeBasePool(p.(chain := Some(ToUpper(p.chain.value))))
  {
    ToLowerOfUpper(p.project);
    if p.chain.Some? {
      ToLowerOfUpper(p.chain.value);
    }
  }

  /** The Aerodrome pools on Base, in feed order. */
  function AerodromePools(pools: seq<Pool>): (r: seq<Pool>)
    ensures |r| <= |pools|
    ensures forall p :: p in r <==> p in pools && IsAerodromeBasePool(p)
  {
    if pools == [] then []
    else (if IsAerodromeBasePool(pools[0]) then [pools[0]] else []) + AerodromePools(pools[1..])
  }

  // ---------------------------------------------------------------- LP tokens

  /** `isLpToken`: the symbol's configuration exists and its type is "samm" or
      "vamm"; it agrees with the token icons' `isAmmCollateral`. */
  function IsLpToken(collaterals: seq<CollateralConfig>, symbol: string): (b: bool)
    ensures b <==> exists i :: FirstWithSymbol(collaterals, symbol, i) && IsAmmKind(collaterals[i].kind)
    ensures b == TokenIconUtils.IsAmmCollateral(collaterals, symbol)
  {
    var config := FindCollateral(collaterals, symbol);
    if config.None? then false
    else config.value.kind.Some? && (config.value.kind.value == "samm" || config.value.kind.value == "vamm")
  }

  // ---------------------------------------------------------------- symbols

  /** `normalizeSymbol`: upper-case, then drop one leading "W" (WETH matches
      ETH); the two replacements that follow map a string to itself. */
  function NormalizeSymbol(symbol: string): (r: string)
    ensures |r| == |symbol| || |r| == |symbol| - 1
    ensures r == ToUpper(symbol)[|symbol| - |r|..]
    ensures |r| < |symbol| <==> |symbol| > 0 && UpperChar(symbol[0]) == 'W'
  {
    var u := ToUpper(symbol);
    if |u| > 0 && u[0] == 'W' then u[1..] else u
  }

  /** Normalising ignores the case the symbol is written in. */
  lemma NormalizeIgnoresCase(symbol: string)
    ensures NormalizeSymbol(ToLower(symbol)) == NormalizeSymbol(symbol)
    ensures NormalizeSymbol(ToUpper(symbol)) == NormalizeSymbol(symbol)
  {
    ToUpperOfLower(symbol);
    ToUpperIdempotent(symbol);
  }

  /** `s.split(d)`: the pieces between the separators, at least one. */
  function Split(s: string, d: char): (parts: seq<string>)
    ensures |parts| >= 1
    ensures forall k :: 0 <= k < |parts| ==> d !in parts[k]
  {
    if s == [] then [""]
    else
      var rest := Split(s[1..], d);
      if s[0] == d then [""] + rest
      else [[s[0]] + rest[0]] + rest[1..]
  }

  /** The pieces joined back with the separator. */
  function Join(parts: seq<string>, d: char): string
    requires |parts| >= 1
  {
    if |parts| == 1 then parts[0] else parts[0] + [d] + Join(parts[1..], d)
  }

  /** Splitting loses nothing: joining the pieces gives the string back. */
  lemma {:induction false} JoinSplit(s: string, d: char)
    ensures Join(Split(s, d), d) == s
  {
    if s != [] {
      var rest := Split(s[1..], d);
      JoinSplit(s[1..], d);
      if s[0] == d {
        assert Split(s, d) == [""] + rest;
        assert Split(s, d)[1..] == rest;
      } else {
        var parts := Split(s, d);
        assert parts == [[s[0]] + rest[0]] + rest[1..];
        if |rest| == 1 {
          assert Join(parts, d) == [s[0]] + rest[0];
        } else {
          assert parts[1..] == rest[1..];
          assert Join(rest, d) == rest[0] + [d] + Join(rest[1..], d);
          assert Join(parts, d) == [s[0]] + rest[0] + [d] + Join(rest[1..], d);
        }
      }
    }
  }

  /** The first two normalised "-"-separated tokens of a pool symbol; absent
      when the symbol has no "-" (the second token is then `undefined`, which
      equals no token). */
  function PoolTokens(poolSymbol: string): (r: Option<(string, string)>)
    ensures r.None? <==> '-' !in poolSymbol
  {
    var parts := Split(ToUpper(poolSymbol), '-');
    JoinSplit(ToUpper(poolSymbol), '-');
    if |parts| < 2 then
      assert parts == [parts[0]];
      assert '-' !in ToUpper(poolSymbol);
      assert '-' !in poolSymbol by {
        forall k | 0 <= k < |poolSymbol| ensures poolSymbol[k] != '-' {
          assert ToUpper(poolSymbol)[k] != '-';
        }
      }
      None
    else
      assert '-' in ToUpper(poolSymbol) by {
        assert ToUpper(poolSymbol) == parts[0] + ['-'] + Join(parts[1..], '-');
        assert ToUpper(poolSymbol)[|parts[0]|] == '-';
      }
      assert '-' in poolSymbol by {
        var k :| 0 <= k < |poolSymbol| && ToUpper(poolSymbol)[k] == '-';
        assert poolSymbol[k] == '-';
      }
      Some((NormalizeSymbol(parts[0]), NormalizeSymbol(parts[1])))
  }

  /** The pool's two tokens are the pair, in either order. */
  predicate PoolMatches(poolSymbol: string, token1: string, token2: string) {
    var t := PoolTokens(poolSymbol);
    t.Some? && ((t.value.0 == token1 && t.value.1 == token2) || (t.value.0 == token2 && t.value.1 == token1))
  }

  /** Matching does not depend on the order of the pair. */
  lemma PoolMatchesSymmetric(poolSymbol: string, token1: string, token2: string)
    ensures PoolMatches(poolSymbol, token1, token2) == PoolMatches(poolSymbol, token2, token1)
  {
  }

  // ---------------------------------------------------------------- pool choice

  /** The normalised symbols of a configuration's two tokens. */
  function NormalizedPair(c: CollateralConfig): (string, string)
    requires c.token1.Some? && c.token2.Some?
  {
    (NormalizeSymbol(c.token1.value.symbol), NormalizeSymbol(c.token2.value.symbol))
  }

  /** The normalised token pair of the symbol's configuration: absent when the
      configuration or either token is missing. */
  function ConfigPair(collaterals: seq<CollateralConfig>, symbol: string): (r: Option<(string, string)>)
    ensures r.Some? <==> exists i :: FirstWithSymbol(collaterals, symbol, i) && collaterals[i].token1.Some? && collaterals[i].token2.Some?
    ensures r.Some? ==> exists i :: FirstWithSymbol(collaterals, symbol, i) && r.value == NormalizedPair(collaterals[i])
  {
    var config := FindCollateral(collaterals, symbol);
    if config.None? || config.value.token1.None? || config.value.token2.None? then None
    else Some(NormalizedPair(config.value))
  }

  /** The pools matching the pair, in feed order. */
  function Matching(pools: seq<Pool>, token1: string, token2: string): (r: seq<Pool>)
    ensures |r| <= |pools|
    ensures forall p :: p in r <==> p in pools && PoolMatches(p.symbol, token1, token2)
  {
    if pools == [] then []
    else (if PoolMatches(pools[0].symbol, token1, token2) then [pools[0]] else []) + Matching(pools[1..], token1, token2)
  }

  /** The first pool of the project, if any. */
  function FindProject(pools: seq<Pool>, project: string): (r: Option<Pool>)
    ensures r.None? <==> forall k :: 0 <= k < |pools| ==> pools[k].project != project
    ensures r.Some? ==> exists k :: FirstOfProject(pools, project, k) && pools[k] == r.value
  {
    if pools == [] then None
    else if pools[0].project == project then
      assert FirstOfProject(pools, project, 0);
      Some(pools[0])
    else
      var r := FindProject(pools[1..], project);
      if r.Some? then
        var k :| FirstOfProject(pools[1..], project, k) && pools[1..][k] == r.value;
        assert FirstOfProject(pools, project, k + 1);
        r
      else r
  }

  /** Entry `k` is the first pool of the project. */
  predicate FirstOfProject(pools: seq<Pool>, project: string, k: int) {
    && 0 <= k < |pools| && pools[k].project == project
    && forall j :: 0 <= j < k ==> pools[j].project != project
  }

  /** Entry `k` has the largest TVL and every earlier entry a smaller one. */
  predicate FirstMaxTvl(pools: seq<Pool>, k: int) {
    && 0 <= k < |pools|
    && (forall j :: 0 <= j < |pools| ==> pools[j].tvlUsd <= pools[k].tvlUsd)
    && (forall j :: 0 <= j < k ==> pools[j].tvlUsd < pools[k].tvlUsd)
  }

  /** `reduce((best, current) => current.tvlUsd > best.tvlUsd ? current : best)`
      over a non-empty list. */
  function MaxTvl(pools: seq<Pool>): Pool
    requires |pools| > 0
  {
    if |pools| == 1 then pools[0]
    else
      var best := MaxTvl(pools[..|pools| - 1]);
      var current := pools[|pools| - 1];
      if current.tvlUsd > best.tvlUsd then current else best
  }

  /** The reduction picks a pool of largest TVL, the earliest one on a tie. */
  lemma {:induction false} MaxTvlIndex(pools: seq<Pool>) returns (k: int)
    requires |pools| > 0
    ensures FirstMaxTvl(pools, k) && pools[k] == MaxTvl(pools)
  {
    if |pools| == 1 {
      k := 0;
    } else {
      var init := pools[..|pools| - 1];
      var best, current := MaxTvl(init), pools[|pools| - 1];
      k := MaxTvlIndex(init);
      if current.tvlUsd > best.tvlUsd {
        forall j | 0 <= j < |pools| - 1 ensures pools[j].tvlUsd < current.tvlUsd {
          assert pools[j] == init[j];
        }
        k := |pools| - 1;
      } else {
        assert pools[k] == init[k];
        forall j | 0 <= j < |pools| ensures pools[j].tvlUsd <= best.tvlUsd {
          if j < |init| {
            assert pools[j] == init[j];
          }
        }
        forall j | 0 <= j < k ensures pools[j].tvlUsd < best.tvlUsd {
          assert pools[j] == init[j];
        }
      }
    }
  }

  lemma MaxTvlIsFirstMax(pools: seq<Pool>)
    requires |pools| > 0
    ensures exists k :: FirstMaxTvl(pools, k) && pools[k] == MaxTvl(pools)
  {
    var k := MaxTvlIndex(pools);
  }

  /** The pool picked among the matching ones: with the "samm" preference,
      the first "aerodrome-v1" pool when there is one, else the first pool of
      largest TVL. */
  function ChoosePool(matching: seq<Pool>, samm: bool): (r: Pool)
    requires |matching| > 0
    ensures r in matching
    ensures samm && FindProject(matching, "aerodrome-v1").Some? ==>
      exists k :: FirstOfProject(matching, "aerodrome-v1", k) && matching[k] == r
    ensures !(samm && FindProject(matching, "aerodrome-v1").Some?) ==>
      exists k :: FirstMaxTvl(matching, k) && matching[k] == r
  {
    var preferred := if samm then FindProject(matching, "aerodrome-v1") else None;
    if preferred.Some? then preferred.value
    else
      MaxTvlIsFirstMax(matching);
      MaxTvl(matching)
  }

  /** No pool of the list matches the pair. */
  predicate NoneMatch(pools: seq<Pool>, pair: (string, string)) {
    forall p :: p in pools ==> !PoolMatches(p.symbol, pair.0, pair.1)
  }

  /** `findMatchingPool`. Absent when the configuration or either token is
      missing, or when no pool matches the normalised pair. Otherwise the pool
      `ChoosePool` picks among the matching pools, in feed order. */
  function FindMatchingPool(collaterals: seq<CollateralConfig>, symbol: string, pools: seq<Pool>): (r: Option<Pool>)
    ensures r.None? <==> (ConfigPair(collaterals, symbol).None? || NoneMatch(pools, ConfigPair(collaterals, symbol).value))
    ensures r.Some? ==> r.value in pools
    ensures r.Some? ==> r.value == ChoosePool(
      Matching(pools, ConfigPair(collaterals, symbol).value.0, ConfigPair(collaterals, symbol).value.1),
      IsSamm(collaterals, symbol))
  {
    var pair := ConfigPair(collaterals, symbol);
    if pair.None? then None
    else
      var matching := Matching(pools, pair.value.0, pair.value.1);
      if matching == [] then
        assert NoneMatch(pools, pair.value) by {
          forall p | p in pools ensures !PoolMatches(p.symbol, pair.value.0, pair.value.1) {
            assert p !in matching;
          }
        }
        None
      else
        assert matching[0] in matching;
        Some(ChoosePool(matching, IsSamm(collaterals, symbol)))
  }

  /** The configuration's type is "samm", so "aerodrome-v1" pools are preferred. */
  predicate IsSamm(collaterals: seq<CollateralConfig>, symbol: string) {
    var config := FindCollateral(collaterals, symbol);
    config.Some? && config.value.kind == Some("samm")
  }
}
