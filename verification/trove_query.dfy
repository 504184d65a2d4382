/** The trove selection of the backend (backend/src/services/trove-query.ts):
    the troves that held collateral at some point of a distribution period,
    fetched as two cursor-paginated queries, and the lookup of collateral ids
    by LP token address.

    The indexed store is modelled by its trove entities in id order (see
    `Paging`); the wire form of an entity is `RawTrove`, whose numbers travel
    as decimal strings. */
module TroveQuery {
  import opened Common
  import opened BackendTypes
  import opened Paging

  // ---------------------------------------------------------------- parsing

  /** A trove as the query returns it; `closedAt` may be `null`. */
  datatype RawTrove = RawTrove(
    id: string,
    borrower: string,
    collateralId: string,
    deposit: string,
    createdAt: string,
    closedAt: Option<string>,
    updatedAt: string,
    status: string)

  /** `BigInt(s)` on an unsigned decimal string; the empty string reads as zero
      and any other character raises. */
  function ParseBigInt(s: string): (r: Result<nat>)
    ensures r.Ok? <==> AllDigits(s)
  {
    if AllDigits(s) then Ok(DigitsValue(s)) else Err("SyntaxError: Cannot convert " + s + " to a BigInt")
  }

  /** `raw.closedAt ? BigInt(raw.closedAt) : null`: `null` and the empty string
      are falsy and give no closing time. */
  function ParseClosedAt(c: Option<string>): (r: Result<Option<nat>>)
    ensures r.Ok? <==> (c.None? || AllDigits(c.value))
    ensures r.Ok? ==> (r.value.None? <==> (c.None? || c.value == ""))
  {
    if c.None? || c.value == "" then Ok(None)
    else
      match ParseBigInt(c.value)
      case Ok(v) => Ok(Some(v))
      case Err(m) => Err(m)
  }

  /** `parseTrove`: strings are copied, numbers are parsed; a malformed number
      raises. */
  function ParseTrove(raw: RawTrove): (r: Result<Trove>)
    ensures r.Ok? <==>
      && AllDigits(raw.deposit) && AllDigits(raw.createdAt) && AllDigits(raw.updatedAt)
      && (raw.closedAt.None? || AllDigits(raw.closedAt.value))
    ensures r.Ok? ==>
      && r.value.id == raw.id
      && r.value.borrower == raw.borrower
      && r.value.collateralId == raw.collateralId
      && r.value.status == raw.status
      && r.value.deposit == DigitsValue(raw.deposit)
      && r.value.createdAt == DigitsValue(raw.createdAt)
      && r.value.updatedAt == DigitsValue(raw.updatedAt)
      && (r.value.closedAt.None? <==> (raw.closedAt.None? || raw.closedAt.value == ""))
  {
    match (ParseBigInt(raw.deposit), ParseBigInt(raw.createdAt), ParseClosedAt(raw.closedAt), ParseBigInt(raw.updatedAt))
    case (Ok(deposit), Ok(createdAt), Ok(closedAt), Ok(updatedAt)) =>
      Ok(Trove(raw.id, raw.borrower, raw.collateralId, deposit, createdAt, closedAt, updatedAt, raw.status))
    case (Err(m), _, _, _) => Err(m)
    case (_, Err(m), _, _) => Err(m)
    case (_, _, Err(m), _) => Err(m)
    case (_, _, _, Err(m)) => Err(m)
  }

  /** The wire form of a trove entity: numbers rendered in decimal. */
  function RenderTrove(t: Trove): RawTrove {
    RawTrove(
      t.id, t.borrower, t.collateralId, NatToString(t.deposit), NatToString(t.createdAt),
      if t.closedAt.None? then None else Some(NatToString(t.closedAt.value)),
      NatToString(t.updatedAt), t.status)
  }

  /** Parsing the wire form of an entity gives the entity back. */
  lemma ParseRenderRoundTrip(t: Trove)
    ensures ParseTrove(RenderTrove(t)) == Ok(t)
  {
    NatToStringRoundTrip(t.deposit);
    NatToStringRoundTrip(t.createdAt);
    NatToStringRoundTrip(t.updatedAt);
    if t.closedAt.Some? {
      NatToStringRoundTrip(t.closedAt.value);
    }
  }

  // ---------------------------------------------------------------- the two queries

  /** The `where` of the active query: status active, one of the collaterals,
      opened before the period ends. */
  predicate InActiveBranch(t: Trove, collateralIds: seq<string>, period: DistributionPeriod) {
    && t.status == "active"
    && t.collateralId in collateralIds
    && t.createdAt < period.endTimestamp
  }

  /** The `where` of the closed query: any other status, one of the collaterals,
      opened before the period ends and closed after it starts (a missing
      `closedAt` never passes `closedAt_gt`). */
  predicate InClosedBranch(t: Trove, collateralIds: seq<string>, period: DistributionPeriod) {
    && t.status != "active"
    && t.collateralId in collateralIds
    && t.createdAt < period.endTimestamp
    && t.closedAt.Some? && t.closedAt.value > period.startTimestamp
  }

  function ActiveFilter(collateralIds: seq<string>, period: DistributionPeriod): Trove -> bool {
    t => InActiveBranch(t, collateralIds, period)
  }

  function ClosedFilter(collateralIds: seq<string>, period: DistributionPeriod): Trove -> bool {
    t => InClosedBranch(t, collateralIds, period)
  }

  /** The rows `getTrovesActiveInPeriod` collects: every active-branch row,
      then every closed-branch row. */
  function Selected(store: seq<Row<Trove>>, collateralIds: seq<string>, period: DistributionPeriod): seq<Row<Trove>> {
    Where(store, ActiveFilter(collateralIds, period)) + Where(store, ClosedFilter(collateralIds, period))
  }

  /** `getTrovesActiveInPeriod`: two page loops, the active query and then the
      closed query, each running until a page shorter than `PageSize`; every
      page is parsed and appended. */
  method GetTrovesActiveInPeriod(store: seq<Row<Trove>>, collateralIds: seq<string>, period: DistributionPeriod)
    returns (allTroves: seq<Trove>)
    requires IdsAscending(store)
    ensures allTroves == Items(Selected(store, collateralIds, period))
  {
    var activeStore := Where(store, ActiveFilter(collateralIds, period));
    WhereAscending(store, ActiveFilter(collateralIds, period));
    var active, _ := FetchAll(activeStore);
    allTroves := ParsePages(active);
    var closedStore := Where(store, ClosedFilter(collateralIds, period));
    WhereAscending(store, ClosedFilter(collateralIds, period));
    var closed, _ := FetchAll(closedStore);
    var closedTroves := ParsePages(closed);
    allTroves := allTroves + closedTroves;
  }

  /** `result.troves.map((t) => this.parseTrove(t))`. The rows arrive as the
      indexer's trove entities; each is rendered to its wire form and parsed
      back, which gives the entity itself (`ParseRenderRoundTrip`). A
      malformed number, which makes `parseTrove` raise, cannot come out of a
      rendered entity; that error path is the `Err` case of `ParseTrove`. */
  method ParsePages(rows: seq<Row<Trove>>) returns (troves: seq<Trove>)
    ensures troves == Items(rows)
  {
    troves := [];
    for i := 0 to |rows|
      invariant troves == Items(rows[..i])
    {
      ParseRenderRoundTrip(rows[i].item);
      var parsed := ParseTrove(RenderTrove(rows[i].item));
      troves := troves + [parsed.value];
    }
    assert rows[..|rows|] == rows;
  }

  /** A row is selected exactly when it is in the store and passes one of the
      two filters. */
  lemma SelectedMembers(store: seq<Row<Trove>>, collateralIds: seq<string>, period: DistributionPeriod)
    ensures forall r :: r in Selected(store, collateralIds, period) <==>
      r in store && (InActiveBranch(r.item, collateralIds, period) || InClosedBranch(r.item, collateralIds, period))
  {
    forall r
      ensures r in Selected(store, collateralIds, period) <==>
        r in store && (InActiveBranch(r.item, collateralIds, period) || InClosedBranch(r.item, collateralIds, period))
    {
      BranchMember(store, collateralIds, period, r);
    }
  }

  lemma BranchMember(store: seq<Row<Trove>>, collateralIds: seq<string>, period: DistributionPeriod, r: Row<Trove>)
    ensures r in Where(store, ActiveFilter(collateralIds, period)) <==> r in store && InActiveBranch(r.item, collateralIds, period)
    ensures r in Where(store, ClosedFilter(collateralIds, period)) <==> r in store && InClosedBranch(r.item, collateralIds, period)
  {
    WhereMembers(store, ActiveFilter(collateralIds, period));
    WhereMembers(store, ClosedFilter(collateralIds, period));
  }

  /** Every selected trove was opened before the period ends. */
  lemma SelectedCreatedBeforeEnd(store: seq<Row<Trove>>, collateralIds: seq<string>, period: DistributionPeriod)
    ensures forall t: Trove :: t in Items(Selected(store, collateralIds, period)) ==> t.createdAt < period.endTimestamp
  {
    var rows := Selected(store, collateralIds, period);
    SelectedMembers(store, collateralIds, period);
    forall t: Trove | t in Items(rows) ensures t.createdAt < period.endTimestamp {
      var i :| 0 <= i < |rows| && Items(rows)[i] == t;
      assert rows[i] in rows;
    }
  }

  /** No trove passes both filters. */
  lemma BranchesDisjoint(t: Trove, collateralIds: seq<string>, period: DistributionPeriod)
    ensures !(InActiveBranch(t, collateralIds, period) && InClosedBranch(t, collateralIds, period))
  {
  }

  /** A store whose distinct rows hold distinct trove ids gives a selection
      with distinct trove ids: the two branches do not overlap. */
  lemma SelectedIdsDistinct(store: seq<Row<Trove>>, collateralIds: seq<string>, period: DistributionPeriod)
    requires IdsAscending(store)
    requires forall i, j :: 0 <= i < j < |store| ==> store[i].item.id != store[j].item.id
    ensures var ts := Items(Selected(store, collateralIds, period));
      forall i, j :: 0 <= i < j < |ts| ==> ts[i].id != ts[j].id
  {
    var a := Where(store, ActiveFilter(collateralIds, period));
    var c := Where(store, ClosedFilter(collateralIds, period));
    WhereAscending(store, ActiveFilter(collateralIds, period));
    WhereAscending(store, ClosedFilter(collateralIds, period));
    WhereMembers(store, ActiveFilter(collateralIds, period));
    WhereMembers(store, ClosedFilter(collateralIds, period));
    var rows := a + c;
    forall i, j | 0 <= i < j < |rows| ensures rows[i].item.id != rows[j].item.id {
      var x, y := rows[i], rows[j];
      assert x in store by { if i < |a| { assert x in a; } else { assert x == c[i - |a|]; assert x in c; } }
      assert y in store by { if j < |a| { assert y in a; } else { assert y == c[j - |a|]; assert y in c; } }
      var p :| 0 <= p < |store| && store[p] == x;
      var q :| 0 <= q < |store| && store[q] == y;
      if j < |a| {
        assert x.id < y.id;
      } else if i >= |a| {
        assert c[i - |a|].id < c[j - |a|].id;
      } else {
        assert x in a && y in c;
        assert x != y by { BranchesDisjoint(x.item, collateralIds, period); }
      }
      assert p != q;
    }
  }

  // ---------------------------------------------------------------- collateral ids

  /** A `CollateralAddresses` entity: the collateral id of an LP token, whose
      address the store keeps as lower-case hex. */
  datatype CollateralAddress = CollateralAddress(collateralId: string, token: string)

  /** The number of entities a query without `first:` returns. */
  const DefaultFirst: nat := 100

  function TokenIn(entries: seq<CollateralAddress>, tokens: seq<string>): seq<CollateralAddress> {
    if entries == [] then []
    else
      var init, e := entries[..|entries| - 1], entries[|entries| - 1];
      TokenIn(init, tokens) + (if e.token in tokens then [e] else [])
  }

  /** `tokenAddresses.map((addr) => addr.toLowerCase())`. */
  function Lowered(tokenAddresses: seq<string>): (r: seq<string>)
    ensures |r| == |tokenAddresses| && forall i :: 0 <= i < |r| ==> r[i] == ToLower(tokenAddresses[i])
  {
    seq(|tokenAddresses|, i requires 0 <= i < |tokenAddresses| => ToLower(tokenAddresses[i]))
  }

  /** The collateral ids of `entries`, in order. */
  function CollateralIds(entries: seq<CollateralAddress>): (r: seq<string>)
    ensures |r| == |entries| && forall i :: 0 <= i < |r| ==> r[i] == entries[i].collateralId
  {
    seq(|entries|, i requires 0 <= i < |entries| => entries[i].collateralId)
  }

  /** `getCollateralIdsForTokens`: the addresses are lower-cased, the store is
      asked for the entities whose token is one of them (at most `DefaultFirst`,
      in id order), and their collateral ids are returned in that order. */
  function CollateralIdsForTokens(entries: seq<CollateralAddress>, tokenAddresses: seq<string>): (ids: seq<string>)
    ensures |ids| <= DefaultFirst
  {
    var matched := TokenIn(entries, Lowered(tokenAddresses));
    CollateralIds(if |matched| <= DefaultFirst then matched else matched[..DefaultFirst])
  }

  lemma {:induction false} TokenInMembers(entries: seq<CollateralAddress>, tokens: seq<string>)
    ensures forall e :: e in TokenIn(entries, tokens) <==> e in entries && e.token in tokens
  {
    if entries != [] {
      var init, last := entries[..|entries| - 1], entries[|entries| - 1];
      TokenInMembers(init, tokens);
      assert entries == init + [last];
      assert forall e :: e in entries <==> e in init || e == last;
    }
  }

  /** The lookup ignores the case of the addresses it is given: an address
      written in upper case, lower case or any mix finds the same entities. */
  lemma CollateralIdsIgnoreCase(entries: seq<CollateralAddress>, tokenAddresses: seq<string>, other: seq<string>)
    requires |other| == |tokenAddresses|
    requires forall i :: 0 <= i < |other| ==> ToLower(other[i]) == ToLower(tokenAddresses[i])
    ensures CollateralIdsForTokens(entries, other) == CollateralIdsForTokens(entries, tokenAddresses)
  {
    assert Lowered(other) == Lowered(tokenAddresses);
  }

  /** With at most `DefaultFirst` matches, the result lists the collateral of
      exactly the entities whose token is one of the lower-cased addresses. */
  lemma CollateralIdsMembers(entries: seq<CollateralAddress>, tokenAddresses: seq<string>)
    requires |TokenIn(entries, Lowered(tokenAddresses))| <= DefaultFirst
    ensures forall id :: id in CollateralIdsForTokens(entries, tokenAddresses) <==>
      exists e :: e in entries && e.token in Lowered(tokenAddresses) && e.collateralId == id
  {
    var matched := TokenIn(entries, Lowered(tokenAddresses));
    TokenInMembers(entries, Lowered(tokenAddresses));
    var ids := CollateralIdsForTokens(entries, tokenAddresses);
    assert ids == CollateralIds(matched);
    forall id | id in ids ensures exists e :: e in entries && e.token in Lowered(tokenAddresses) && e.collateralId == id {
      var k :| 0 <= k < |ids| && ids[k] == id;
      assert matched[k] in matched;
    }
    forall e | e in entries && e.token in Lowered(tokenAddresses) ensures e.collateralId in ids {
      var k :| 0 <= k < |matched| && matched[k] == e;
      assert ids[k] == e.collateralId;
    }
  }
}
