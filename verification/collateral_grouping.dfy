/** The grouping of collaterals for the token pickers
    (frontend/uikit/src/TokenIcon/collateral-grouping.ts): single assets,
    stable pairs and volatile pairs, each sorted by maximum LTV and name, with
    empty groups dropped. */
module CollateralGrouping {
  import opened Common
  import opened WhiteLabel
  import StableSort

  /** An entry of a group. */
  datatype Item = Item(symbol: string, name: string, maxLTV: real)

  datatype Group = Group(title: string, collaterals: seq<Item>)

  /** The three groups, in the order they are listed. */
  datatype Class = Single | Stable | Volatile

  function Title(k: Class): string {
    match k
    case Single => "Single Assets"
    case Stable => "Stable Pairs"
    case Volatile => "Volatile Pairs"
  }

  function ItemOf(c: CollateralConfig): Item {
    Item(c.symbol, c.name, c.maxLTV)
  }

  // ---------------------------------------------------------------- classification

  /** An AMM collateral by its type or by the pattern of its symbol. */
  predicate IsAmm(c: CollateralConfig) {
    c.kind == Some("samm") || c.kind == Some("vamm") || Contains(c.symbol, "SAMM_") || Contains(c.symbol, "VAMM_")
  }

  /** The group a collateral goes to: non-AMM collaterals are single assets; an
      AMM collateral of type "samm" or with "SAMM_" in its symbol is a stable
      pair; any other AMM collateral is a volatile pair. */
  function ClassOf(c: CollateralConfig): (k: Class)
    ensures k == Single <==> !IsAmm(c)
    ensures k == Stable <==> IsAmm(c) && (c.kind == Some("samm") || Contains(c.symbol, "SAMM_"))
    ensures k == Volatile <==> IsAmm(c) && c.kind != Some("samm") && !Contains(c.symbol, "SAMM_")
  {
    if !IsAmm(c) then Single
    else if c.kind == Some("samm") || Contains(c.symbol, "SAMM_") then Stable
    else Volatile
  }

  /** The entries of the collaterals of one group, in configuration order. */
  function ItemsOf(collaterals: seq<CollateralConfig>, k: Class): (r: seq<Item>)
    ensures |r| <= |collaterals|
  {
    if collaterals == [] then []
    else
      var last := collaterals[|collaterals| - 1];
      ItemsOf(collaterals[..|collaterals| - 1], k) + (if ClassOf(last) == k then [ItemOf(last)] else [])
  }

  /** The entries of all collaterals, in configuration order. */
  function AllItems(collaterals: seq<CollateralConfig>): (r: seq<Item>)
    ensures |r| == |collaterals| && forall i :: 0 <= i < |r| ==> r[i] == ItemOf(collaterals[i])
  {
    seq(|collaterals|, i requires 0 <= i < |collaterals| => ItemOf(collaterals[i]))
  }

  /** Every collateral lands in exactly one group: the three groups together
      hold the entries of all collaterals, each once. */
  lemma {:induction false} GroupsPartition(collaterals: seq<CollateralConfig>)
    ensures multiset(ItemsOf(collaterals, Single)) + multiset(ItemsOf(collaterals, Stable)) + multiset(ItemsOf(collaterals, Volatile))
      == multiset(AllItems(collaterals))
  {
    if collaterals != [] {
      var init, last := collaterals[..|collaterals| - 1], collaterals[|collaterals| - 1];
      GroupsPartition(init);
      AllItemsStep(collaterals);
      ItemsOfStep(collaterals, Single);
      ItemsOfStep(collaterals, Stable);
      ItemsOfStep(collaterals, Volatile);
    }
  }

  lemma AllItemsStep(collaterals: seq<CollateralConfig>)
    requires collaterals != []
    ensures multiset(AllItems(collaterals))
      == multiset(AllItems(collaterals[..|collaterals| - 1])) + multiset{ItemOf(collaterals[|collaterals| - 1])}
  {
    assert AllItems(collaterals) == AllItems(collaterals[..|collaterals| - 1]) + [ItemOf(collaterals[|collaterals| - 1])];
  }

  lemma ItemsOfStep(collaterals: seq<CollateralConfig>, k: Class)
    requires collaterals != []
    ensures var last := collaterals[|collaterals| - 1];
      multiset(ItemsOf(collaterals, k))
      == multiset(ItemsOf(collaterals[..|collaterals| - 1], k)) + (if ClassOf(last) == k then multiset{ItemOf(last)} else multiset{})
  {
  }

  // ---------------------------------------------------------------- ordering

  /** `a.localeCompare(b) <= 0`, taken as the order of character codes. */
  predicate NameLe(a: string, b: string) {
    a == [] || (b != [] && (a[0] < b[0] || (a[0] == b[0] && NameLe(a[1..], b[1..]))))
  }

  lemma {:induction false} NameLeTotal(a: string, b: string)
    ensures NameLe(a, b) || NameLe(b, a)
  {
    if a != [] && b != [] && a[0] == b[0] {
      NameLeTotal(a[1..], b[1..]);
    }
  }

  lemma {:induction false} NameLeTransitive(a: string, b: string, c: string)
    requires NameLe(a, b) && NameLe(b, c)
    ensures NameLe(a, c)
  {
    if a != [] && b != [] && c != [] && a[0] == b[0] && b[0] == c[0] {
      NameLeTransitive(a[1..], b[1..], c[1..]);
    }
  }

  /** Two names each at most the other are the same name. */
  lemma {:induction false} NameLeAntisymmetric(a: string, b: string)
    requires NameLe(a, b) && NameLe(b, a)
    ensures a == b
  {
    if a != [] && b != [] {
      NameLeAntisymmetric(a[1..], b[1..]);
    }
  }

  /** The comparator of `sortGroup` does not put `b` before `a`: a larger
      maximum LTV first, then the name in ascending order. */
  predicate ItemLe(a: Item, b: Item) {
    a.maxLTV > b.maxLTV || (a.maxLTV == b.maxLTV && NameLe(a.name, b.name))
  }

  lemma ItemLeIsTotalPreorder()
    ensures StableSort.TotalPreorder(ItemLe)
  {
    forall a: Item, b: Item ensures ItemLe(a, b) || ItemLe(b, a) {
      NameLeTotal(a.name, b.name);
    }
    forall a: Item, b: Item, c: Item | ItemLe(a, b) && ItemLe(b, c) ensures ItemLe(a, c) {
      if a.maxLTV == b.maxLTV == c.maxLTV {
        NameLeTransitive(a.name, b.name, c.name);
      }
    }
  }

  /** `sortGroup`: the group sorted under the stable `Array.prototype.sort`. */
  function SortGroup(items: seq<Item>): seq<Item> {
    StableSort.Sort(items, ItemLe)
  }

  /** A sorted group lists larger maximum LTVs first, and equal ones by name;
      it holds the same entries, and entries the comparator ties (same LTV and
      name) keep their order. */
  lemma SortGroupFacts(items: seq<Item>)
    ensures var r := SortGroup(items);
      forall i, j :: 0 <= i < j < |r| ==> r[i].maxLTV >= r[j].maxLTV
    ensures var r := SortGroup(items);
      forall i, j :: 0 <= i < j < |r| && r[i].maxLTV == r[j].maxLTV ==> NameLe(r[i].name, r[j].name)
    ensures multiset(SortGroup(items)) == multiset(items)
    ensures forall t :: StableSort.TiedWith(SortGroup(items), t, ItemLe) == StableSort.TiedWith(items, t, ItemLe)
  {
    ItemLeIsTotalPreorder();
    StableSort.SortFacts(items, ItemLe);
  }

  // ---------------------------------------------------------------- the groups

  /** The three groups in order, each sorted. */
  function AllGroups(collaterals: seq<CollateralConfig>): seq<Group> {
    [ Group(Title(Single), SortGroup(ItemsOf(collaterals, Single))),
      Group(Title(Stable), SortGroup(ItemsOf(collaterals, Stable))),
      Group(Title(Volatile), SortGroup(ItemsOf(collaterals, Volatile))) ]
  }

  /** `.filter(group => group.collaterals.length > 0)`. */
  function NonEmpty(groups: seq<Group>): (r: seq<Group>)
    ensures forall g :: g in r <==> g in groups && |g.collaterals| > 0
  {
    if groups == [] then []
    else (if |groups[0].collaterals| > 0 then [groups[0]] else []) + NonEmpty(groups[1..])
  }

  /** `groupCollaterals`: each collateral pushed to its group's list in
      configuration order, then the non-empty groups, each sorted, in the
      order single, stable, volatile. */
  method GroupCollaterals(collaterals: seq<CollateralConfig>) returns (groups: seq<Group>)
    ensures groups == NonEmpty(AllGroups(collaterals))
    ensures forall g :: g in groups ==> |g.collaterals| > 0
  {
    var singleAssets, stablePairs, volatilePairs := [], [], [];
    for i := 0 to |collaterals|
      invariant singleAssets == ItemsOf(collaterals[..i], Single)
      invariant stablePairs == ItemsOf(collaterals[..i], Stable)
      invariant volatilePairs == ItemsOf(collaterals[..i], Volatile)
    {
      var collateral := collaterals[i];
      assert collaterals[..i + 1][..i] == collaterals[..i];
      var item := Item(collateral.symbol, collateral.name, collateral.maxLTV);
      var isAmm := collateral.kind == Some("samm") || collateral.kind == Some("vamm")
        || Contains(collateral.symbol, "SAMM_") || Contains(collateral.symbol, "VAMM_");
      if !isAmm {
        singleAssets := singleAssets + [item];
      } else if collateral.kind == Some("samm") || Contains(collateral.symbol, "SAMM_") {
        stablePairs := stablePairs + [item];
      } else {
        volatilePairs := volatilePairs + [item];
      }
    }
    assert collaterals[..|collaterals|] == collaterals;
    groups := NonEmpty([
      Group("Single Assets", SortGroup(singleAssets)),
      Group("Stable Pairs", SortGroup(stablePairs)),
      Group("Volatile Pairs", SortGroup(volatilePairs))]);
  }

  /** A group is listed exactly when some collateral belongs to it. */
  lemma GroupListedIff(collaterals: seq<CollateralConfig>, k: Class)
    ensures Group(Title(k), SortGroup(ItemsOf(collaterals, k))) in NonEmpty(AllGroups(collaterals))
      <==> exists i :: 0 <= i < |collaterals| && ClassOf(collaterals[i]) == k
  {
    var items := ItemsOf(collaterals, k);
    ItemsOfNonEmpty(collaterals, k);
    SortGroupFacts(items);
    assert |SortGroup(items)| == |items| by {
      assert |multiset(SortGroup(items))| == |multiset(items)|;
    }
    assert Group(Title(k), SortGroup(items)) in AllGroups(collaterals) by {
      match k
      case Single => assert AllGroups(collaterals)[0] == Group(Title(k), SortGroup(items));
      case Stable => assert AllGroups(collaterals)[1] == Group(Title(k), SortGroup(items));
      case Volatile => assert AllGroups(collaterals)[2] == Group(Title(k), SortGroup(items));
    }
  }

  /** The sorted group of a class holds the entry of every collateral of
      that class. */
  lemma GroupHoldsItems(collaterals: seq<CollateralConfig>, k: Class)
    ensures forall i :: 0 <= i < |collaterals| && ClassOf(collaterals[i]) == k ==>
      ItemOf(collaterals[i]) in SortGroup(ItemsOf(collaterals, k))
  {
    SortGroupFacts(ItemsOf(collaterals, k));
    forall i | 0 <= i < |collaterals| && ClassOf(collaterals[i]) == k
      ensures ItemOf(collaterals[i]) in SortGroup(ItemsOf(collaterals, k))
    {
      ItemsOfMember(collaterals, k, i);
      assert ItemOf(collaterals[i]) in multiset(ItemsOf(collaterals, k));
    }
  }

  /** A group has entries exactly when some collateral belongs to it. */
  lemma {:induction false} ItemsOfNonEmpty(collaterals: seq<CollateralConfig>, k: Class)
    ensures |ItemsOf(collaterals, k)| > 0 <==> exists i :: 0 <= i < |collaterals| && ClassOf(collaterals[i]) == k
  {
    if collaterals != [] {
      var init := collaterals[..|collaterals| - 1];
      ItemsOfNonEmpty(init, k);
      if exists i :: 0 <= i < |init| && ClassOf(init[i]) == k {
        var i :| 0 <= i < |init| && ClassOf(init[i]) == k;
        assert collaterals[i] == init[i];
      }
      if exists i :: 0 <= i < |collaterals| && ClassOf(collaterals[i]) == k {
        var i :| 0 <= i < |collaterals| && ClassOf(collaterals[i]) == k;
        if i < |init| {
          assert init[i] == collaterals[i];
        }
      }
    }
  }

  /** The entry of a collateral is in its group. */
  lemma {:induction false} ItemsOfMember(collaterals: seq<CollateralConfig>, k: Class, i: int)
    requires 0 <= i < |collaterals| && ClassOf(collaterals[i]) == k
    ensures ItemOf(collaterals[i]) in ItemsOf(collaterals, k)
  {
    var init := collaterals[..|collaterals| - 1];
    if i < |init| {
      assert collaterals[i] == init[i];
      ItemsOfMember(init, k, i);
    }
  }
}
