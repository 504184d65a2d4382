/** The stable sort that JavaScript's `Array.prototype.sort` performs, for a
    comparator that induces a total preorder `le` (`le(a, b)` when the
    comparator does not put `b` strictly before `a`). Written as insertion sort;
    its result is sorted, a permutation of the input, and keeps the input order
    of the elements the comparator ties. */
module StableSort {

  ghost predicate TotalPreorder<T(!new)>(le: (T, T) -> bool) {
    && (forall a, b :: le(a, b) || le(b, a))
    && (forall a, b, c :: le(a, b) && le(b, c) ==> le(a, c))
  }

  predicate Sorted<T>(s: seq<T>, le: (T, T) -> bool) {
    forall i, j :: 0 <= i < j < |s| ==> le(s[i], s[j])
  }

  predicate Tied<T>(a: T, b: T, le: (T, T) -> bool) {
    le(a, b) && le(b, a)
  }

  /** The elements of `s` the comparator ties with `t`, in order. */
  function TiedWith<T>(s: seq<T>, t: T, le: (T, T) -> bool): seq<T> {
    if s == [] then []
    else (if Tied(s[0], t, le) then [s[0]] else []) + TiedWith(s[1..], t, le)
  }

  /** Insert `x` after every element that is not strictly greater. */
  function Insert<T>(x: T, s: seq<T>, le: (T, T) -> bool): seq<T> {
    if s == [] then [x]
    else if le(s[0], x) then [s[0]] + Insert(x, s[1..], le)
    else [x] + s
  }

  function Sort<T>(s: seq<T>, le: (T, T) -> bool): seq<T> {
    if s == [] then [] else Insert(s[|s| - 1], Sort(s[..|s| - 1], le), le)
  }

  lemma {:induction false} TiedWithAppend<T>(a: seq<T>, b: seq<T>, t: T, le: (T, T) -> bool)
    ensures TiedWith(a + b, t, le) == TiedWith(a, t, le) + TiedWith(b, t, le)
  {
    if a == [] {
      assert a + b == b;
    } else {
      var h := if Tied(a[0], t, le) then [a[0]] else [];
      assert (a + b)[0] == a[0];
      assert (a + b)[1..] == a[1..] + b;
      TiedWithAppend(a[1..], b, t, le);
      calc {
        TiedWith(a + b, t, le);
        h + TiedWith(a[1..] + b, t, le);
        h + (TiedWith(a[1..], t, le) + TiedWith(b, t, le));
        (h + TiedWith(a[1..], t, le)) + TiedWith(b, t, le);
      }
    }
  }

  lemma {:induction false} TiedWithNone<T>(s: seq<T>, t: T, le: (T, T) -> bool)
    requires forall i :: 0 <= i < |s| ==> !Tied(s[i], t, le)
    ensures TiedWith(s, t, le) == []
  {
    if s != [] {
      TiedWithNone(s[1..], t, le);
    }
  }

  lemma {:induction false} InsertPermutes<T>(x: T, s: seq<T>, le: (T, T) -> bool)
    ensures multiset(Insert(x, s, le)) == multiset(s) + multiset{x}
  {
    if s != [] && le(s[0], x) {
      InsertPermutes(x, s[1..], le);
      assert s == [s[0]] + s[1..];
    }
  }

  lemma {:induction false} InsertSorted<T(!new)>(x: T, s: seq<T>, le: (T, T) -> bool)
    requires TotalPreorder(le)
    requires Sorted(s, le)
    ensures Sorted(Insert(x, s, le), le)
  {
    if s == [] {
    } else if le(s[0], x) {
      InsertSorted(x, s[1..], le);
      InsertPermutes(x, s[1..], le);
      var r := Insert(x, s[1..], le);
      assert Insert(x, s, le) == [s[0]] + r;
      forall k | 0 <= k < |r| ensures le(s[0], r[k]) {
        assert r[k] in multiset(r);
        if r[k] != x {
          assert r[k] in s[1..];
        }
      }
    } else {
      assert le(x, s[0]);
      forall i | 0 <= i < |s| ensures le(x, s[i]) {
        assert i == 0 || le(s[0], s[i]);
      }
    }
  }

  lemma {:induction false} InsertTied<T(!new)>(x: T, s: seq<T>, t: T, le: (T, T) -> bool)
    requires TotalPreorder(le)
    requires Sorted(s, le)
    ensures TiedWith(Insert(x, s, le), t, le)
            == TiedWith(s, t, le) + (if Tied(x, t, le) then [x] else [])
  {
    var tx := if Tied(x, t, le) then [x] else [];
    if s == [] {
      assert [x][1..] == [];
      assert TiedWith(Insert(x, s, le), t, le) == tx + TiedWith([], t, le);
    } else if le(s[0], x) {
      InsertTied(x, s[1..], t, le);
      var r := Insert(x, s[1..], le);
      var t0 := if Tied(s[0], t, le) then [s[0]] else [];
      assert Insert(x, s, le) == [s[0]] + r;
      assert ([s[0]] + r)[1..] == r;
      calc {
        TiedWith([s[0]] + r, t, le);
        t0 + TiedWith(r, t, le);
        t0 + (TiedWith(s[1..], t, le) + tx);
        (t0 + TiedWith(s[1..], t, le)) + tx;
      }
    } else {
      assert Insert(x, s, le) == [x] + s;
      assert ([x] + s)[1..] == s;
      assert TiedWith([x] + s, t, le) == tx + TiedWith(s, t, le);
      if Tied(x, t, le) {
        forall i | 0 <= i < |s| ensures !Tied(s[i], t, le) {
          assert i == 0 || le(s[0], s[i]);
        }
        TiedWithNone(s, t, le);
      }
    }
  }

  lemma {:induction false} SortPermutes<T>(s: seq<T>, le: (T, T) -> bool)
    ensures multiset(Sort(s, le)) == multiset(s)
  {
    if s != [] {
      var init, x := s[..|s| - 1], s[|s| - 1];
      assert multiset(Sort(init, le)) == multiset(init) by {
        SortPermutes(init, le);
      }
      assert multiset(Insert(x, Sort(init, le), le)) == multiset(Sort(init, le)) + multiset{x} by {
        InsertPermutes(x, Sort(init, le), le);
      }
      assert multiset(s) == multiset(init) + multiset{x} by {
        assert s == init + [x];
      }
    }
  }

  lemma {:induction false} SortSorted<T(!new)>(s: seq<T>, le: (T, T) -> bool)
    requires TotalPreorder(le)
    ensures Sorted(Sort(s, le), le)
  {
    if s != [] {
      var init := s[..|s| - 1];
      SortSorted(init, le);
      InsertSorted(s[|s| - 1], Sort(init, le), le);
    }
  }

  lemma {:induction false} SortStable<T(!new)>(s: seq<T>, t: T, le: (T, T) -> bool)
    requires TotalPreorder(le)
    ensures TiedWith(Sort(s, le), t, le) == TiedWith(s, t, le)
  {
    if s != [] {
      var init, x := s[..|s| - 1], s[|s| - 1];
      var tx := if Tied(x, t, le) then [x] else [];
      SortStable(init, t, le);
      SortSorted(init, le);
      InsertTied(x, Sort(init, le), t, le);
      TiedWithAppend(init, [x], t, le);
      assert [x][1..] == [];
      assert TiedWith([x], t, le) == tx + TiedWith([], t, le);
      assert s == init + [x];
      calc {
        TiedWith(Sort(s, le), t, le);
        TiedWith(Insert(x, Sort(init, le), le), t, le);
        TiedWith(Sort(init, le), t, le) + tx;
        TiedWith(init, t, le) + TiedWith([x], t, le);
        TiedWith(s, t, le);
      }
    }
  }

  /** `Sort` orders its input, permutes it, and is stable: for every `t`, the
      elements tied with `t` come out in the order they went in. */
  lemma SortFacts<T(!new)>(s: seq<T>, le: (T, T) -> bool)
    requires TotalPreorder(le)
    ensures Sorted(Sort(s, le), le)
    ensures multiset(Sort(s, le)) == multiset(s)
    ensures forall t :: TiedWith(Sort(s, le), t, le) == TiedWith(s, t, le)
  {
    SortSorted(s, le);
    SortPermutes(s, le);
    forall t ensures TiedWith(Sort(s, le), t, le) == TiedWith(s, t, le) {
      SortStable(s, t, le);
    }
  }
}
