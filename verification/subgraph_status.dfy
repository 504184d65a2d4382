/** The subgraph error list of the app (frontend/app/src/services/SubgraphStatus.tsx):
    the updaters the status provider hands to its state, as functions from the
    previous list to the next. An `Error` is represented by its message. */
module SubgraphStatus {
  import opened Common

  datatype ErrorEntry = ErrorEntry(id: string, error: string)

  /** Some entry has the id (`prevErrors.find(e => e.id === id)` is an
      object, which is truthy). */
  predicate HasId(errors: seq<ErrorEntry>, id: string) {
    exists k :: 0 <= k < |errors| && errors[k].id == id
  }

  /** The ids of the entries, in order. */
  function Ids(errors: seq<ErrorEntry>): (r: seq<string>)
    ensures |r| == |errors| && forall k :: 0 <= k < |r| ==> r[k] == errors[k].id
  {
    seq(|errors|, k requires 0 <= k < |errors| => errors[k].id)
  }

  /** The error recorded for the id: that of its first entry. */
  function ErrorOf(errors: seq<ErrorEntry>, id: string): Option<string> {
    if errors == [] then None
    else if errors[0].id == id then Some(errors[0].error)
    else ErrorOf(errors[1..], id)
  }

  /** `prevErrors.map(e => e.id === id ? { ...e, error: err } : e)`: every entry
      with the id gets the new error, and the ids and the other errors stay in
      place. */
  function Replace(errors: seq<ErrorEntry>, id: string, err: string): (r: seq<ErrorEntry>)
    ensures |r| == |errors|
    ensures forall k :: 0 <= k < |r| ==> r[k].id == errors[k].id
    ensures forall k :: 0 <= k < |r| ==> r[k].error == (if errors[k].id == id then err else errors[k].error)
  {
    if errors == [] then []
    else [if errors[0].id == id then ErrorEntry(id, err) else errors[0]] + Replace(errors[1..], id, err)
  }

  /** `prevErrors.filter(e => e.id !== id)`. */
  function Without(errors: seq<ErrorEntry>, id: string): (r: seq<ErrorEntry>)
    ensures |r| <= |errors|
    ensures forall e :: e in r <==> e in errors && e.id != id
  {
    if errors == [] then []
    else if errors[0].id == id then Without(errors[1..], id)
    else [errors[0]] + Without(errors[1..], id)
  }

  /** `setError`: a known id has its error replaced in place; a new id is
      appended at the end. */
  function SetError(errors: seq<ErrorEntry>, id: string, err: string): (r: seq<ErrorEntry>)
    ensures HasId(errors, id) ==> |r| == |errors| && Ids(r) == Ids(errors)
    ensures HasId(errors, id) ==>
      forall k :: 0 <= k < |r| ==> r[k].error == (if errors[k].id == id then err else errors[k].error)
    ensures !HasId(errors, id) ==> r == errors + [ErrorEntry(id, err)]
    ensures ErrorOf(r, id) == Some(err)
  {
    if HasId(errors, id) then
      var r := Replace(errors, id, err);
      assert Ids(r) == Ids(errors);
      ErrorOfReplace(errors, id, err);
      r
    else
      ErrorOfAppend(errors, id, err);
      errors + [ErrorEntry(id, err)]
  }

  lemma {:induction false} ErrorOfReplace(errors: seq<ErrorEntry>, id: string, err: string)
    requires HasId(errors, id)
    ensures ErrorOf(Replace(errors, id, err), id) == Some(err)
  {
    if errors[0].id != id {
      var k :| 0 <= k < |errors| && errors[k].id == id;
      assert errors[1..][k - 1].id == id;
      ErrorOfReplace(errors[1..], id, err);
    }
  }

  lemma {:induction false} ErrorOfAppend(errors: seq<ErrorEntry>, id: string, err: string)
    requires !HasId(errors, id)
    ensures ErrorOf(errors + [ErrorEntry(id, err)], id) == Some(err)
  {
    if errors != [] {
      assert !HasId(errors[1..], id) by {
        forall k | 0 <= k < |errors[1..]| ensures errors[1..][k].id != id {
          assert errors[1..][k] == errors[k + 1];
        }
      }
      ErrorOfAppend(errors[1..], id, err);
      assert (errors + [ErrorEntry(id, err)])[1..] == errors[1..] + [ErrorEntry(id, err)];
    }
  }

  /** `clearError`: the entries with the id are removed and the rest keep their
      order; the early return for an absent id gives the same list as the
      filter would. */
  function ClearError(errors: seq<ErrorEntry>, id: string): (r: seq<ErrorEntry>)
    ensures r == Without(errors, id)
    ensures !HasId(r, id)
    ensures !HasId(errors, id) ==> r == errors
  {
    if HasId(errors, id) then
      var r := Without(errors, id);
      assert !HasId(r, id) by {
        forall k | 0 <= k < |r| ensures r[k].id != id {
          assert r[k] in r;
        }
      }
      r
    else
      WithoutAbsent(errors, id);
      errors
  }

  /** Filtering out an id no entry has leaves the list as it is. */
  lemma {:induction false} WithoutAbsent(errors: seq<ErrorEntry>, id: string)
    requires !HasId(errors, id)
    ensures Without(errors, id) == errors
  {
    if errors != [] {
      assert !HasId(errors[1..], id) by {
        forall k | 0 <= k < |errors[1..]| ensures errors[1..][k].id != id {
          assert errors[1..][k] == errors[k + 1];
        }
      }
      WithoutAbsent(errors[1..], id);
    }
  }

  /** `clearAllErrors`. */
  function ClearAllErrors(): (r: seq<ErrorEntry>)
    ensures !HasError(r)
  {
    []
  }

  /** `hasError`: the list is not empty. */
  predicate HasError(errors: seq<ErrorEntry>) {
    |errors| > 0
  }

  /** No two entries share an id. */
  predicate UniqueIds(errors: seq<ErrorEntry>) {
    forall i, j :: 0 <= i < j < |errors| ==> errors[i].id != errors[j].id
  }

  /** After `setError` there is an error, and the list stays free of
      duplicate ids. */
  lemma SetErrorKeepsIdsUnique(errors: seq<ErrorEntry>, id: string, err: string)
    requires UniqueIds(errors)
    ensures UniqueIds(SetError(errors, id, err))
    ensures HasError(SetError(errors, id, err))
  {
  }

  /** After `clearError` the list stays free of duplicate ids. */
  lemma {:induction false} ClearErrorKeepsIdsUnique(errors: seq<ErrorEntry>, id: string)
    requires UniqueIds(errors)
    ensures UniqueIds(ClearError(errors, id))
  {
    if errors != [] {
      var h, t := errors[0], errors[1..];
      ClearErrorKeepsIdsUnique(t, id);
      if h.id != id {
        var w := Without(t, id);
        forall k | 0 <= k < |w| ensures w[k].id != h.id {
          assert w[k] in t;
        }
        assert Without(errors, id) == [h] + w;
      }
    }
  }

  /** Setting an error under a new id and then clearing that id restores the
      list. */
  lemma ClearUndoesNewError(errors: seq<ErrorEntry>, id: string, err: string)
    requires !HasId(errors, id)
    ensures ClearError(SetError(errors, id, err), id) == errors
  {
    WithoutAppend(errors, id, err);
  }

  lemma {:induction false} WithoutAppend(errors: seq<ErrorEntry>, id: string, err: string)
    requires !HasId(errors, id)
    ensures Without(errors + [ErrorEntry(id, err)], id) == errors
  {
    if errors == [] {
      assert Without([ErrorEntry(id, err)], id) == Without([], id);
    } else {
      assert !HasId(errors[1..], id) by {
        forall k | 0 <= k < |errors[1..]| ensures errors[1..][k].id != id {
          assert errors[1..][k] == errors[k + 1];
        }
      }
      WithoutAppend(errors[1..], id, err);
      assert (errors + [ErrorEntry(id, err)])[1..] == errors[1..] + [ErrorEntry(id, err)];
    }
  }
}
