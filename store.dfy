/** The list of saved estimates kept by the application shell: saving is
    an upsert by id, deleting removes every entry with the id. */
module Store {
  import opened Estimates

  /** `list.findIndex(e => e.id === id)`: the first position holding
      `id`, or -1. */
  function IndexOfId(list: seq<Estimate>, id: string): (r: int)
    ensures -1 <= r < |list|
    ensures r == -1 <==> forall j :: 0 <= j < |list| ==> list[j].id != id
    ensures 0 <= r ==> list[r].id == id && forall j :: 0 <= j < r ==> list[j].id != id
  {
    if list == [] then -1
    else if list[0].id == id then 0
    else
      var k := IndexOfId(list[1..], id);
      if k == -1 then -1 else k + 1
  }

  /** The list after saving `est`: the first entry with its id replaced
      in place, or `est` put in front when the id is new. */
  function Upserted(list: seq<Estimate>, est: Estimate): seq<Estimate>
  {
    var idx := IndexOfId(list, est.id);
    if idx >= 0 then list[idx := est] else [est] + list
  }

  /** `list.filter(e => e.id !== id)`. */
  function WithoutId(list: seq<Estimate>, id: string): seq<Estimate>
  {
    if list == [] then []
    else if list[0].id == id then WithoutId(list[1..], id)
    else [list[0]] + WithoutId(list[1..], id)
  }

  class EstimateList {
    var estimates: seq<Estimate>

    /** The list starts empty; loading it from browser storage is not
        part of this model. */
    constructor ()
      ensures estimates == []
    {
      estimates := [];
    }

    /** `saveEstimate(est)`. */
    method SaveEstimate(est: Estimate)
      modifies this
      ensures estimates == Upserted(old(estimates), est)
    {
      var i := 0;
      while i < |estimates| && estimates[i].id != est.id
        invariant 0 <= i <= |estimates|
        invariant forall j :: 0 <= j < i ==> estimates[j].id != est.id
      {
        i := i + 1;
      }
      if i < |estimates| {
        var next := estimates;
        next := next[i := est];
        estimates := next;
      } else {
        estimates := [est] + estimates;
      }
    }

    /** `deleteEstimate(id)`. */
    method DeleteEstimate(id: string)
      modifies this
      ensures estimates == WithoutId(old(estimates), id)
    {
      estimates := WithoutId(estimates, id);
    }
  }

  /** Saving an id already present replaces its first entry in place:
      same length, `est` at that position, every other entry where it was. */
  lemma SaveExisting(list: seq<Estimate>, est: Estimate, i: int)
    requires 0 <= i < |list| && list[i].id == est.id
    requires forall j :: 0 <= j < i ==> list[j].id != est.id
    ensures var r := Upserted(list, est);
      && |r| == |list| && r[i] == est
      && forall j :: 0 <= j < |list| && j != i ==> r[j] == list[j]
  {
    assert IndexOfId(list, est.id) == i;
  }

  /** Saving a new id puts it in front of the unchanged list. */
  lemma SaveNew(list: seq<Estimate>, est: Estimate)
    requires forall e :: e in list ==> e.id != est.id
    ensures Upserted(list, est) == [est] + list
    ensures |Upserted(list, est)| == |list| + 1
  {
    forall j | 0 <= j < |list|
      ensures list[j].id != est.id
    {
      assert list[j] in list;
    }
  }

  /** The saved estimate is the first entry with its id afterwards. */
  lemma SaveThenFind(list: seq<Estimate>, est: Estimate)
    ensures var r := Upserted(list, est);
      0 <= IndexOfId(r, est.id) && r[IndexOfId(r, est.id)] == est
  {
    var i := IndexOfId(list, est.id);
    var r := Upserted(list, est);
    if i >= 0 {
      assert r[i] == est;
      assert forall j :: 0 <= j < i ==> r[j] == list[j];
    } else {
      assert r[0] == est;
    }
  }

  /** Saving the same estimate twice is saving it once. */
  lemma SaveIdempotent(list: seq<Estimate>, est: Estimate)
    ensures Upserted(Upserted(list, est), est) == Upserted(list, est)
  {
    SaveThenFind(list, est);
    var r := Upserted(list, est);
    assert r[IndexOfId(r, est.id) := est] == r;
  }

  /** What deleting keeps: exactly the entries without the id. */
  lemma {:induction false} DeleteMembers(list: seq<Estimate>, id: string)
    ensures forall e :: e in WithoutId(list, id) <==> e in list && e.id != id
    ensures |WithoutId(list, id)| <= |list|
  {
    if list != [] {
      DeleteMembers(list[1..], id);
      assert forall e :: e in list <==> e == list[0] || e in list[1..];
    }
  }

  /** Deleting keeps the order of what remains: it works piecewise over
      a split of the list. */
  lemma {:induction false} DeleteSplits(a: seq<Estimate>, b: seq<Estimate>, id: string)
    ensures WithoutId(a + b, id) == WithoutId(a, id) + WithoutId(b, id)
  {
    if a == [] {
      assert a + b == b;
    } else {
      assert (a + b)[1..] == a[1..] + b;
      DeleteSplits(a[1..], b, id);
    }
  }

  /** Deleting an id no entry has changes nothing. */
  lemma {:induction false} DeleteAbsent(list: seq<Estimate>, id: string)
    requires forall e :: e in list ==> e.id != id
    ensures WithoutId(list, id) == list
  {
    if list != [] {
      assert list[0] in list;
      assert forall e :: e in list[1..] ==> e in list;
      DeleteAbsent(list[1..], id);
    }
  }

  /** Deleting after saving is deleting: a save never leaves anything
      behind under its id that deleting would not remove. */
  lemma DeleteAfterSave(list: seq<Estimate>, est: Estimate)
    ensures WithoutId(Upserted(list, est), est.id) == WithoutId(list, est.id)
  {
    var i := IndexOfId(list, est.id);
    if i >= 0 {
      assert list == list[..i] + [list[i]] + list[i + 1..];
      assert Upserted(list, est) == list[..i] + [est] + list[i + 1..];
      DeleteSplits(list[..i] + [list[i]], list[i + 1..], est.id);
      DeleteSplits(list[..i], [list[i]], est.id);
      DeleteSplits(list[..i] + [est], list[i + 1..], est.id);
      DeleteSplits(list[..i], [est], est.id);
    } else {
      DeleteSplits([est], list, est.id);
    }
  }
}
