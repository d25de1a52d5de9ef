/**
  Array operations on a list of batches that several parts of the core share:
  `find` and `findIndex` by id, `filter` by id, and counting with `filter(p).length`.
 */
module BatchList {
  import opened Wrappers
  import opened Domain

  predicate HasId(bs: seq<Batch>, id: string) {
    exists i | 0 <= i < |bs| :: bs[i].id == id
  }

  /** `bs.findIndex(b => b.id === id)`, with None for `-1`. */
  function FirstIndexOfId(bs: seq<Batch>, id: string): (r: Option<nat>)
    ensures r.None? <==> !HasId(bs, id)
    ensures r.Some? ==> r.value < |bs| && bs[r.value].id == id
    ensures r.Some? ==> forall j | 0 <= j < r.value :: bs[j].id != id
  {
    if bs == [] then None
    else if bs[0].id == id then Some(0)
    else match FirstIndexOfId(bs[1..], id)
      case None =>
        assert forall i | 1 <= i < |bs| :: bs[i] == bs[1..][i - 1];
        None
      case Some(i) => Some(i + 1)
  }

  /** `bs.find(b => b.id === id)`: the first batch with that id, if any. */
  function FindById(bs: seq<Batch>, id: string): (r: Option<Batch>)
    ensures r.Some? <==> HasId(bs, id)
    ensures r.Some? ==> r.value.id == id && r.value in bs
    ensures r.Some? ==> exists i | 0 <= i < |bs| :: bs[i] == r.value && forall j | 0 <= j < i :: bs[j].id != id
  {
    match FirstIndexOfId(bs, id)
    case None => None
    case Some(i) => Some(bs[i])
  }

  /** `bs.filter(b => b.id !== id)`. */
  function RemoveId(bs: seq<Batch>, id: string): seq<Batch> {
    if bs == [] then []
    else if bs[0].id == id then RemoveId(bs[1..], id)
    else [bs[0]] + RemoveId(bs[1..], id)
  }

  /**
    A batch survives the filter exactly when it was in the list with another
    id; nothing is duplicated, and a list without that id comes back unchanged.
   */
  lemma {:induction false} RemoveIdSpec(bs: seq<Batch>, id: string)
    ensures forall b :: b in RemoveId(bs, id) <==> b in bs && b.id != id
    ensures multiset(RemoveId(bs, id)) <= multiset(bs)
    ensures |RemoveId(bs, id)| <= |bs|
    ensures !HasId(bs, id) ==> RemoveId(bs, id) == bs
  {
    if bs != [] {
      RemoveIdSpec(bs[1..], id);
      assert bs == [bs[0]] + bs[1..];
      if !HasId(bs, id) {
        assert !HasId(bs[1..], id) by {
          forall i | 0 <= i < |bs[1..]| ensures bs[1..][i].id != id {
            assert bs[1..][i] == bs[i + 1];
          }
        }
      }
    }
  }

  /** Filtering commutes with concatenation, so the survivors keep their relative order. */
  lemma {:induction false} RemoveIdAppend(a: seq<Batch>, b: seq<Batch>, id: string)
    ensures RemoveId(a + b, id) == RemoveId(a, id) + RemoveId(b, id)
  {
    if a == [] {
      assert a + b == b;
    } else {
      var x, a' := a[0], a[1..];
      assert a == [x] + a';
      assert a + b == [x] + (a' + b);
      RemoveIdAppend(a', b, id);
      RemoveIdCons(x, a' + b, id);
      RemoveIdCons(x, a', id);
      if x.id != id {
        assert [x] + (RemoveId(a', id) + RemoveId(b, id)) == ([x] + RemoveId(a', id)) + RemoveId(b, id);
      }
    }
  }

  lemma RemoveIdCons(x: Batch, bs: seq<Batch>, id: string)
    ensures RemoveId([x] + bs, id) == if x.id == id then RemoveId(bs, id) else [x] + RemoveId(bs, id)
  {
    assert ([x] + bs)[1..] == bs;
  }

  /** `bs.filter(p).length`, counted from the end of the list. */
  function CountIf(bs: seq<Batch>, p: Batch -> bool): (n: nat)
    ensures n <= |bs|
  {
    if bs == [] then 0
    else CountIf(bs[..|bs| - 1], p) + (if p(bs[|bs| - 1]) then 1 else 0)
  }

  /** The positions of the batches satisfying p: an independent definition of the count. */
  function Positions(bs: seq<Batch>, p: Batch -> bool): set<nat> {
    set i: nat | i < |bs| && p(bs[i])
  }

  /** Counting agrees with the number of positions whose batch satisfies p. */
  lemma {:induction false} CountIfIsPositions(bs: seq<Batch>, p: Batch -> bool)
    ensures CountIf(bs, p) == |Positions(bs, p)|
  {
    if bs != [] {
      var init := bs[..|bs| - 1];
      CountIfIsPositions(init, p);
      var last := |bs| - 1;
      if p(bs[last]) {
        assert Positions(bs, p) == Positions(init, p) + {last};
      } else {
        assert Positions(bs, p) == Positions(init, p);
      }
    }
  }

  lemma {:induction false} CountIfAppend(a: seq<Batch>, b: seq<Batch>, p: Batch -> bool)
    ensures CountIf(a + b, p) == CountIf(a, p) + CountIf(b, p)
    decreases |b|
  {
    if b == [] {
      assert a + b == a;
    } else {
      assert (a + b)[..|a + b| - 1] == a + b[..|b| - 1];
      CountIfAppend(a, b[..|b| - 1], p);
    }
  }

  /** Counts of pairwise exclusive conditions add up to at most the list length. */
  lemma {:induction false} CountDisjoint3(bs: seq<Batch>, p: Batch -> bool, q: Batch -> bool, r: Batch -> bool)
    requires forall b :: !(p(b) && q(b)) && !(p(b) && r(b)) && !(q(b) && r(b))
    ensures CountIf(bs, p) + CountIf(bs, q) + CountIf(bs, r) <= |bs|
  {
    if bs != [] {
      CountDisjoint3(bs[..|bs| - 1], p, q, r);
    }
  }

  /** A weaker condition never counts fewer batches. */
  lemma {:induction false} CountIfMonotone(bs: seq<Batch>, p: Batch -> bool, q: Batch -> bool)
    requires forall b :: p(b) ==> q(b)
    ensures CountIf(bs, p) <= CountIf(bs, q)
  {
    if bs != [] {
      CountIfMonotone(bs[..|bs| - 1], p, q);
    }
  }
}
