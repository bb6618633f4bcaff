/** The collision test of the extending hook: which live object, if any,
    the tip touches, and how that object leaves the live list. */
module Capture {
  import opened GameTypes

  /** The tip (tx, ty) lies inside the object's box; every edge is
      inclusive, at x +/- width/2 and y +/- height/2. */
  predicate InBox(o: GameObject, tx: real, ty: real)
  {
    o.x - o.width / 2.0 <= tx <= o.x + o.width / 2.0 &&
    o.y - o.height / 2.0 <= ty <= o.y + o.height / 2.0
  }

  /** The index of the first object, in list order, whose box holds the
      tip; None when no box holds it. */
  function FirstHit(objects: seq<GameObject>, tx: real, ty: real): (r: Option<nat>)
    ensures r.Some? ==> r.value < |objects| && InBox(objects[r.value], tx, ty)
    ensures r.Some? ==> forall j :: 0 <= j < r.value ==> !InBox(objects[j], tx, ty)
    ensures r.None? <==> forall j :: 0 <= j < |objects| ==> !InBox(objects[j], tx, ty)
    decreases |objects|
  {
    if |objects| == 0 then None
    else if InBox(objects[0], tx, ty) then Some(0)
    else
      match FirstHit(objects[1..], tx, ty)
      case None => None
      case Some(k) => Some(k + 1)
  }

  /** The first hit is the only index that is a hit with no hit before it. */
  lemma FirstHitIsUnique(objects: seq<GameObject>, tx: real, ty: real, i: nat)
    requires i < |objects| && InBox(objects[i], tx, ty)
    requires forall j :: 0 <= j < i ==> !InBox(objects[j], tx, ty)
    ensures FirstHit(objects, tx, ty) == Some(i)
  {
  }

  /** The list without the element at index i: what keeping every element
      whose index differs from i leaves, in the original order. */
  function RemoveAt<T>(s: seq<T>, i: nat): (r: seq<T>)
    requires i < |s|
    ensures |r| == |s| - 1
    ensures forall j :: 0 <= j < i ==> r[j] == s[j]
    ensures forall j :: i <= j < |r| ==> r[j] == s[j + 1]
  {
    s[..i] + s[i + 1..]
  }

  /** Removing index i loses exactly the element s[i] and nothing else. */
  lemma RemoveAtMultiset<T>(s: seq<T>, i: nat)
    requires i < |s|
    ensures multiset(RemoveAt(s, i)) + multiset{s[i]} == multiset(s)
  {
    assert s == s[..i] + [s[i]] + s[i + 1..];
  }

  /** The sum of the values of a list of objects. */
  function TotalValue(objects: seq<GameObject>): int
    decreases |objects|
  {
    if |objects| == 0 then 0 else objects[0].value + TotalValue(objects[1..])
  }

  lemma {:induction false} TotalValueAppend(a: seq<GameObject>, b: seq<GameObject>)
    ensures TotalValue(a + b) == TotalValue(a) + TotalValue(b)
    decreases |a|
  {
    if |a| == 0 {
      assert a + b == b;
    } else {
      assert (a + b)[1..] == a[1..] + b;
      TotalValueAppend(a[1..], b);
    }
  }

  /** Removing index i takes exactly objects[i].value out of the total. */
  lemma RemoveAtTotalValue(objects: seq<GameObject>, i: nat)
    requires i < |objects|
    ensures TotalValue(RemoveAt(objects, i)) + objects[i].value == TotalValue(objects)
  {
    assert objects == objects[..i] + ([objects[i]] + objects[i + 1..]);
    TotalValueAppend(objects[..i], [objects[i]] + objects[i + 1..]);
    TotalValueAppend([objects[i]], objects[i + 1..]);
    TotalValueAppend(objects[..i], objects[i + 1..]);
    assert TotalValue([objects[i]]) == objects[i].value by {
      assert [objects[i]][1..] == [];
    }
  }
}
