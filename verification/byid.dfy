/**
 * The two list updates the page performs on records carrying an `id`:
 * `prev.map(x => x.id === id ? f(x) : x)` and `prev.filter(x => x.id !== id)`.
 * `key` extracts the id; both operations are stated once here and used for
 * the attachment list and for the conversation.
 */
module ById {

  /** The ids in `xs` are pairwise distinct. */
  ghost predicate UniqueKeys<T>(xs: seq<T>, key: T -> int) {
    forall i, j :: 0 <= i < j < |xs| ==> key(xs[i]) != key(xs[j])
  }

  /** `f` never changes the id of the record it rewrites. */
  ghost predicate KeepsKey<T(!new)>(key: T -> int, f: T -> T) {
    forall x :: key(f(x)) == key(x)
  }

  /** Rewrites with `f` every record whose id is `id`, in place; every other record stays as it is. */
  function Update<T>(xs: seq<T>, key: T -> int, id: int, f: T -> T): (r: seq<T>)
    ensures |r| == |xs|
    ensures forall i :: 0 <= i < |xs| && key(xs[i]) == id ==> r[i] == f(xs[i])
    ensures forall i :: 0 <= i < |xs| && key(xs[i]) != id ==> r[i] == xs[i]
  {
    if xs == [] then []
    else [if key(xs[0]) == id then f(xs[0]) else xs[0]] + Update(xs[1..], key, id, f)
  }

  /** Drops every record whose id is `id`; the remaining records keep their relative order. */
  function Remove<T>(xs: seq<T>, key: T -> int, id: int): (r: seq<T>)
    ensures |r| <= |xs|
    ensures forall i :: 0 <= i < |r| ==> r[i] in xs && key(r[i]) != id
    ensures forall i :: 0 <= i < |xs| && key(xs[i]) != id ==> xs[i] in r
  {
    if xs == [] then []
    else if key(xs[0]) == id then Remove(xs[1..], key, id)
    else [xs[0]] + Remove(xs[1..], key, id)
  }

  /** Order preservation: removing from a concatenation removes from each part. */
  lemma {:induction false} RemoveAppend<T>(a: seq<T>, b: seq<T>, key: T -> int, id: int)
    ensures Remove(a + b, key, id) == Remove(a, key, id) + Remove(b, key, id)
  {
    if a != [] {
      assert (a + b)[1..] == a[1..] + b;
      RemoveAppend(a[1..], b, key, id);
    } else {
      assert a + b == b;
    }
  }

  /** Removing an id nobody carries changes nothing. */
  lemma {:induction false} RemoveAbsent<T>(xs: seq<T>, key: T -> int, id: int)
    requires forall i :: 0 <= i < |xs| ==> key(xs[i]) != id
    ensures Remove(xs, key, id) == xs
  {
    if xs != [] {
      RemoveAbsent(xs[1..], key, id);
    }
  }

  /**
   * When exactly the record at index `k` carries `id`, removing `id` deletes that one
   * record and leaves the others in their order.
   */
  lemma {:induction false} RemoveOne<T>(xs: seq<T>, key: T -> int, id: int, k: nat)
    requires k < |xs| && key(xs[k]) == id
    requires forall i :: 0 <= i < |xs| && i != k ==> key(xs[i]) != id
    ensures Remove(xs, key, id) == xs[..k] + xs[k + 1..]
    ensures |Remove(xs, key, id)| == |xs| - 1
  {
    assert xs == xs[..k] + [xs[k]] + xs[k + 1..];
    RemoveAppend(xs[..k] + [xs[k]], xs[k + 1..], key, id);
    RemoveAppend(xs[..k], [xs[k]], key, id);
    RemoveAbsent(xs[..k], key, id);
    RemoveAbsent(xs[k + 1..], key, id);
    assert Remove([xs[k]], key, id) == [];
  }

  /** Rewriting an id nobody carries changes nothing. */
  lemma UpdateAbsent<T>(xs: seq<T>, key: T -> int, id: int, f: T -> T)
    requires forall i :: 0 <= i < |xs| ==> key(xs[i]) != id
    ensures Update(xs, key, id, f) == xs
  {
  }

  /** Rewrites of two different ids commute, so they may complete in either order. */
  lemma UpdateCommutes<T(!new)>(xs: seq<T>, key: T -> int, a: int, f: T -> T, b: int, g: T -> T)
    requires a != b && KeepsKey(key, f) && KeepsKey(key, g)
    ensures Update(Update(xs, key, a, f), key, b, g) == Update(Update(xs, key, b, g), key, a, f)
  {
  }

  /** Removals of two ids commute. */
  lemma {:induction false} RemoveCommutes<T>(xs: seq<T>, key: T -> int, a: int, b: int)
    ensures Remove(Remove(xs, key, a), key, b) == Remove(Remove(xs, key, b), key, a)
  {
    if xs != [] {
      RemoveCommutes(xs[1..], key, a, b);
    }
  }

  /** Rewriting one id and removing another commute. */
  lemma {:induction false} UpdateRemoveCommute<T(!new)>(xs: seq<T>, key: T -> int, a: int, f: T -> T, b: int)
    requires a != b && KeepsKey(key, f)
    ensures Remove(Update(xs, key, a, f), key, b) == Update(Remove(xs, key, b), key, a, f)
  {
    if xs != [] {
      UpdateRemoveCommute(xs[1..], key, a, f, b);
      assert Update(xs, key, a, f)[1..] == Update(xs[1..], key, a, f);
    }
  }
}
