/** The JPA repository behind every service, as an in-memory store: a map from
    id to record plus the counter that hands out the id on the first save. */
module Repository {
  import opened Wrappers

  /** Every record has the id it is stored under, and ids are below the counter. */
  ghost predicate Keyed<T>(m: map<int, T>, next: nat, idOf: T -> int)
  {
    forall k :: k in m ==> 1 <= k < next && idOf(m[k]) == k
  }

  /** At most one record per value of `key` (one cart per user, one user per email). */
  ghost predicate UniqueBy<T, K>(m: map<int, T>, key: T -> K)
  {
    forall a, b :: a in m && b in m && key(m[a]) == key(m[b]) ==> a == b
  }

  /** `findAll()`: the records with an id below `hi`, in ascending id order,
      which with a counter is the order in which they were first saved. */
  function Listing<T>(m: map<int, T>, hi: nat): (r: seq<T>)
    ensures |r| <= hi
    ensures forall x :: x in r ==> exists k :: 0 <= k < hi && k in m && m[k] == x
  {
    if hi == 0 then [] else Listing(m, hi - 1) + (if hi - 1 in m then [m[hi - 1]] else [])
  }

  /** `findByUserId(..)` / `findByEmail(..)`: the lowest id below `hi` whose record has `key` equal to `k`. */
  function FindBy<T, K(==)>(m: map<int, T>, key: T -> K, k: K, hi: nat): (r: Option<int>)
    ensures r.Some? ==> 0 <= r.value < hi && r.value in m && key(m[r.value]) == k
    ensures r.Some? ==> forall id :: 0 <= id < r.value && id in m ==> key(m[id]) != k
    ensures r.None? <==> forall id :: 0 <= id < hi && id in m ==> key(m[id]) != k
  {
    if hi == 0 then None
    else match FindBy(m, key, k, hi - 1)
      case Some(id) => Some(id)
      case None => if hi - 1 in m && key(m[hi - 1]) == k then Some(hi - 1) else None
  }

  /** `findAll()` returns exactly the stored records. */
  lemma {:induction false} ListingMembers<T>(m: map<int, T>, hi: nat)
    ensures forall x :: x in Listing(m, hi) <==> exists k :: 0 <= k < hi && k in m && m[k] == x
  {
    if hi > 0 {
      ListingMembers(m, hi - 1);
    }
  }

  /** `findAll()` on an empty store is the empty list. */
  lemma {:induction false} ListingOfEmpty<T>(m: map<int, T>, hi: nat)
    requires m == map[]
    ensures Listing(m, hi) == []
  {
    if hi > 0 {
      ListingOfEmpty(m, hi - 1);
    }
  }

  /** Records come out of `findAll()` in strictly ascending id order. */
  lemma {:induction false} ListingAscending<T>(m: map<int, T>, next: nat, idOf: T -> int, hi: nat)
    requires Keyed(m, next, idOf)
    ensures forall x :: x in Listing(m, hi) ==> idOf(x) < hi
    ensures forall i, j :: 0 <= i < j < |Listing(m, hi)| ==> idOf(Listing(m, hi)[i]) < idOf(Listing(m, hi)[j])
  {
    if hi > 0 {
      ListingAscending(m, next, idOf, hi - 1);
    }
  }

  /** `findAll()` only looks at the records below `hi`. */
  lemma {:induction false} ListingFrame<T>(m: map<int, T>, m': map<int, T>, hi: nat)
    requires forall k :: 0 <= k < hi ==> (k in m <==> k in m') && (k in m ==> m[k] == m'[k])
    ensures Listing(m, hi) == Listing(m', hi)
  {
    if hi > 0 {
      ListingFrame(m, m', hi - 1);
    }
  }

  /** Saving a new record under the next id puts it at the end of `findAll()`. */
  lemma ListingAfterInsert<T>(m: map<int, T>, next: nat, x: T)
    requires forall k :: k in m ==> k < next
    ensures Listing(m[next := x], next + 1) == Listing(m, next) + [x]
  {
    ListingFrame(m, m[next := x], next);
  }

  /** Saving a record whose key no stored record has keeps the key unique and
      makes the new record the one the key finds. */
  lemma UniqueAfterInsert<T, K>(m: map<int, T>, key: T -> K, next: nat, x: T)
    requires UniqueBy(m, key)
    requires forall k :: k in m ==> 0 <= k < next
    requires FindBy(m, key, key(x), next).None?
    ensures UniqueBy(m[next := x], key)
    ensures FindBy(m[next := x], key, key(x), next + 1) == Some(next)
  {
    var m' := m[next := x];
    var r := FindBy(m', key, key(x), next + 1);
    assert r.Some?;
  }

  /** Overwriting a record with one that has the same key keeps the key unique
      and leaves what every key finds unchanged. */
  lemma UniqueAfterUpdate<T, K>(m: map<int, T>, key: T -> K, id: int, x: T, hi: nat)
    requires UniqueBy(m, key) && id in m && key(x) == key(m[id])
    ensures UniqueBy(m[id := x], key)
    ensures forall k :: FindBy(m[id := x], key, k, hi) == FindBy(m, key, k, hi)
  {
    var m' := m[id := x];
    forall k ensures FindBy(m', key, k, hi) == FindBy(m, key, k, hi) {
      FindBySameKeys(m', m, key, k, hi);
    }
  }

  /** `FindBy` sees only the ids and the keys of the records. */
  lemma {:induction false} FindBySameKeys<T, K>(m: map<int, T>, m': map<int, T>, key: T -> K, k: K, hi: nat)
    requires m.Keys == m'.Keys
    requires forall j :: j in m ==> key(m[j]) == key(m'[j])
    ensures FindBy(m, key, k, hi) == FindBy(m', key, k, hi)
  {
    if hi > 0 {
      FindBySameKeys(m, m', key, k, hi - 1);
    }
  }
}
