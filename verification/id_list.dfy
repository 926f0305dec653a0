/** Operations on lists of records keyed by an opaque string id, the way the
    reducers use JavaScript arrays: `findIndex` by id, replace the element
    found, `filter` out an id, `some` by id then `push`. `key` extracts the id
    of a record. */
module IdList {
  import opened Common
  import Seqs

  /** Some element carries `id` (JavaScript's `xs.some(x => x.id === id)`). */
  predicate HasKey<T>(xs: seq<T>, key: T -> string, id: string) {
    exists i :: 0 <= i < |xs| && key(xs[i]) == id
  }

  /** No two positions carry the same id. */
  ghost predicate UniqueKeys<T>(xs: seq<T>, key: T -> string) {
    forall i, j :: 0 <= i < j < |xs| ==> key(xs[i]) != key(xs[j])
  }

  /** Position `i` holds the first element with its id. */
  ghost predicate FirstOfKey<T>(xs: seq<T>, key: T -> string, i: int) {
    0 <= i < |xs| && forall j :: 0 <= j < i ==> key(xs[j]) != key(xs[i])
  }

  /** `findIndex` by id, with `None` for JavaScript's `-1`. */
  function FindIndex<T>(xs: seq<T>, key: T -> string, id: string): (r: Option<nat>)
    ensures r.Some? ==> r.value < |xs| && key(xs[r.value]) == id && FirstOfKey(xs, key, r.value)
    ensures r.None? <==> !HasKey(xs, key, id)
  {
    if xs == [] then None
    else if key(xs[0]) == id then Some(0)
    else
      match FindIndex(xs[1..], key, id)
      case None => None
      case Some(i) => Some(i + 1)
  }

  /** Applies `f` to the first element carrying `id` and leaves every other
      position alone; with no such element the list is unchanged. */
  function ModifyFirst<T>(xs: seq<T>, key: T -> string, id: string, f: T -> T): (r: seq<T>)
    ensures |r| == |xs|
    ensures forall i :: 0 <= i < |xs| ==>
      r[i] == if FirstOfKey(xs, key, i) && key(xs[i]) == id then f(xs[i]) else xs[i]
  {
    match FindIndex(xs, key, id)
    case None => xs
    case Some(i) => xs[i := f(xs[i])]
  }

  /** The reducers' `xs[xs.findIndex(y => y.id === x.id)] = x` guarded by
      `index !== -1`. */
  function ReplaceFirst<T>(xs: seq<T>, key: T -> string, x: T): (r: seq<T>)
    ensures |r| == |xs|
    ensures !HasKey(xs, key, key(x)) ==> r == xs
    ensures forall i :: FirstOfKey(xs, key, i) && key(xs[i]) == key(x) ==> r == xs[i := x]
  {
    ModifyFirst(xs, key, key(x), _ => x)
  }

  /** Replacing by id keeps the id at every position. */
  lemma ReplaceFirstKeepsKeys<T>(xs: seq<T>, key: T -> string, x: T)
    ensures forall i :: 0 <= i < |xs| ==> key(ReplaceFirst(xs, key, x)[i]) == key(xs[i])
  {
  }

  /** So replacing by id keeps ids unique. */
  lemma ReplaceFirstKeepsUnique<T>(xs: seq<T>, key: T -> string, x: T)
    requires UniqueKeys(xs, key)
    ensures UniqueKeys(ReplaceFirst(xs, key, x), key)
  {
    ReplaceFirstKeepsKeys(xs, key, x);
  }

  /** Replacing the same record twice is replacing it once. */
  lemma ReplaceFirstIdempotent<T>(xs: seq<T>, key: T -> string, x: T)
    ensures ReplaceFirst(ReplaceFirst(xs, key, x), key, x) == ReplaceFirst(xs, key, x)
  {
    var once := ReplaceFirst(xs, key, x);
    ReplaceFirstKeepsKeys(xs, key, x);
    assert forall i :: FirstOfKey(once, key, i) <==> FirstOfKey(xs, key, i);
  }

  /** The test `y => y.id !== id`. */
  function KeyIsNot<T>(key: T -> string, id: string): T -> bool {
    y => key(y) != id
  }

  /** `xs.filter(y => y.id !== id)`: every element with that id is gone and
      every other element keeps its multiplicity; `RemoveAllConcat` says the
      survivors also keep their relative order. */
  function RemoveAll<T(==,!new)>(xs: seq<T>, key: T -> string, id: string): (r: seq<T>)
    ensures !HasKey(r, key, id)
    ensures forall y :: multiset(r)[y] == if key(y) == id then 0 else multiset(xs)[y]
  {
    var r := Seqs.Filter(xs, KeyIsNot(key, id));
    assert forall i :: 0 <= i < |r| ==> r[i] in r;
    r
  }

  /** Removal distributes over concatenation: survivors keep their order. */
  lemma RemoveAllConcat<T(!new)>(xs: seq<T>, ys: seq<T>, key: T -> string, id: string)
    ensures RemoveAll(xs + ys, key, id) == RemoveAll(xs, key, id) + RemoveAll(ys, key, id)
  {
    Seqs.FilterConcat(xs, ys, KeyIsNot(key, id));
  }

  /** Removing an id nobody carries changes nothing. */
  lemma RemoveAllAbsent<T(!new)>(xs: seq<T>, key: T -> string, id: string)
    requires !HasKey(xs, key, id)
    ensures RemoveAll(xs, key, id) == xs
  {
    Seqs.FilterKeepsAll(xs, KeyIsNot(key, id));
  }

  /** Removing the same id twice is removing it once. */
  lemma RemoveAllIdempotent<T(!new)>(xs: seq<T>, key: T -> string, id: string)
    ensures RemoveAll(RemoveAll(xs, key, id), key, id) == RemoveAll(xs, key, id)
  {
    Seqs.FilterIdempotent(xs, KeyIsNot(key, id));
  }

  /** A filter never breaks uniqueness of ids. */
  lemma {:induction false} FilterKeepsUnique<T(!new)>(xs: seq<T>, key: T -> string, p: T -> bool)
    requires UniqueKeys(xs, key)
    ensures UniqueKeys(Seqs.Filter(xs, p), key)
  {
    if xs != [] {
      FilterKeepsUnique(xs[1..], key, p);
      var rest := Seqs.Filter(xs[1..], p);
      if p(xs[0]) {
        forall k | 0 <= k < |rest| ensures key(rest[k]) != key(xs[0]) {
          assert rest[k] in xs[1..];
          var m :| 0 <= m < |xs[1..]| && xs[1..][m] == rest[k];
          assert xs[m + 1] == rest[k];
        }
      }
    }
  }

  lemma RemoveAllKeepsUnique<T(!new)>(xs: seq<T>, key: T -> string, id: string)
    requires UniqueKeys(xs, key)
    ensures UniqueKeys(RemoveAll(xs, key, id), key)
  {
    FilterKeepsUnique(xs, key, KeyIsNot(key, id));
  }

  /** `if (!xs.some(y => y.id === x.id)) xs.push(x)`. */
  function AppendIfAbsent<T>(xs: seq<T>, key: T -> string, x: T): (r: seq<T>)
    ensures HasKey(r, key, key(x))
    ensures HasKey(xs, key, key(x)) ==> r == xs
    ensures !HasKey(xs, key, key(x)) ==> r == xs + [x]
  {
    if HasKey(xs, key, key(x)) then xs
    else
      assert (xs + [x])[|xs|] == x;
      xs + [x]
  }

  /** Appending a record whose id is already present changes nothing, so
      doing it twice is doing it once. */
  lemma AppendIfAbsentIdempotent<T>(xs: seq<T>, key: T -> string, x: T)
    ensures AppendIfAbsent(AppendIfAbsent(xs, key, x), key, x) == AppendIfAbsent(xs, key, x)
  {
  }

  /** It never introduces a second record with the same id. */
  lemma AppendIfAbsentKeepsUnique<T>(xs: seq<T>, key: T -> string, x: T)
    requires UniqueKeys(xs, key)
    ensures UniqueKeys(AppendIfAbsent(xs, key, x), key)
  {
  }
}
