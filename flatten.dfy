/**
 * src/lib/flatten.js: `flatten` turns an arbitrarily nested array into a flat
 * array of its non-array values.
 */
module ArrayFlatten {

  /** A JavaScript value as `flatten` sees it: an array of values, or any other value. */
  datatype Nested<T> = Leaf(value: T) | Array(items: seq<Nested<T>>)

  /**
   * `flatten(value)`: a non-array value becomes `[value]`; an array is reduced
   * from the left, concatenating the flattening of each item onto the accumulator.
   * Leaves are of type `T`, so the result holds no arrays by construction.
   * The fold yields the leaves of the value, read left to right.
   */
  function Flatten<T>(v: Nested<T>): (r: seq<T>)
    ensures r == Leaves(v)
    decreases v, 1, 0
  {
    match v
    case Leaf(x) => [x]
    case Array(items) => Reduce([], v, 0)
  }

  /** `items.reduce((array, item) => array.concat(flatten(item)), acc)` from index `i` on. */
  function Reduce<T>(acc: seq<T>, v: Nested<T>, i: nat): (r: seq<T>)
    requires v.Array? && i <= |v.items|
    ensures r == acc + LeavesOf(v.items[i..])
    decreases v, 0, |v.items| - i
  {
    if i == |v.items| then acc
    else
      assert v.items[i..][1..] == v.items[i + 1..];
      Reduce(acc + Flatten(v.items[i]), v, i + 1)
  }

  /** Reference definition: the leaves of a value, read left to right. */
  function Leaves<T>(v: Nested<T>): seq<T>
    decreases v
  {
    match v
    case Leaf(x) => [x]
    case Array(items) => LeavesOf(items)
  }

  function LeavesOf<T>(items: seq<Nested<T>>): seq<T>
    decreases items
  {
    if items == [] then [] else Leaves(items[0]) + LeavesOf(items[1..])
  }

  /** Number of non-array values in a nested value. */
  function LeafCount<T>(v: Nested<T>): nat
    decreases v
  {
    match v
    case Leaf(_) => 1
    case Array(items) => LeafCountOf(items)
  }

  function LeafCountOf<T>(items: seq<Nested<T>>): nat
    decreases items
  {
    if items == [] then 0 else LeafCount(items[0]) + LeafCountOf(items[1..])
  }

  /** A flat array seen again as a (one-level) array value. */
  function Lift<T>(s: seq<T>): (r: Nested<T>)
    ensures r.Array? && |r.items| == |s|
    ensures forall i :: 0 <= i < |s| ==> r.items[i] == Leaf(s[i])
  {
    Array(seq(|s|, i requires 0 <= i < |s| => Leaf(s[i])))
  }

  lemma {:induction false} LeavesOfAppend<T>(a: seq<Nested<T>>, b: seq<Nested<T>>)
    ensures LeavesOf(a + b) == LeavesOf(a) + LeavesOf(b)
    decreases |a|
  {
    if a != [] {
      assert (a + b)[1..] == a[1..] + b;
      LeavesOfAppend(a[1..], b);
    } else {
      assert a + b == b;
    }
  }

  /** A non-array value flattens to a one-element array; the empty array to the empty array. */
  lemma FlattenBase<T>(x: T)
    ensures Flatten(Leaf(x)) == [x]
    ensures Flatten(Nested<T>.Array([])) == []
  {
  }

  lemma {:induction false} LeafCountIsLength<T>(v: Nested<T>)
    ensures |Leaves(v)| == LeafCount(v)
    decreases v, 1
  {
    if v.Array? {
      LeafCountOfIsLength(v.items);
    }
  }

  lemma {:induction false} LeafCountOfIsLength<T>(items: seq<Nested<T>>)
    ensures |LeavesOf(items)| == LeafCountOf(items)
    decreases items, 0
  {
    if items != [] {
      LeafCountIsLength(items[0]);
      LeafCountOfIsLength(items[1..]);
    }
  }

  /** The flattened array has one element per leaf, in left-to-right order. */
  lemma FlattenLength<T>(v: Nested<T>)
    ensures |Flatten(v)| == LeafCount(v)
  {
    LeafCountIsLength(v);
  }

  /** Flattening distributes over concatenation of arrays. */
  lemma FlattenAppend<T>(a: seq<Nested<T>>, b: seq<Nested<T>>)
    ensures Flatten(Array(a + b)) == Flatten(Array(a)) + Flatten(Array(b))
  {
    LeavesOfAppend(a, b);
  }

  lemma {:induction false} LeavesOfLift<T>(s: seq<T>)
    ensures LeavesOf(Lift(s).items) == s
    decreases |s|
  {
    if s != [] {
      assert Lift(s).items[1..] == Lift(s[1..]).items;
      LeavesOfLift(s[1..]);
    }
  }

  /** An already flat array flattens to itself, so `flatten` is idempotent. */
  lemma FlattenIdempotent<T>(v: Nested<T>)
    ensures Flatten(Lift(Flatten(v))) == Flatten(v)
  {
    LeavesOfLift(Flatten(v));
  }
}
