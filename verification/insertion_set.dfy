/**
  A JavaScript `Set` of strings (or of `null`) behaves as a sequence without
  repetitions that remembers insertion order: `add` appends an element that is
  not yet present and leaves the set alone otherwise, and `Array.from` lists the
  elements in the order they were first added. This module models that
  behaviour on `seq`.
 */
module InsertionSet {

  /** No element occurs twice. */
  predicate NoDup<T(==, !new)>(s: seq<T>) {
    forall i, j :: 0 <= i < j < |s| ==> s[i] != s[j]
  }

  /** `set.add(x)`: the old elements keep their places, and `x` is present afterwards. */
  function Add<T(==, !new)>(s: seq<T>, x: T): (r: seq<T>)
    ensures NoDup(s) ==> NoDup(r)
    ensures s <= r && x in r
    ensures |r| <= |s| + 1
  {
    if x in s then s else s + [x]
  }

  /** `xs.forEach(x => set.add(x))`, starting from the set `s`. */
  function AddAll<T(==, !new)>(s: seq<T>, xs: seq<T>): (r: seq<T>)
    ensures NoDup(s) ==> NoDup(r)
    ensures s <= r
    ensures |r| <= |s| + |xs|
    decreases |xs|
  {
    if xs == [] then s
    else AddAll(Add(s, xs[0]), xs[1..])
  }

  /** `Array.from(new Set(xs))`: first occurrences, in order. */
  function Dedup<T(==, !new)>(xs: seq<T>): (r: seq<T>)
    ensures NoDup(r)
    ensures |r| <= |xs|
  {
    AddAll([], xs)
  }

  /** After `add(x)` the set holds its old elements and `x`, and nothing else. */
  lemma AddMembership<T(!new)>(s: seq<T>, x: T, y: T)
    ensures y in Add(s, x) <==> y in s || y == x
  {
  }

  /** After adding `xs` the set holds its old elements and those of `xs`, and nothing else. */
  lemma {:induction false} AddAllMembership<T(!new)>(s: seq<T>, xs: seq<T>, y: T)
    ensures y in AddAll(s, xs) <==> y in s || y in xs
    decreases |xs|
  {
    if xs != [] {
      AddMembership(s, xs[0], y);
      AddAllMembership(Add(s, xs[0]), xs[1..], y);
      assert xs == [xs[0]] + xs[1..];
    }
  }

  /** `Array.from(new Set(xs))` holds exactly the elements of `xs`. */
  lemma DedupMembership<T(!new)>(xs: seq<T>, y: T)
    ensures y in Dedup(xs) <==> y in xs
  {
    AddAllMembership([], xs, y);
  }

  /** Adding the elements one more at a time: the last `add` comes last. */
  lemma {:induction false} AddAllSnoc<T(!new)>(s: seq<T>, xs: seq<T>, x: T)
    ensures AddAll(s, xs + [x]) == Add(AddAll(s, xs), x)
    decreases |xs|
  {
    if xs == [] {
      assert [] + [x] == [x];
      assert [x][1..] == [];
    } else {
      assert (xs + [x])[0] == xs[0];
      assert (xs + [x])[1..] == xs[1..] + [x];
      AddAllSnoc(Add(s, xs[0]), xs[1..], x);
    }
  }
}
