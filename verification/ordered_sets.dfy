/**
 A JavaScript `Set` holds each value at most once and remembers insertion order:
 `Array.from(s)` and `s.forEach` visit the elements oldest first. A set is therefore
 modelled as a sequence without duplicates, oldest element first.
 */
module OrderedSets {

  /** No value occurs twice. */
  ghost predicate NoDup<T>(s: seq<T>) {
    forall i, j :: 0 <= i < j < |s| ==> s[i] != s[j]
  }

  /** The values held, forgetting order. */
  function Elems<T>(s: seq<T>): set<T> {
    set x | x in s
  }

  /** `s.add(x)`: a new value goes to the end, an existing one keeps its place. */
  function Add<T(==)>(s: seq<T>, x: T): (r: seq<T>)
    ensures Elems(r) == Elems(s) + {x}
    ensures |s| <= |r| && r[..|s|] == s
    ensures NoDup(s) ==> NoDup(r)
    ensures x in s ==> r == s
  {
    if x in s then s else s + [x]
  }

  /** `s.delete(x)`: `x` leaves, the others keep their relative order. */
  function Delete<T(==)>(s: seq<T>, x: T): (r: seq<T>)
    ensures Elems(r) == Elems(s) - {x}
    ensures |r| <= |s|
    ensures NoDup(s) ==> NoDup(r)
    ensures x !in s ==> r == s
  {
    if s == [] then []
    else
      var rest := Delete(s[1..], x);
      if s[0] == x then
        ConsParts(s);
        rest
      else
        DeleteKeepsHead(s, x, rest);
        [s[0]] + rest
  }

  /** The step of `Delete` that keeps the head in front of the filtered tail. */
  lemma DeleteKeepsHead<T>(s: seq<T>, x: T, rest: seq<T>)
    requires s != [] && s[0] != x
    requires Elems(rest) == Elems(s[1..]) - {x}
    requires NoDup(s[1..]) ==> NoDup(rest)
    requires x !in s[1..] ==> rest == s[1..]
    ensures Elems([s[0]] + rest) == Elems(s) - {x}
    ensures NoDup(s) ==> NoDup([s[0]] + rest)
    ensures x !in s ==> [s[0]] + rest == s
  {
    ConsParts(s);
    ConsParts([s[0]] + rest);
  }

  /** A non-empty sequence is its head in front of its tail, for both views of a set. */
  lemma ConsParts<T>(s: seq<T>)
    requires s != []
    ensures s == [s[0]] + s[1..]
    ensures Elems(s) == {s[0]} + Elems(s[1..])
    ensures NoDup(s) <==> s[0] !in s[1..] && NoDup(s[1..])
  {
  }

  /** `xs.forEach(x => s.add(x))`. */
  function AddAll<T(==)>(s: seq<T>, xs: seq<T>): (r: seq<T>)
    ensures Elems(r) == Elems(s) + Elems(xs)
    ensures |s| <= |r| && r[..|s|] == s
    ensures NoDup(s) ==> NoDup(r)
    decreases |xs|
  {
    if xs == [] then s
    else
      var s' := Add(s, xs[0]);
      var r := AddAll(s', xs[1..]);
      assert r[..|s|] == r[..|s'|][..|s|];
      r
  }

  /** `xs.forEach(x => s.delete(x))`. */
  function DeleteAll<T(==)>(s: seq<T>, xs: seq<T>): (r: seq<T>)
    ensures Elems(r) == Elems(s) - Elems(xs)
    ensures |r| <= |s|
    ensures NoDup(s) ==> NoDup(r)
    decreases |xs|
  {
    if xs == [] then s
    else
      assert Elems(xs) == {xs[0]} + Elems(xs[1..]);
      DeleteAll(Delete(s, xs[0]), xs[1..])
  }

  /** `new Set(xs)`: the distinct values of `xs` in order of first occurrence. */
  function FromSeq<T(==)>(xs: seq<T>): (r: seq<T>)
    ensures NoDup(r)
    ensures Elems(r) == Elems(xs)
  {
    AddAll([], xs)
  }

  /** Deleting a present value cuts it out where it stands; everything before and
      after it stays in order. */
  lemma {:induction false} DeleteAt<T>(s: seq<T>, x: T, k: nat)
    requires NoDup(s) && k < |s| && s[k] == x
    ensures Delete(s, x) == s[..k] + s[k + 1..]
    decreases |s|
  {
    ConsParts(s);
    if k == 0 {
      assert x !in s[1..];
    } else {
      assert s[0] != x;
      assert s[1..][k - 1] == x;
      DeleteAt(s[1..], x, k - 1);
      assert [s[0]] + (s[1..][..k - 1] + s[1..][k..]) == s[..k] + s[k + 1..];
    }
  }

  /** The `forEach` of `add` calls, split at its last step: adding `xs + [x]` is
      adding `xs` and then `x`. */
  lemma {:induction false} AddAllSnoc<T>(s: seq<T>, xs: seq<T>, x: T)
    ensures AddAll(s, xs + [x]) == Add(AddAll(s, xs), x)
    decreases |xs|
  {
    if xs == [] {
      assert [] + [x] == [x];
      assert [x][1..] == [];
    } else {
      assert (xs + [x])[0] == xs[0];
      assert (xs + [x])[1..] == xs[1..] + [x];
      AddAllSnoc(Add(s, xs[0]), xs[1..], x);
    }
  }

  /** `new Set(xs)` is built left to right: the empty input gives the empty set, and
      each further value is added at the end if it is new. So the result lists the
      distinct values of `xs` in order of first occurrence. */
  lemma FromSeqSteps<T>(xs: seq<T>, x: T)
    ensures FromSeq<T>([]) == []
    ensures FromSeq(xs + [x]) == Add(FromSeq(xs), x)
  {
    AddAllSnoc([], xs, x);
  }

  /** The values of `s` that are not in `xs`, in their order in `s`: a reference
      filter, independent of how the deletes are carried out. */
  function Without<T(==)>(s: seq<T>, xs: seq<T>): seq<T> {
    if s == [] then [] else (if s[0] in xs then [] else [s[0]]) + Without(s[1..], xs)
  }

  /** Filtering out nothing keeps everything. */
  lemma {:induction false} WithoutEmpty<T>(s: seq<T>)
    ensures Without(s, []) == s
    decreases |s|
  {
    if s != [] {
      WithoutEmpty(s[1..]);
    }
  }

  /** One `delete` is the filter by that single value. */
  lemma {:induction false} DeleteIsWithout<T>(s: seq<T>, x: T)
    ensures Delete(s, x) == Without(s, [x])
    decreases |s|
  {
    if s != [] {
      DeleteIsWithout(s[1..], x);
    }
  }

  /** Filtering by `a` and then by `b` is filtering by both. */
  lemma {:induction false} WithoutTwice<T>(s: seq<T>, a: seq<T>, b: seq<T>)
    ensures Without(Without(s, a), b) == Without(s, a + b)
    decreases |s|
  {
    if s != [] {
      WithoutTwice(s[1..], a, b);
      var head := if s[0] in a then [] else [s[0]];
      assert Without(s, a) == head + Without(s[1..], a);
      if s[0] in a {
        assert [] + Without(s[1..], a) == Without(s[1..], a);
      } else {
        assert Without(s, a)[0] == s[0];
        assert Without(s, a)[1..] == Without(s[1..], a);
      }
    }
  }

  /** The `forEach` of `delete` calls keeps exactly the values not in the batch,
      in their original order. */
  lemma {:induction false} DeleteAllIsWithout<T>(s: seq<T>, xs: seq<T>)
    ensures DeleteAll(s, xs) == Without(s, xs)
    decreases |xs|
  {
    if xs == [] {
      WithoutEmpty(s);
    } else {
      DeleteAllIsWithout(Delete(s, xs[0]), xs[1..]);
      DeleteIsWithout(s, xs[0]);
      WithoutTwice(s, [xs[0]], xs[1..]);
      assert [xs[0]] + xs[1..] == xs;
    }
  }

  /** Adding values that are all present already changes nothing. */
  lemma {:induction false} AddAllPresent<T>(s: seq<T>, xs: seq<T>)
    requires Elems(xs) <= Elems(s)
    ensures AddAll(s, xs) == s
    decreases |xs|
  {
    if xs != [] {
      assert xs[0] in Elems(xs);
      assert Elems(xs[1..]) <= Elems(xs);
      AddAllPresent(s, xs[1..]);
    }
  }

  /** Deleting values none of which is present changes nothing. */
  lemma {:induction false} DeleteAllAbsent<T>(s: seq<T>, xs: seq<T>)
    requires Elems(xs) !! Elems(s)
    ensures DeleteAll(s, xs) == s
    decreases |xs|
  {
    if xs != [] {
      assert xs[0] in Elems(xs);
      assert Elems(xs[1..]) <= Elems(xs);
      DeleteAllAbsent(s, xs[1..]);
    }
  }

  /** A batch of `add` calls is idempotent, order included. */
  lemma AddAllIdempotent<T>(s: seq<T>, xs: seq<T>)
    ensures AddAll(AddAll(s, xs), xs) == AddAll(s, xs)
  {
    AddAllPresent(AddAll(s, xs), xs);
  }

  /** A batch of `delete` calls is idempotent, order included. */
  lemma DeleteAllIdempotent<T>(s: seq<T>, xs: seq<T>)
    ensures DeleteAll(DeleteAll(s, xs), xs) == DeleteAll(s, xs)
  {
    DeleteAllAbsent(DeleteAll(s, xs), xs);
  }

  /** Adding fresh distinct values appends them in order. */
  lemma {:induction false} AddAllFresh<T>(s: seq<T>, xs: seq<T>)
    requires NoDup(s + xs)
    ensures AddAll(s, xs) == s + xs
    decreases |xs|
  {
    if xs != [] {
      assert (s + xs)[|s|] == xs[0];
      assert xs[0] !in s by {
        forall i | 0 <= i < |s| ensures s[i] != xs[0] {
          assert s[i] == (s + xs)[i];
        }
      }
      assert s + [xs[0]] + xs[1..] == s + xs;
      AddAllFresh(s + [xs[0]], xs[1..]);
    }
  }

  /** `new Set(Array.from(s))` rebuilds `s` with the same order. */
  lemma FromSeqOfSet<T>(xs: seq<T>)
    requires NoDup(xs)
    ensures FromSeq(xs) == xs
  {
    assert [] + xs == xs;
    AddAllFresh([], xs);
  }
}
