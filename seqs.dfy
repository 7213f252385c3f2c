/** Generic sequence helpers standing in for Rust's `Vec` and iterator methods. */
module Seqs {
  import opened Wrappers

  /** `iter().position(|x| x == v)`: the first index holding `v`. */
  function FirstIndex<T(==)>(s: seq<T>, v: T): (r: Option<nat>)
    ensures r.None? <==> v !in s
    ensures r.Some? ==> r.value < |s| && s[r.value] == v && v !in s[..r.value]
  {
    if s == [] then None
    else if s[0] == v then Some(0)
    else match FirstIndex(s[1..], v)
      case None => None
      case Some(i) =>
        assert s[..i + 1] == [s[0]] + s[1..][..i];
        Some(i + 1)
  }

  /** Any index that holds `v` with no earlier `v` is the one `FirstIndex` finds. */
  lemma FirstIndexIs<T>(s: seq<T>, v: T, i: nat)
    requires i < |s| && s[i] == v && v !in s[..i]
    ensures FirstIndex(s, v) == Some(i)
  {
  }

  /** Extending a prefix by one element. */
  lemma PrefixExtend<T>(s: seq<T>, i: nat)
    requires i < |s|
    ensures s[..i + 1] == s[..i] + [s[i]]
  {
  }

  lemma InitLast<T>(s: seq<T>)
    requires s != []
    ensures s[..|s| - 1] + [s[|s| - 1]] == s
  {
  }

  /** The members of a non-empty sequence: those of its initial part and its last element. */
  lemma InInit<T>(s: seq<T>)
    requires s != []
    ensures forall x :: x in s <==> x in s[..|s| - 1] || x == s[|s| - 1]
  {
    assert s == s[..|s| - 1] + [s[|s| - 1]];
  }

  /** `Vec::remove(pos)`. */
  function RemoveAt<T>(s: seq<T>, pos: nat): (r: seq<T>)
    requires pos < |s|
    ensures |r| == |s| - 1
    ensures forall i :: 0 <= i < pos ==> r[i] == s[i]
    ensures forall i :: pos <= i < |r| ==> r[i] == s[i + 1]
  {
    s[..pos] + s[pos + 1..]
  }

  /** Removing a position takes exactly that element out of the multiset. */
  lemma RemoveAtMultiset<T>(s: seq<T>, pos: nat)
    requires pos < |s|
    ensures multiset(RemoveAt(s, pos)) + multiset{s[pos]} == multiset(s)
  {
    assert s == s[..pos] + [s[pos]] + s[pos + 1..];
  }

  /** `Vec::retain(|x| x != v)`: every occurrence of `v` dropped, order kept. */
  function Without<T(==,!new)>(s: seq<T>, v: T): (r: seq<T>)
    ensures v !in r
    ensures forall x :: x in r <==> x in s && x != v
    ensures |r| <= |s|
  {
    if s == [] then []
    else if s[0] == v then Without(s[1..], v)
    else [s[0]] + Without(s[1..], v)
  }

  /** Elements of `s` that are not in `drop`, in their original order. */
  function Exclude<T(==,!new)>(s: seq<T>, drop: set<T>): (r: seq<T>)
    ensures forall x :: x in r <==> x in s && x !in drop
    ensures |r| <= |s|
  {
    if s == [] then []
    else if s[0] in drop then Exclude(s[1..], drop)
    else [s[0]] + Exclude(s[1..], drop)
  }

  /** Retaining one value after another equals excluding all of them at once. */
  lemma {:induction false} WithoutThenExclude<T(!new)>(s: seq<T>, v: T, drop: set<T>)
    ensures Exclude(Without(s, v), drop) == Exclude(s, drop + {v})
  {
    if s != [] {
      WithoutThenExclude(s[1..], v, drop);
    }
  }

  /** The elements of a sequence as a set. */
  function Elements<T>(s: seq<T>): set<T>
  {
    set x | x in s
  }

  lemma {:induction false} ExcludeNothing<T(!new)>(s: seq<T>)
    ensures Exclude(s, {}) == s
  {
    if s != [] {
      ExcludeNothing(s[1..]);
    }
  }

  /** Excluding a value the sequence does not hold changes nothing. */
  lemma {:induction false} ExcludeAbsent<T(!new)>(s: seq<T>, v: T, drop: set<T>)
    requires v !in s
    ensures Exclude(s, drop + {v}) == Exclude(s, drop)
  {
    if s != [] {
      ExcludeAbsent(s[1..], v, drop);
    }
  }

  lemma {:induction false} WithoutAppend<T(!new)>(a: seq<T>, b: seq<T>, v: T)
    ensures Without(a + b, v) == Without(a, v) + Without(b, v)
  {
    if a == [] {
      assert a + b == b;
    } else {
      assert (a + b)[0] == a[0];
      assert (a + b)[1..] == a[1..] + b;
      WithoutAppend(a[1..], b, v);
    }
  }

  lemma {:induction false} WithoutAbsent<T(!new)>(s: seq<T>, v: T)
    requires v !in s
    ensures Without(s, v) == s
  {
    if s != [] {
      WithoutAbsent(s[1..], v);
    }
  }

  predicate NoDuplicates<T(==)>(s: seq<T>)
  {
    forall i, j :: 0 <= i < j < |s| ==> s[i] != s[j]
  }

  /**
   * In a sequence without duplicates, removing the first occurrence of `v`
   * is retaining everything but `v`, and leaves no duplicates.
   */
  lemma RemoveFirstIsWithout<T(!new)>(s: seq<T>, v: T, pos: nat)
    requires NoDuplicates(s) && pos < |s| && s[pos] == v
    ensures RemoveAt(s, pos) == Without(s, v)
    ensures NoDuplicates(RemoveAt(s, pos))
  {
    var pre, post := s[..pos], s[pos + 1..];
    assert s == pre + ([v] + post);
    assert RemoveAt(s, pos) == pre + post;
    UniqueOccurrence(s, pos);
    WithoutAppend(pre, [v] + post, v);
    WithoutAppend([v], post, v);
    WithoutAbsent(pre, v);
    WithoutAbsent(post, v);
    assert Without([v], v) == [];
    RemoveAtNoDuplicates(s, pos);
  }

  /** Without duplicates, the element at `pos` occurs neither before nor after it. */
  lemma UniqueOccurrence<T>(s: seq<T>, pos: nat)
    requires NoDuplicates(s) && pos < |s|
    ensures s[pos] !in s[..pos] && s[pos] !in s[pos + 1..]
  {
    assert forall k :: 0 <= k < pos ==> s[..pos][k] == s[k];
  }

  /** Removing an element keeps a sequence free of duplicates. */
  lemma RemoveAtNoDuplicates<T>(s: seq<T>, pos: nat)
    requires NoDuplicates(s) && pos < |s|
    ensures NoDuplicates(RemoveAt(s, pos))
  {
    var r := RemoveAt(s, pos);
    forall i, j | 0 <= i < j < |r| ensures r[i] != r[j] {
      var i', j' := if i < pos then i else i + 1, if j < pos then j else j + 1;
      assert r[i] == s[i'] && r[j] == s[j'];
    }
  }


  lemma NoDuplicatesInit<T>(s: seq<T>, x: T)
    requires NoDuplicates(s + [x])
    ensures NoDuplicates(s) && x !in s
  {
    assert forall i :: 0 <= i < |s| ==> (s + [x])[i] == s[i];
    assert (s + [x])[|s|] == x;
  }

  /** `s` lists every element of `elems` exactly once. */
  ghost predicate IsEnumeration<T(!new)>(s: seq<T>, elems: set<T>)
  {
    NoDuplicates(s) && (forall x :: x in s <==> x in elems)
  }

  /** `a` is `b` with some positions deleted. */
  predicate IsSubsequence<T(==)>(a: seq<T>, b: seq<T>)
    decreases |b|
  {
    |a| <= |b| &&
    (a == [] || (a[0] == b[0] && IsSubsequence(a[1..], b[1..])) || IsSubsequence(a, b[1..]))
  }

  lemma {:induction false} SubsequenceReflexive<T>(a: seq<T>)
    ensures IsSubsequence(a, a)
    decreases |a|
  {
    if a != [] {
      SubsequenceReflexive(a[1..]);
    }
  }

  lemma {:induction false} SubsequenceTransitive<T>(a: seq<T>, b: seq<T>, c: seq<T>)
    requires IsSubsequence(a, b) && IsSubsequence(b, c)
    ensures IsSubsequence(a, c)
    decreases |c|
  {
    if a == [] {
    } else if b[0] == c[0] && IsSubsequence(b[1..], c[1..]) {
      if a[0] == b[0] && IsSubsequence(a[1..], b[1..]) {
        SubsequenceTransitive(a[1..], b[1..], c[1..]);
      } else {
        SubsequenceTransitive(a, b[1..], c[1..]);
      }
    } else {
      SubsequenceTransitive(a, b, c[1..]);
    }
  }

  /** Removing one position leaves a subsequence. */
  lemma {:induction false} RemoveAtSubsequence<T>(s: seq<T>, pos: nat)
    requires pos < |s|
    ensures IsSubsequence(RemoveAt(s, pos), s)
    decreases pos
  {
    var r := RemoveAt(s, pos);
    if pos == 0 {
      assert r == s[1..];
      SubsequenceReflexive(s[1..]);
    } else {
      RemoveAtSubsequence(s[1..], pos - 1);
      assert RemoveAt(s[1..], pos - 1) == r[1..];
    }
  }

  /**
   * Lists the elements of a set in an order the caller cannot predict, the way a
   * `HashMap`'s keys come out of `keys()`.
   */
  method Enumerate<T(==,!new)>(elems: set<T>) returns (r: seq<T>)
    ensures IsEnumeration(r, elems)
    ensures |r| == |elems|
  {
    r := [];
    var rest := elems;
    while rest != {}
      invariant rest <= elems
      invariant NoDuplicates(r)
      invariant forall x :: x in r <==> x in elems && x !in rest
      invariant |r| + |rest| == |elems|
      decreases |rest|
    {
      var x :| x in rest;
      r := r + [x];
      rest := rest - {x};
    }
  }

  /** Concatenation is associative. */
  lemma AppendAssoc<T>(x: seq<T>, y: seq<T>, z: seq<T>)
    ensures (x + y) + z == x + (y + z)
  {
  }

  /** Taking the last element of `a` out of a permutation `b` of it leaves a permutation of the rest of `a`. */
  lemma PermutationRest<T>(a: seq<T>, b: seq<T>, k: nat)
    requires multiset(a) == multiset(b) && a != []
    requires k < |b| && b[k] == a[|a| - 1]
    ensures multiset(RemoveAt(b, k)) == multiset(a[..|a| - 1])
  {
    RemoveAtMultiset(b, k);
    var x := a[|a| - 1];
    assert a == a[..|a| - 1] + [x];
    assert multiset(a) == multiset(a[..|a| - 1]) + multiset{x};
    var l, r := multiset(RemoveAt(b, k)), multiset(a[..|a| - 1]);
    assert l + multiset{x} == r + multiset{x};
    forall y
      ensures l[y] == r[y]
    {
      assert (l + multiset{x})[y] == (r + multiset{x})[y];
    }
  }

  /** Taking one more element of `b` after `a`. */
  lemma AppendPrefixStep<T>(a: seq<T>, b: seq<T>, j: nat)
    requires j < |b|
    ensures a + b[..j + 1] == (a + b[..j]) + [b[j]]
  {
    assert b[..j + 1] == b[..j] + [b[j]];
  }
}
