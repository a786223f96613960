/** Slice filters: map a function over a slice, or keep (choose) or remove (drop)
    the elements on which a predicate holds, either into a new slice or by
    compacting the slice in place. Go's reflection-typed arguments become Dafny
    type parameters and a function parameter; a Go slice is an array (its backing
    store) and, for the in-place choose/drop, the new length. */
module Filter {

  /** The elements of s on which f returns `truth`, in their original order. */
  function Kept<T>(s: seq<T>, f: T -> bool, truth: bool): (r: seq<T>)
    ensures |r| <= |s|
    ensures forall k :: 0 <= k < |r| ==> f(r[k]) == truth
  {
    if s == [] then []
    else (if f(s[0]) == truth then [s[0]] else []) + Kept(s[1..], f, truth)
  }

  /** Kept distributes over concatenation. */
  lemma {:induction false} KeptAppend<T>(a: seq<T>, b: seq<T>, f: T -> bool, truth: bool)
    ensures Kept(a + b, f, truth) == Kept(a, f, truth) + Kept(b, f, truth)
  {
    if a == [] {
      assert a + b == b;
    } else {
      assert (a + b)[1..] == a[1..] + b;
      KeptAppend(a[1..], b, f, truth);
    }
  }

  /** An element is kept exactly when it occurs in the input and f gives `truth` on it. */
  lemma {:induction false} KeptMembership<T>(s: seq<T>, f: T -> bool, truth: bool, x: T)
    ensures x in Kept(s, f, truth) <==> x in s && f(x) == truth
  {
    if s != [] {
      KeptMembership(s[1..], f, truth, x);
      assert s == [s[0]] + s[1..];
    }
  }

  /** Choose and Drop split the input: together they hold every element exactly as often
      as the input does. */
  lemma {:induction false} ChooseDropPartition<T>(s: seq<T>, f: T -> bool)
    ensures multiset(Kept(s, f, true)) + multiset(Kept(s, f, false)) == multiset(s)
    ensures |Kept(s, f, true)| + |Kept(s, f, false)| == |s|
  {
    if s != [] {
      ChooseDropPartition(s[1..], f);
      assert s == [s[0]] + s[1..];
    }
  }

  /** Apply: a newly allocated slice holding f of each input element; the input is untouched. */
  method Apply<T, U(0)>(a: array<T>, f: T -> U) returns (r: array<U>)
    ensures fresh(r) && r.Length == a.Length
    ensures forall i :: 0 <= i < a.Length ==> r[i] == f(a[i])
  {
    // A zero-filled slice of the input's length, then filled one element at a time.
    r := new U[a.Length];
    var i := 0;
    while i < a.Length
      invariant 0 <= i <= a.Length
      invariant forall k :: 0 <= k < i ==> r[k] == f(a[k])
    {
      r[i] := f(a[i]);
      i := i + 1;
    }
  }

  /** ApplyInPlace: every element is overwritten by f of its old value. */
  method ApplyInPlace<T>(a: array<T>, f: T -> T)
    modifies a
    ensures forall i :: 0 <= i < a.Length ==> a[i] == f(old(a[i]))
  {
    var i := 0;
    while i < a.Length
      invariant 0 <= i <= a.Length
      invariant forall k :: 0 <= k < i ==> a[k] == f(old(a[k]))
      invariant forall k :: i <= k < a.Length ==> a[k] == old(a[k])
    {
      a[i] := f(a[i]);
      i := i + 1;
    }
  }

  /** The first pass of chooseOrDrop: the indices of the kept elements, strictly
      increasing, so that the kept elements are exactly a[which[0]], a[which[1]], ... */
  method Which<T>(a: array<T>, f: T -> bool, truth: bool) returns (which: seq<nat>)
    ensures forall k :: 0 <= k < |which| ==> which[k] < a.Length
    ensures forall k, l :: 0 <= k < l < |which| ==> which[k] < which[l]
    ensures forall i :: 0 <= i < a.Length ==> (f(a[i]) == truth <==> i in which)
    ensures |which| == |Kept(a[..], f, truth)|
    ensures forall k :: 0 <= k < |which| ==> a[which[k]] == Kept(a[..], f, truth)[k]
  {
    which := [];
    var i := 0;
    while i < a.Length
      invariant 0 <= i <= a.Length
      invariant forall k :: 0 <= k < |which| ==> which[k] < i
      invariant forall k, l :: 0 <= k < l < |which| ==> which[k] < which[l]
      invariant forall j :: 0 <= j < i ==> (f(a[j]) == truth <==> j in which)
      invariant |which| == |Kept(a[..i], f, truth)|
      invariant forall k :: 0 <= k < |which| ==> a[which[k]] == Kept(a[..i], f, truth)[k]
    {
      assert a[..i + 1] == a[..i] + [a[i]];
      KeptAppend(a[..i], [a[i]], f, truth);
      if f(a[i]) == truth {
        which := which + [i];
      }
      i := i + 1;
    }
    assert a[..i] == a[..];
  }

  /** A strictly increasing sequence of naturals has which[i] >= i. */
  lemma {:induction false} IncreasingAtLeastIndex(which: seq<nat>, i: nat)
    requires i < |which|
    requires forall k, l :: 0 <= k < l < |which| ==> which[k] < which[l]
    ensures i <= which[i]
  {
    if i > 0 {
      IncreasingAtLeastIndex(which, i - 1);
    }
  }

  /** chooseOrDrop, copying: a new slice of the kept elements, in order. */
  method ChooseOrDrop<T(0)>(a: array<T>, f: T -> bool, truth: bool) returns (r: array<T>)
    ensures fresh(r) && r[..] == Kept(a[..], f, truth)
  {
    var which := Which(a, f, truth);
    r := new T[|which|];
    var i := 0;
    while i < |which|
      invariant 0 <= i <= |which|
      invariant forall k :: 0 <= k < i ==> r[k] == a[which[k]]
    {
      r[i] := a[which[i]];
      i := i + 1;
    }
  }

  /** chooseOrDrop, in place (the general path): the kept elements are copied to the front;
      each copy reads an index at or after the one it writes, so no element is overwritten
      before it is read. The slice's new length is n; what lies beyond it is untouched. */
  method ChooseOrDropInPlace<T>(a: array<T>, f: T -> bool, truth: bool) returns (n: nat)
    modifies a
    ensures n <= a.Length
    ensures a[..n] == Kept(old(a[..]), f, truth)
    ensures a[n..] == old(a[n..])
  {
    var which := Which(a, f, truth);
    ghost var kept := Kept(a[..], f, truth);
    n := |which|;
    var i := 0;
    while i < n
      invariant 0 <= i <= n <= a.Length
      invariant forall k :: 0 <= k < i ==> a[k] == kept[k]
      invariant forall k :: i <= k < a.Length ==> a[k] == old(a[k])
    {
      IncreasingAtLeastIndex(which, i);
      a[i] := a[which[i]];
      i := i + 1;
    }
    assert a[..n] == kept;
  }

  /** The fast path for []string in place: one pass that appends each kept element to
      the prefix of the same backing array. The write index never passes the read index. */
  method ChooseOrDropStringsInPlace(a: array<string>, f: string -> bool, truth: bool) returns (n: nat)
    modifies a
    ensures n <= a.Length
    ensures a[..n] == Kept(old(a[..]), f, truth)
    ensures a[n..] == old(a[n..])
  {
    n := 0;
    var i := 0;
    while i < a.Length
      invariant 0 <= n <= i <= a.Length
      invariant a[..n] == Kept(old(a[..i]), f, truth)
      invariant forall k :: n <= k < a.Length ==> a[k] == old(a[k])
    {
      assert old(a[..i + 1]) == old(a[..i]) + [old(a[i])];
      KeptAppend(old(a[..i]), [old(a[i])], f, truth);
      if f(a[i]) == truth {
        a[n] := a[i];
        n := n + 1;
      }
      i := i + 1;
    }
    assert old(a[..i]) == old(a[..]);
  }

  /** The fast path for []string when copying: append the kept elements to a nil slice. */
  method ChooseOrDropStrings(s: seq<string>, f: string -> bool, truth: bool) returns (r: seq<string>)
    ensures r == Kept(s, f, truth)
  {
    r := [];
    var i := 0;
    while i < |s|
      invariant 0 <= i <= |s|
      invariant r == Kept(s[..i], f, truth)
    {
      assert s[..i + 1] == s[..i] + [s[i]];
      KeptAppend(s[..i], [s[i]], f, truth);
      if f(s[i]) == truth {
        r := r + [s[i]];
      }
      i := i + 1;
    }
    assert s[..i] == s;
  }

  /** Choose: a new slice of exactly the elements satisfying f, in order. */
  method Choose<T(0)>(a: array<T>, f: T -> bool) returns (r: array<T>)
    ensures fresh(r) && r[..] == Kept(a[..], f, true)
  {
    r := ChooseOrDrop(a, f, true);
  }

  /** Drop: a new slice of exactly the elements not satisfying f, in order. */
  method Drop<T(0)>(a: array<T>, f: T -> bool) returns (r: array<T>)
    ensures fresh(r) && r[..] == Kept(a[..], f, false)
  {
    r := ChooseOrDrop(a, f, false);
  }

  /** ChooseInPlace: the slice is shortened to the elements satisfying f, in order. */
  method ChooseInPlace<T>(a: array<T>, f: T -> bool) returns (n: nat)
    modifies a
    ensures n <= a.Length && a[..n] == Kept(old(a[..]), f, true)
  {
    n := ChooseOrDropInPlace(a, f, true);
  }

  /** DropInPlace: the slice is shortened to the elements not satisfying f, in order. */
  method DropInPlace<T>(a: array<T>, f: T -> bool) returns (n: nat)
    modifies a
    ensures n <= a.Length && a[..n] == Kept(old(a[..]), f, false)
  {
    n := ChooseOrDropInPlace(a, f, false);
  }
}
