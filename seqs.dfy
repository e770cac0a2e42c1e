/** Sequence helpers shared by every part of the model: optional values, duplicate-freedom,
    order-preserving filters, Python's slice `s[:n]` and de-duplication. */
module Seqs {

  datatype Option<T> = None | Some(value: T)

  /** The set of elements of `s`. */
  function Elems<T>(s: seq<T>): set<T>
  {
    set x | x in s
  }

  /** No element occurs twice in `s`. */
  predicate NoDup<T(==)>(s: seq<T>)
  {
    forall i, j | 0 <= i < j < |s| :: s[i] != s[j]
  }

  /** Python's `s[:n]` for n >= 0. */
  function Take<T>(s: seq<T>, n: nat): (r: seq<T>)
  {
    s[..if |s| <= n then |s| else n]
  }

  /** The elements of `s` that satisfy `p`, in their original order. */
  function Filter<T>(s: seq<T>, p: T -> bool): (r: seq<T>)
    ensures |r| <= |s|
    ensures forall x | x in r :: x in s && p(x)
  {
    if s == [] then [] else (if p(s[0]) then [s[0]] else []) + Filter(s[1..], p)
  }

  /** The elements of `s` that do not satisfy `p`, in their original order. */
  function FilterOut<T>(s: seq<T>, p: T -> bool): (r: seq<T>)
    ensures |r| <= |s|
    ensures forall x | x in r :: x in s && !p(x)
  {
    if s == [] then [] else (if p(s[0]) then [] else [s[0]]) + FilterOut(s[1..], p)
  }

  /** `f` applied to every element of `s`. */
  function MapSeq<T, U>(s: seq<T>, f: T -> U): (r: seq<U>)
    ensures |r| == |s|
  {
    seq(|s|, i requires 0 <= i < |s| => f(s[i]))
  }

  /** The value of an option as a sequence of at most one element. */
  function Listed<T>(o: Option<T>): (r: seq<T>)
    ensures |r| <= 1 && (forall x | x in r :: o == Some(x)) && (o.Some? ==> o.value in r)
  {
    if o.Some? then [o.value] else []
  }

  /** The values `f` gives to the elements of `s`, in order, skipping the elements it gives none to. */
  function FilterMap<T, U>(s: seq<T>, f: T -> Option<U>): (r: seq<U>)
    ensures |r| <= |s|
  {
    if s == [] then [] else Listed(f(s[0])) + FilterMap(s[1..], f)
  }

  /** The sequences `f` gives to the elements of `s`, concatenated in order. */
  function FlatMap<T, U>(s: seq<T>, f: T -> seq<U>): (r: seq<U>)
  {
    if s == [] then [] else f(s[0]) + FlatMap(s[1..], f)
  }

  /** The first occurrence of every element of `s`, in order of first occurrence. */
  function Distinct<T(==)>(s: seq<T>): (r: seq<T>)
    ensures NoDup(r)
    ensures Elems(r) == Elems(s)
    ensures |r| <= |s|
  {
    if s == [] then []
    else
      var init := Distinct(s[..|s| - 1]);
      var last := s[|s| - 1];
      assert s == s[..|s| - 1] + [last];
      assert Elems(s) == Elems(s[..|s| - 1]) + {last};
      if last in init then init
      else
        assert Elems(init + [last]) == Elems(init) + {last};
        init + [last]
  }

  lemma {:induction false} FilterAppend<T>(a: seq<T>, b: seq<T>, p: T -> bool)
    ensures Filter(a + b, p) == Filter(a, p) + Filter(b, p)
  {
    if a == [] {
      assert a + b == b;
    } else {
      assert (a + b)[1..] == a[1..] + b;
      FilterAppend(a[1..], b, p);
    }
  }

  lemma {:induction false} FilterOutAppend<T>(a: seq<T>, b: seq<T>, p: T -> bool)
    ensures FilterOut(a + b, p) == FilterOut(a, p) + FilterOut(b, p)
  {
    if a == [] {
      assert a + b == b;
    } else {
      assert (a + b)[1..] == a[1..] + b;
      FilterOutAppend(a[1..], b, p);
    }
  }

  /** Filtering a sequence extended by one element. */
  lemma FilterSnoc<T>(s: seq<T>, x: T, p: T -> bool)
    ensures Filter(s + [x], p) == Filter(s, p) + (if p(x) then [x] else [])
  {
    FilterAppend(s, [x], p);
    assert Filter([x], p) == (if p(x) then [x] else []) + Filter([x][1..], p);
    assert [x][1..] == [];
  }

  lemma FilterOutSnoc<T>(s: seq<T>, x: T, p: T -> bool)
    ensures FilterOut(s + [x], p) == FilterOut(s, p) + (if p(x) then [] else [x])
  {
    FilterOutAppend(s, [x], p);
    assert FilterOut([x], p) == (if p(x) then [] else [x]) + FilterOut([x][1..], p);
    assert [x][1..] == [];
  }

  /** Every element of `s` that satisfies `p` survives the filter. */
  lemma {:induction false} FilterKeeps<T>(s: seq<T>, p: T -> bool, x: T)
    requires x in s && p(x)
    ensures x in Filter(s, p)
  {
    if s[0] != x {
      FilterKeeps(s[1..], p, x);
    }
  }

  /** Splitting by a predicate and concatenating the two parts loses and adds nothing. */
  lemma {:induction false} FilterPartition<T>(s: seq<T>, p: T -> bool)
    ensures multiset(Filter(s, p)) + multiset(FilterOut(s, p)) == multiset(s)
  {
    if s != [] {
      var head := [s[0]];
      FilterPartition(s[1..], p);
      assert s == head + s[1..];
      if p(s[0]) {
        assert Filter(s, p) == head + Filter(s[1..], p);
        assert FilterOut(s, p) == FilterOut(s[1..], p);
      } else {
        assert Filter(s, p) == Filter(s[1..], p);
        assert FilterOut(s, p) == head + FilterOut(s[1..], p);
      }
    }
  }

  lemma MapSeqAppend<T, U>(a: seq<T>, b: seq<T>, f: T -> U)
    ensures MapSeq(a + b, f) == MapSeq(a, f) + MapSeq(b, f)
  {
    assert forall i | 0 <= i < |a| + |b| :: MapSeq(a + b, f)[i] == (MapSeq(a, f) + MapSeq(b, f))[i];
  }

  /** A duplicate-free sequence has as many elements as its set. */
  lemma {:induction false} NoDupCard<T>(s: seq<T>)
    requires NoDup(s)
    ensures |Elems(s)| == |s|
  {
    if s != [] {
      var init := s[..|s| - 1];
      assert s == init + [s[|s| - 1]];
      assert NoDup(init);
      NoDupCard(init);
      assert Elems(s) == Elems(init) + {s[|s| - 1]};
      assert s[|s| - 1] !in Elems(init);
    }
  }

  /** Appending an element that is not yet present keeps a sequence duplicate-free. */
  lemma NoDupSnoc<T>(s: seq<T>, x: T)
    requires NoDup(s) && x !in s
    ensures NoDup(s + [x])
  {
  }

  /** Removing the first element keeps a sequence duplicate-free. */
  lemma NoDupTail<T>(s: seq<T>)
    requires NoDup(s) && s != []
    ensures NoDup(s[1..])
  {
  }

  /** Putting an element that is not yet present in front keeps a sequence duplicate-free. */
  lemma NoDupCons<T>(x: T, s: seq<T>)
    requires NoDup(s) && x !in s
    ensures NoDup([x] + s)
  {
    assert forall i | 0 < i < |[x] + s| :: ([x] + s)[i] == s[i - 1] && s[i - 1] in s;
  }

  /** Both halves of a duplicate-free sequence are duplicate-free. */
  lemma {:induction false} FilterNoDup<T>(s: seq<T>, p: T -> bool)
    requires NoDup(s)
    ensures NoDup(Filter(s, p)) && NoDup(FilterOut(s, p))
  {
    if s != [] {
      NoDupTail(s);
      FilterNoDup(s[1..], p);
      assert s[0] !in s[1..];
      if p(s[0]) {
        NoDupCons(s[0], Filter(s[1..], p));
      } else {
        NoDupCons(s[0], FilterOut(s[1..], p));
      }
    }
  }

  lemma {:induction false} FilterMapAppend<T, U>(a: seq<T>, b: seq<T>, f: T -> Option<U>)
    ensures FilterMap(a + b, f) == FilterMap(a, f) + FilterMap(b, f)
  {
    if a == [] {
      assert a + b == b;
    } else {
      var head := Listed(f(a[0]));
      assert (a + b)[0] == a[0] && (a + b)[1..] == a[1..] + b;
      FilterMapAppend(a[1..], b, f);
      assert FilterMap(a + b, f) == head + (FilterMap(a[1..], f) + FilterMap(b, f));
    }
  }

  lemma {:induction false} FlatMapAppend<T, U>(a: seq<T>, b: seq<T>, f: T -> seq<U>)
    ensures FlatMap(a + b, f) == FlatMap(a, f) + FlatMap(b, f)
  {
    if a == [] {
      assert a + b == b;
    } else {
      var head := f(a[0]);
      assert (a + b)[0] == a[0] && (a + b)[1..] == a[1..] + b;
      FlatMapAppend(a[1..], b, f);
      assert FlatMap(a + b, f) == head + (FlatMap(a[1..], f) + FlatMap(b, f));
    }
  }

  /** Concatenating over a sequence extended by one element. */
  lemma FlatMapSnoc<T, U>(s: seq<T>, x: T, f: T -> seq<U>)
    ensures FlatMap(s + [x], f) == FlatMap(s, f) + f(x)
  {
    FlatMapAppend(s, [x], f);
    assert [x][1..] == [];
  }

  /** Mapping a sequence extended by one element. */
  lemma FilterMapSnoc<T, U>(s: seq<T>, x: T, f: T -> Option<U>)
    ensures FilterMap(s + [x], f) == FilterMap(s, f) + Listed(f(x))
  {
    FilterMapAppend(s, [x], f);
    assert [x][1..] == [];
  }

  /** Mapping at most one element. */
  lemma FilterMapListed<T, U>(o: Option<T>, f: T -> Option<U>)
    ensures FilterMap(Listed(o), f) == if o.Some? then Listed(f(o.value)) else []
  {
    if o.Some? {
      assert Listed(o)[1..] == [];
    }
  }

  /** Two mappings in turn over one more element append what that element yields. */
  lemma FilterMapThenSnoc<T, U, V>(s: seq<T>, x: T, f: T -> Option<U>, g: U -> Option<V>)
    ensures FilterMap(FilterMap(s + [x], f), g)
         == FilterMap(FilterMap(s, f), g) + (if f(x).Some? then Listed(g(f(x).value)) else [])
  {
    FilterMapSnoc(s, x, f);
    FilterMapAppend(FilterMap(s, f), Listed(f(x)), g);
    FilterMapListed(f(x), g);
  }

  /** The same, for the element at index `i` after the first `i`. */
  lemma FilterMapThenStep<T, U, V>(s: seq<T>, i: int, f: T -> Option<U>, g: U -> Option<V>)
    requires 0 <= i < |s|
    ensures FilterMap(FilterMap(s[..i + 1], f), g)
         == FilterMap(FilterMap(s[..i], f), g) + (if f(s[i]).Some? then Listed(g(f(s[i]).value)) else [])
  {
    assert s[..i + 1] == s[..i] + [s[i]];
    FilterMapThenSnoc(s[..i], s[i], f, g);
  }

  /** Every value comes from an element, and every element `f` gives a value to contributes it. */
  lemma {:induction false} FilterMapSpec<T, U>(s: seq<T>, f: T -> Option<U>)
    ensures forall y | y in FilterMap(s, f) :: exists x | x in s :: f(x) == Some(y)
    ensures forall x | x in s && f(x).Some? :: f(x).value in FilterMap(s, f)
  {
    if s != [] {
      FilterMapSpec(s[1..], f);
      assert forall x | x in s :: x == s[0] || x in s[1..];
      assert forall x | x in s[1..] :: x in s;
    }
  }
}
