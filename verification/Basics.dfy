/** Option, Result, bytes and the few sequence combinators the models share. */
module Basics {

  datatype Option<+T> = None | Some(value: T)

  datatype Result<+T, +E> = Ok(value: T) | Err(error: E)

  type byte = x: int | 0 <= x < 256
  type Bytes = seq<byte>

  function Min(a: int, b: int): int {
    if a <= b then a else b
  }

  /** The concatenation of `f` over `s`, in order. */
  function FlatMap<A, B>(f: A -> seq<B>, s: seq<A>): seq<B> {
    if s == [] then [] else f(s[0]) + FlatMap(f, s[1..])
  }

  /** The elements of `s` that satisfy `p`, in order. */
  function Select<A>(p: A -> bool, s: seq<A>): seq<A> {
    if s == [] then [] else (if p(s[0]) then [s[0]] else []) + Select(p, s[1..])
  }

  lemma {:induction false} FlatMapAppend<A, B>(f: A -> seq<B>, s: seq<A>, t: seq<A>)
    ensures FlatMap(f, s + t) == FlatMap(f, s) + FlatMap(f, t)
  {
    if s == [] {
      assert s + t == t;
    } else {
      var head, mid, last := f(s[0]), FlatMap(f, s[1..]), FlatMap(f, t);
      calc {
        FlatMap(f, s + t);
        { assert (s + t)[0] == s[0] && (s + t)[1..] == s[1..] + t; }
        head + FlatMap(f, s[1..] + t);
        { FlatMapAppend(f, s[1..], t); }
        head + (mid + last);
        (head + mid) + last;
      }
    }
  }

  lemma {:induction false} FlatMapSnoc<A, B>(f: A -> seq<B>, s: seq<A>, n: nat)
    requires n < |s|
    ensures FlatMap(f, s[..n + 1]) == FlatMap(f, s[..n]) + f(s[n])
  {
    assert s[..n + 1] == s[..n] + [s[n]];
    assert FlatMap(f, [s[n]]) == f(s[n]) + FlatMap(f, [s[n]][1..]);
    FlatMapAppend(f, s[..n], [s[n]]);
  }

  lemma {:induction false} SelectCons<A>(p: A -> bool, x: A, s: seq<A>)
    ensures Select(p, [x] + s) == (if p(x) then [x] else []) + Select(p, s)
  {
    assert ([x] + s)[1..] == s;
  }

  lemma {:induction false} SelectAppend<A>(p: A -> bool, s: seq<A>, t: seq<A>)
    ensures Select(p, s + t) == Select(p, s) + Select(p, t)
  {
    if s == [] {
      assert s + t == t;
    } else {
      var head, mid, last := if p(s[0]) then [s[0]] else [], Select(p, s[1..]), Select(p, t);
      calc {
        Select(p, s + t);
        { assert (s + t)[0] == s[0] && (s + t)[1..] == s[1..] + t; }
        head + Select(p, s[1..] + t);
        { SelectAppend(p, s[1..], t); }
        head + (mid + last);
        (head + mid) + last;
      }
    }
  }

  lemma {:induction false} SelectMember<A>(p: A -> bool, s: seq<A>, x: A)
    ensures x in Select(p, s) <==> x in s && p(x)
  {
    if s != [] {
      SelectMember(p, s[1..], x);
      assert s == [s[0]] + s[1..];
    }
  }

  lemma {:induction false} FlatMapMember<A, B>(f: A -> seq<B>, s: seq<A>, y: B)
    ensures y in FlatMap(f, s) <==> exists x :: x in s && y in f(x)
  {
    if s != [] {
      FlatMapMember(f, s[1..], y);
      assert s == [s[0]] + s[1..];
      if x :| x in s && y in f(x) && y !in f(s[0]) {
        assert x in s[1..];
      }
    }
  }

  lemma {:induction false} SelectAllOrNone<A>(p: A -> bool, s: seq<A>, keep: bool)
    requires forall x :: x in s ==> p(x) == keep
    ensures Select(p, s) == if keep then s else []
  {
    if s != [] {
      assert s[0] in s;
      SelectAllOrNone(p, s[1..], keep);
    }
  }

  /** Dropping elements that contribute nothing does not change a FlatMap. */
  lemma {:induction false} FlatMapSelect<A, B>(f: A -> seq<B>, p: A -> bool, s: seq<A>)
    requires forall x :: x in s && !p(x) ==> f(x) == []
    ensures FlatMap(f, Select(p, s)) == FlatMap(f, s)
  {
    if s != [] {
      assert s[0] in s;
      assert forall x :: x in s[1..] ==> x in s;
      FlatMapSelect(f, p, s[1..]);
      var rest := Select(p, s[1..]);
      if p(s[0]) {
        assert Select(p, s) == [s[0]] + rest;
        assert Select(p, s)[1..] == rest;
      } else {
        assert Select(p, s) == rest;
      }
    }
  }

  lemma {:induction false} FlatMapMiddle<A, B>(f: A -> seq<B>, before: seq<A>, x: A, after: seq<A>)
    ensures multiset(FlatMap(f, before + ([x] + after))) == multiset(f(x)) + multiset(FlatMap(f, before + after))
  {
    FlatMapAppend(f, before, after);
    FlatMapAppend(f, before, [x] + after);
    assert ([x] + after)[1..] == after;
    assert FlatMap(f, [x] + after) == f(x) + FlatMap(f, after);
  }

  lemma {:induction false} RemoveOne<A>(s: seq<A>, i: nat)
    requires i < |s|
    ensures s == s[..i] + ([s[i]] + s[i + 1..])
    ensures multiset(s[..i] + s[i + 1..]) == multiset(s) - multiset{s[i]}
  {
    assert s == s[..i] + ([s[i]] + s[i + 1..]);
    assert multiset(s) == multiset(s[..i]) + (multiset{s[i]} + multiset(s[i + 1..]));
  }

  /** Reordering the input only reorders a FlatMap. */
  lemma {:induction false} FlatMapPermutes<A, B>(f: A -> seq<B>, s: seq<A>, t: seq<A>)
    requires multiset(s) == multiset(t)
    ensures multiset(FlatMap(f, s)) == multiset(FlatMap(f, t))
    decreases |s|
  {
    if s == [] {
      assert |t| == |multiset(t)| == 0;
    } else {
      assert s[0] in multiset(t);
      var i: nat :| i < |t| && t[i] == s[0];
      RemoveOne(s, 0);
      RemoveOne(t, i);
      FlatMapPermutes(f, s[..0] + s[1..], t[..i] + t[i + 1..]);
      FlatMapMiddle(f, s[..0], s[0], s[1..]);
      FlatMapMiddle(f, t[..i], t[i], t[i + 1..]);
    }
  }

  /** g(lo), g(lo + 1), ..., g(hi - 1), concatenated. */
  ghost function Concat<T>(g: nat -> seq<T>, lo: nat, hi: nat): seq<T>
    decreases hi - lo
  {
    if lo >= hi then [] else g(lo) + Concat(g, lo + 1, hi)
  }

  lemma {:induction false} ConcatSplit<T>(g: nat -> seq<T>, a: nat, b: nat, c: nat)
    requires a <= b <= c
    ensures Concat(g, a, b) + Concat(g, b, c) == Concat(g, a, c)
    decreases b - a
  {
    if a < b {
      ConcatSplit(g, a + 1, b, c);
      assert g(a) + Concat(g, a + 1, b) + Concat(g, b, c) == g(a) + (Concat(g, a + 1, b) + Concat(g, b, c));
    }
  }

  /** Two functions agree on a stretch of numbers. */
  ghost predicate SameOn<T>(g: nat -> T, h: nat -> T, lo: nat, hi: nat) {
    forall k: nat :: lo <= k < hi ==> g(k) == h(k)
  }

  lemma {:induction false} ConcatSameOn<T>(g: nat -> seq<T>, h: nat -> seq<T>, lo: nat, hi: nat)
    requires SameOn(g, h, lo, hi)
    ensures Concat(g, lo, hi) == Concat(h, lo, hi)
  {
    ConcatSame(g, h, lo, hi);
  }

  lemma {:induction false} ConcatSame<T>(g: nat -> seq<T>, h: nat -> seq<T>, lo: nat, hi: nat)
    requires forall k :: lo <= k < hi ==> g(k) == h(k)
    ensures Concat(g, lo, hi) == Concat(h, lo, hi)
    decreases hi - lo
  {
    if lo < hi {
      ConcatSame(g, h, lo + 1, hi);
    }
  }

  lemma {:induction false} ConcatMember<T>(g: nat -> seq<T>, lo: nat, hi: nat, x: T)
    ensures x in Concat(g, lo, hi) <==> exists k: nat :: lo <= k < hi && x in g(k)
    decreases hi - lo
  {
    if lo < hi {
      ConcatMember(g, lo + 1, hi, x);
      var rest := Concat(g, lo + 1, hi);
      assert x in Concat(g, lo, hi) <==> x in g(lo) || x in rest;
      if x in g(lo) {
        assert exists k: nat :: lo <= k < hi && x in g(k);
      } else if x in rest {
        var k: nat :| lo + 1 <= k < hi && x in g(k);
        assert lo <= k < hi && x in g(k);
      }
    }
  }

  lemma {:induction false} FlatMapIsConcat<A, B>(f: A -> seq<B>, s: seq<A>, g: nat -> seq<B>, lo: nat)
    requires lo <= |s| && forall k :: 0 <= k < |s| ==> f(s[k]) == g(k)
    ensures FlatMap(f, s[lo..]) == Concat(g, lo, |s|)
    decreases |s| - lo
  {
    if lo < |s| {
      FlatMapIsConcat(f, s, g, lo + 1);
      assert s[lo..][1..] == s[lo + 1..];
    }
  }

  lemma {:induction false} FlatMapConcat<A, B>(f: A -> seq<B>, g: nat -> seq<A>, h: nat -> seq<B>, lo: nat, hi: nat)
    requires forall k :: lo <= k < hi ==> FlatMap(f, g(k)) == h(k)
    ensures FlatMap(f, Concat(g, lo, hi)) == Concat(h, lo, hi)
    decreases hi - lo
  {
    if lo < hi {
      FlatMapConcat(f, g, h, lo + 1, hi);
      FlatMapAppend(f, g(lo), Concat(g, lo + 1, hi));
    }
  }

  /** Pieces of which each starts one past the end of the one before it. */
  ghost predicate Adjoining(starts: seq<nat>, ends: seq<nat>) {
    && |starts| == |ends|
    && (forall i :: 0 <= i < |starts| ==> starts[i] <= ends[i] + 1)
    && forall j, k :: 0 <= j < k < |starts| && k == j + 1 ==> starts[k] == ends[j] + 1
  }

  /** Adjoining pieces make up the whole. */
  lemma {:induction false} PiecesJoin<A, T>(
      f: A -> seq<T>, xs: seq<A>, g: nat -> seq<T>, starts: seq<nat>, ends: seq<nat>, n: nat)
    requires 0 < n <= |xs| == |starts| && Adjoining(starts, ends)
    requires forall i :: 0 <= i < |xs| ==> f(xs[i]) == Concat(g, starts[i], ends[i] + 1)
    ensures starts[0] <= ends[n - 1] + 1
    ensures FlatMap(f, xs[..n]) == Concat(g, starts[0], ends[n - 1] + 1)
  {
    FlatMapSnoc(f, xs, n - 1);
    if n > 1 {
      PiecesJoin(f, xs, g, starts, ends, n - 1);
      assert starts[n - 1] == ends[n - 2] + 1;
      ConcatSplit(g, starts[0], starts[n - 1], ends[n - 1] + 1);
    }
  }
}
