/**
 The list of storage prefixes fetched ahead of a batch: pushed call by call, then
 sorted, deduplicated and drained of what the cache already holds.
 */
module Prefetch {
  import opened Basics
  import opened Runtime

  /** The library's suffixes for an account's code and metadata. */
  datatype Suffixes = Suffixes(code: Bytes, metadata: Bytes)

  /** The prefixes one call asks for, in the order they are pushed. */
  function Wanted(x: Suffixes, call: Result<SignedTx, Error>): seq<Bytes> {
    match call
    case Err(_) => []
    case Ok(stx) =>
      (if stx.tx.action.CallTo? then [stx.tx.action.to + x.code, stx.tx.action.to + x.metadata] else [])
      + [stx.sender + x.metadata]
  }

  function WantedBy(x: Suffixes): Result<SignedTx, Error> -> seq<Bytes> {
    (call: Result<SignedTx, Error>) => Wanted(x, call)
  }

  // ------------------------------------------------------ lexicographic order

  predicate Less(a: Bytes, b: Bytes) {
    b != [] && (a == [] || a[0] < b[0] || (a[0] == b[0] && Less(a[1..], b[1..])))
  }

  lemma {:induction false} LessTransitive(a: Bytes, b: Bytes, c: Bytes)
    requires Less(a, b) && Less(b, c)
    ensures Less(a, c)
  {
    if a != [] && a[0] == b[0] == c[0] {
      LessTransitive(a[1..], b[1..], c[1..]);
    }
  }

  lemma {:induction false} LessIrreflexive(a: Bytes)
    ensures !Less(a, a)
  {
    if a != [] {
      LessIrreflexive(a[1..]);
    }
  }

  lemma {:induction false} LessTotal(a: Bytes, b: Bytes)
    requires a != b
    ensures Less(a, b) || Less(b, a)
  {
    if a != [] && b != [] && a[0] == b[0] {
      assert a == [a[0]] + a[1..] && b == [b[0]] + b[1..];
      LessTotal(a[1..], b[1..]);
    }
  }

  /** One list of bytes comes first iff it is a proper beginning of the other, or has the
      smaller byte at the first place where they differ. */
  lemma {:induction false} LessIsLexicographic(a: Bytes, b: Bytes)
    ensures Less(a, b) <==>
      || a < b
      || exists i :: 0 <= i < |a| && i < |b| && a[..i] == b[..i] && a[i] < b[i]
  {
    if a != [] && b != [] && a[0] == b[0] {
      LessIsLexicographic(a[1..], b[1..]);
      assert a == [a[0]] + a[1..] && b == [b[0]] + b[1..];
      if i :| 0 <= i < |a| && i < |b| && a[..i] == b[..i] && a[i] < b[i] {
        assert i > 0 && a[1..][..i - 1] == a[..i][1..] && b[1..][..i - 1] == b[..i][1..];
        assert a[1..][i - 1] < b[1..][i - 1];
      }
      if i :| 0 <= i < |a[1..]| && i < |b[1..]| && a[1..][..i] == b[1..][..i] && a[1..][i] < b[1..][i] {
        assert a[..i + 1] == [a[0]] + a[1..][..i] && b[..i + 1] == [b[0]] + b[1..][..i];
        assert a[i + 1] < b[i + 1];
      }
    } else if a != [] && b != [] && a[0] < b[0] {
      assert a[..0] == b[..0];
    }
  }

  /** In order, equal neighbours allowed. */
  ghost predicate Sorted(s: seq<Bytes>) {
    forall i, j :: 0 <= i < j < |s| ==> s[i] == s[j] || Less(s[i], s[j])
  }

  /** In order and without repetition. */
  ghost predicate StrictlySorted(s: seq<Bytes>) {
    forall i, j :: 0 <= i < j < |s| ==> Less(s[i], s[j])
  }

  ghost predicate SameElements(s: seq<Bytes>, t: seq<Bytes>) {
    forall k :: k in s <==> k in t
  }

  lemma {:induction false} SameFirst(s: seq<Bytes>, t: seq<Bytes>)
    requires StrictlySorted(s) && StrictlySorted(t) && SameElements(s, t) && s != []
    ensures t != [] && s[0] == t[0]
  {
    assert s[0] in t;
    assert t[0] in s;
    if s[0] != t[0] {
      LessTransitive(s[0], t[0], s[0]);
      LessIrreflexive(s[0]);
      assert false;
    }
  }

  lemma {:induction false} TailElements(s: seq<Bytes>, t: seq<Bytes>)
    requires StrictlySorted(s) && StrictlySorted(t) && SameElements(s, t)
    requires s != [] && t != [] && s[0] == t[0]
    ensures SameElements(s[1..], t[1..])
  {
    forall k ensures k in s[1..] <==> k in t[1..] {
      LessIrreflexive(s[0]);
      assert k in s <==> k == s[0] || k in s[1..];
      assert k in t <==> k == t[0] || k in t[1..];
    }
  }

  /** A strictly sorted list is determined by its elements. */
  lemma {:induction false} SortedListIsCanonical(s: seq<Bytes>, t: seq<Bytes>)
    requires StrictlySorted(s) && StrictlySorted(t) && SameElements(s, t)
    ensures s == t
  {
    if s != [] {
      SameFirst(s, t);
      TailElements(s, t);
      SortedListIsCanonical(s[1..], t[1..]);
    } else if t != [] {
      SameFirst(t, s);
      assert false;
    }
  }

  // ------------------------------------------------------------- the list

  function Insert(k: Bytes, s: seq<Bytes>): (t: seq<Bytes>)
    requires Sorted(s)
    ensures Sorted(t) && multiset(t) == multiset(s) + multiset{k}
  {
    if s == [] then [k]
    else if !Less(s[0], k) then
      InsertBefore(k, s);
      [k] + s
    else
      var rest := Insert(k, s[1..]);
      InsertAfter(k, s, rest);
      [s[0]] + rest
  }

  lemma {:induction false} InsertBefore(k: Bytes, s: seq<Bytes>)
    requires Sorted(s) && s != [] && !Less(s[0], k)
    ensures Sorted([k] + s)
  {
    forall j | 0 <= j < |s| ensures k == s[j] || Less(k, s[j]) {
      if k != s[0] {
        LessTotal(k, s[0]);
        if s[0] != s[j] {
          LessTransitive(k, s[0], s[j]);
        }
      }
    }
  }

  lemma {:induction false} InsertAfter(k: Bytes, s: seq<Bytes>, rest: seq<Bytes>)
    requires Sorted(s) && s != [] && Less(s[0], k)
    requires Sorted(rest) && multiset(rest) == multiset(s[1..]) + multiset{k}
    ensures Sorted([s[0]] + rest) && multiset([s[0]] + rest) == multiset(s) + multiset{k}
  {
    assert s == [s[0]] + s[1..];
    forall j | 0 <= j < |rest| ensures s[0] == rest[j] || Less(s[0], rest[j]) {
      assert rest[j] in multiset(rest);
      assert rest[j] == k || rest[j] in s[1..];
    }
  }

  method PrefetchList(x: Suffixes, calls: seq<Result<SignedTx, Error>>, cached: set<Bytes>)
    returns (prefixes: seq<Bytes>)
    ensures StrictlySorted(prefixes)
    ensures forall k :: k in prefixes <==> k in FlatMap(WantedBy(x), calls) && k !in cached
  {
    var pushed := [];
    for i := 0 to |calls|
      invariant pushed == FlatMap(WantedBy(x), calls[..i])
    {
      pushed := pushed + Wanted(x, calls[i]);
      FlatMapSnoc(WantedBy(x), calls, i);
    }
    assert calls[..|calls|] == calls;
    var sorted := SortPrefixes(pushed);
    assert forall k :: k in sorted <==> k in multiset(sorted);
    var unique := Dedup(sorted);
    prefixes := Drain(unique, cached);
  }

  method SortPrefixes(s: seq<Bytes>) returns (t: seq<Bytes>)
    ensures Sorted(t) && multiset(t) == multiset(s)
  {
    t := [];
    for i := 0 to |s|
      invariant Sorted(t) && multiset(t) == multiset(s[..i])
    {
      t := Insert(s[i], t);
      assert s[..i + 1] == s[..i] + [s[i]];
    }
    assert s[..|s|] == s;
  }

  /** Drops every element equal to the one before it. */
  method Dedup(s: seq<Bytes>) returns (t: seq<Bytes>)
    requires Sorted(s)
    ensures StrictlySorted(t) && SameElements(s, t)
  {
    t := [];
    for i := 0 to |s|
      invariant StrictlySorted(t) && SameElements(s[..i], t)
      invariant if i == 0 then t == [] else t != [] && t[|t| - 1] == s[i - 1]
    {
      if t == [] || t[|t| - 1] != s[i] {
        AppendLarger(t, s[i]);
        t := t + [s[i]];
      }
      assert s[..i + 1] == s[..i] + [s[i]];
    }
    assert s[..|s|] == s;
  }

  lemma {:induction false} AppendLarger(t: seq<Bytes>, k: Bytes)
    requires StrictlySorted(t) && (t != [] ==> Less(t[|t| - 1], k))
    ensures StrictlySorted(t + [k])
  {
    forall i | 0 <= i < |t| ensures Less(t[i], k) {
      if i < |t| - 1 {
        LessTransitive(t[i], t[|t| - 1], k);
      }
    }
  }

  method Drain(s: seq<Bytes>, cached: set<Bytes>) returns (t: seq<Bytes>)
    requires StrictlySorted(s)
    ensures StrictlySorted(t) && forall k :: k in t <==> k in s && k !in cached
  {
    t := [];
    for i := 0 to |s|
      invariant StrictlySorted(t) && forall k :: k in t <==> k in s[..i] && k !in cached
    {
      assert s[..i + 1] == s[..i] + [s[i]];
      if s[i] !in cached {
        assert forall k :: k in t ==> Less(k, s[i]);
        t := t + [s[i]];
      }
    }
    assert s[..|s|] == s;
  }

  /** A key a call asks for: metadata of its sender, and code and metadata of the account it
      calls. */
  ghost predicate AsksFor(x: Suffixes, stx: SignedTx, k: Bytes) {
    || k == stx.sender + x.metadata
    || (stx.tx.action.CallTo? && (k == stx.tx.action.to + x.code || k == stx.tx.action.to + x.metadata))
  }

  /** What is prefetched: a key that some decoded call of the batch asks for. */
  lemma {:induction false} PrefetchedIffAskedFor(x: Suffixes, calls: seq<Result<SignedTx, Error>>, k: Bytes)
    ensures k in FlatMap(WantedBy(x), calls) <==>
      exists i :: 0 <= i < |calls| && calls[i].Ok? && AsksFor(x, calls[i].value, k)
  {
    var f := WantedBy(x);
    FlatMapMember(f, calls, k);
    if k in FlatMap(f, calls) {
      var call :| call in calls && k in f(call);
      var i :| 0 <= i < |calls| && calls[i] == call;
      assert k in Wanted(x, calls[i]);
      assert calls[i].Ok? && AsksFor(x, calls[i].value, k);
    }
    if i :| 0 <= i < |calls| && calls[i].Ok? && AsksFor(x, calls[i].value, k) {
      assert k in Wanted(x, calls[i]);
      assert calls[i] in calls && k in f(calls[i]);
    }
  }

  /** The list depends only on which prefixes the calls ask for, not on the order of
      the calls or on how often they ask. */
  lemma {:induction false} PrefetchIsCanonical(
      x: Suffixes, a: seq<Result<SignedTx, Error>>, b: seq<Result<SignedTx, Error>>,
      cached: set<Bytes>, p: seq<Bytes>, q: seq<Bytes>)
    requires forall k :: k in FlatMap(WantedBy(x), a) <==> k in FlatMap(WantedBy(x), b)
    requires StrictlySorted(p) && forall k :: k in p <==> k in FlatMap(WantedBy(x), a) && k !in cached
    requires StrictlySorted(q) && forall k :: k in q <==> k in FlatMap(WantedBy(x), b) && k !in cached
    ensures p == q
  {
    SortedListIsCanonical(p, q);
  }
}
