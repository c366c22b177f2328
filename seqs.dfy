/** Generic helpers shared by every module: an Option type, JavaScript's
    `Array.from(new Set(xs))` (deduplication that keeps first occurrences),
    `String.prototype.split`, and filtering. */
module Seqs {

  datatype Option<T> = None | Some(value: T)

  predicate Distinct<T(==)>(xs: seq<T>) {
    forall i, j :: 0 <= i < j < |xs| ==> xs[i] != xs[j]
  }

  /** Index of the first occurrence of `x` in `xs`. */
  function FirstIndex<T(==)>(xs: seq<T>, x: T): (k: nat)
    requires x in xs
    ensures k < |xs| && xs[k] == x && x !in xs[..k]
  {
    if xs[0] == x then 0 else 1 + FirstIndex(xs[1..], x)
  }

  /** `Array.from(new Set(xs))`: the elements of `xs`, each once, in the order
      of their first occurrence. */
  function Dedup<T(==, !new)>(xs: seq<T>): (r: seq<T>)
    ensures Distinct(r)
    ensures forall x :: x in r <==> x in xs
    ensures |r| <= |xs|
    decreases |xs|
  {
    if xs == [] then []
    else
      var d := Dedup(xs[..|xs| - 1]);
      if xs[|xs| - 1] in d then d else d + [xs[|xs| - 1]]
  }

  /** A sequence without repetitions is its own deduplication. */
  lemma {:induction false} DedupOfDistinct<T(!new)>(xs: seq<T>)
    requires Distinct(xs)
    ensures Dedup(xs) == xs
    decreases |xs|
  {
    if xs != [] {
      var init := xs[..|xs| - 1];
      DedupOfDistinct(init);
      assert xs[|xs| - 1] !in init;
      assert init + [xs[|xs| - 1]] == xs;
    }
  }

  /** Deduplication keeps first-occurrence order: earlier elements of the
      result first occur earlier in the input. */
  lemma {:induction false} DedupKeepsFirstOccurrenceOrder<T(!new)>(xs: seq<T>, i: nat, j: nat)
    requires i < j < |Dedup(xs)|
    ensures FirstIndex(xs, Dedup(xs)[i]) < FirstIndex(xs, Dedup(xs)[j])
    decreases |xs|
  {
    var init := xs[..|xs| - 1];
    var last := xs[|xs| - 1];
    var d := Dedup(init);
    var r := Dedup(xs);
    assert r[i] in init by {
      if last in d {
        assert r[i] in d;
      } else {
        assert r == d + [last];
        assert i < |d|;
        assert r[i] in d;
      }
    }
    FirstIndexOfPrefix(xs, init, r[i]);
    if last in d || j < |d| {
      assert r[j] in d;
      FirstIndexOfPrefix(xs, init, r[j]);
      DedupKeepsFirstOccurrenceOrder(init, i, j);
    } else {
      assert r == d + [last] && j == |d|;
      assert last !in init;
      assert FirstIndex(xs, last) == |xs| - 1;
    }
  }

  lemma FirstIndexOfPrefix<T>(xs: seq<T>, init: seq<T>, x: T)
    requires |init| <= |xs| && init == xs[..|init|] && x in init
    ensures x in xs && FirstIndex(xs, x) == FirstIndex(init, x)
  {
    var k := FirstIndex(init, x);
    var m := FirstIndex(xs, x);
    assert xs[k] == x;
    assert xs[..m] == init[..m];
  }

  /** Elements satisfying `p`, in their original order (`Array.prototype.filter`). */
  function Filter<T(!new)>(xs: seq<T>, p: T -> bool): (r: seq<T>)
    ensures |r| <= |xs|
    ensures forall x :: x in r <==> x in xs && p(x)
  {
    if xs == [] then []
    else if p(xs[0]) then [xs[0]] + Filter(xs[1..], p)
    else Filter(xs[1..], p)
  }

  /** Filtering distributes over concatenation, so the order of the kept
      elements is the order of the input. */
  lemma {:induction false} FilterAppend<T(!new)>(a: seq<T>, b: seq<T>, p: T -> bool)
    ensures Filter(a + b, p) == Filter(a, p) + Filter(b, p)
  {
    if a != [] {
      assert (a + b)[1..] == a[1..] + b;
      FilterAppend(a[1..], b, p);
    } else {
      assert a + b == b;
    }
  }

  /** Filtering keeps first-occurrence order: of two kept elements, the one
      that first occurs earlier in the result first occurs earlier in the
      input. */
  lemma {:induction false} FilterKeepsFirstOccurrenceOrder<T(!new)>(xs: seq<T>, p: T -> bool, t: T, u: T)
    requires t in Filter(xs, p) && u in Filter(xs, p)
    requires FirstIndex(Filter(xs, p), t) < FirstIndex(Filter(xs, p), u)
    ensures t in xs && u in xs && FirstIndex(xs, t) < FirstIndex(xs, u)
    decreases |xs|
  {
    if p(xs[0]) {
      if t != xs[0] {
        assert u != xs[0];
        FilterKeepsFirstOccurrenceOrder(xs[1..], p, t, u);
      }
    } else {
      FilterKeepsFirstOccurrenceOrder(xs[1..], p, t, u);
    }
  }

  /** A filter that keeps everything is the identity. */
  lemma {:induction false} FilterKeepsAll<T(!new)>(xs: seq<T>, p: T -> bool)
    requires forall k :: 0 <= k < |xs| ==> p(xs[k])
    ensures Filter(xs, p) == xs
  {
    if xs != [] {
      FilterKeepsAll(xs[1..], p);
    }
  }

  /** Position of the last occurrence of `x` in `s[..e]`. */
  function LastIndexBelow<T(==)>(s: seq<T>, x: T, e: nat): (r: Option<nat>)
    requires e <= |s|
    ensures r.Some? ==> r.value < e && s[r.value] == x && forall k :: r.value < k < e ==> s[k] != x
    ensures r.None? ==> forall k :: 0 <= k < e ==> s[k] != x
    decreases e
  {
    if e == 0 then None
    else if s[e - 1] == x then Some(e - 1)
    else LastIndexBelow(s, x, e - 1)
  }

  /** Position of the last occurrence of `x` in `s` (`lastIndexOf`). */
  function LastIndexOf<T(==)>(s: seq<T>, x: T): (r: Option<nat>)
    ensures r.Some? ==> r.value < |s| && s[r.value] == x && x !in s[r.value + 1..]
    ensures r.None? ==> x !in s
  {
    var r := LastIndexBelow(s, x, |s|);
    r
  }

  /** The last occurrence is the occurrence after which none follows. */
  lemma LastIndexOfAt<T>(s: seq<T>, x: T, v: nat)
    requires v < |s| && s[v] == x
    requires forall k :: v < k < |s| ==> s[k] != x
    ensures LastIndexOf(s, x) == Some(v)
  {
    assert s[v] in s;
    var w := LastIndexOf(s, x).value;
    assert forall k :: w < k < |s| ==> s[k] == s[w + 1..][k - w - 1];
  }

  lemma LastIndexOfJoin<T>(head: seq<T>, x: T, tail: seq<T>)
    requires x !in tail
    ensures LastIndexOf(head + [x] + tail, x) == Some(|head|)
  {
    var s := head + [x] + tail;
    assert s[|head|] == x;
    assert forall k :: 0 <= k < |tail| ==> tail[k] != x;
    assert forall k :: 0 <= k < |tail| ==> s[|head| + 1 + k] == tail[k];
    LastIndexOfAt(s, x, |head|);
  }

  /** `s.split(sep)`: the pieces between separators, empty pieces included. */
  function Split<T(==)>(s: seq<T>, sep: T): (r: seq<seq<T>>)
    ensures |r| >= 1
    ensures forall piece :: piece in r ==> sep !in piece
    ensures IsPrefix(r[0], s)
    ensures |r| == 1 <==> sep !in s
    ensures |r| == 1 ==> r[0] == s
    decreases |s|
  {
    if s == [] then [[]]
    else
      var rest := Split(s[1..], sep);
      if s[0] == sep then [[]] + rest
      else [[s[0]] + rest[0]] + rest[1..]
  }

  /** Pieces joined with the separator between them (`Array.prototype.join`). */
  function Join<T>(pieces: seq<seq<T>>, sep: T): seq<T>
  {
    if pieces == [] then []
    else if |pieces| == 1 then pieces[0]
    else pieces[0] + [sep] + Join(pieces[1..], sep)
  }

  /** Joining the pieces of a split gives back the input. */
  lemma {:induction false} JoinSplit<T>(s: seq<T>, sep: T)
    ensures Join(Split(s, sep), sep) == s
    decreases |s|
  {
    if s != [] {
      JoinSplit(s[1..], sep);
      if s[0] == sep {
        JoinSplitAtSep(s, sep);
      } else {
        JoinSplitAtOther(s, sep);
      }
    }
  }

  lemma JoinSplitAtSep<T>(s: seq<T>, sep: T)
    requires s != [] && s[0] == sep
    requires Join(Split(s[1..], sep), sep) == s[1..]
    ensures Join(Split(s, sep), sep) == s
  {
    var rest := Split(s[1..], sep);
    assert Split(s, sep) == [[]] + rest;
    JoinEmptyFirst(rest, sep);
    assert [sep] + s[1..] == s;
  }

  /** An empty first piece puts a separator in front of the joined text. */
  lemma JoinEmptyFirst<T>(rest: seq<seq<T>>, sep: T)
    requires rest != []
    ensures Join([[]] + rest, sep) == [sep] + Join(rest, sep)
  {
    var pieces := [[]] + rest;
    assert pieces[1..] == rest;
    assert pieces[0] + [sep] == [sep];
  }

  lemma JoinSplitAtOther<T>(s: seq<T>, sep: T)
    requires s != [] && s[0] != sep
    requires Join(Split(s[1..], sep), sep) == s[1..]
    ensures Join(Split(s, sep), sep) == s
  {
    var rest := Split(s[1..], sep);
    assert Split(s, sep) == [[s[0]] + rest[0]] + rest[1..];
    JoinConsFirst(s[0], rest[0], rest[1..], sep);
    assert [rest[0]] + rest[1..] == rest;
    assert [s[0]] + s[1..] == s;
  }

  /** Putting an element in front of the first piece puts it in front of
      the joined text. */
  lemma JoinConsFirst<T>(x: T, p: seq<T>, tail: seq<seq<T>>, sep: T)
    ensures Join([[x] + p] + tail, sep) == [x] + Join([p] + tail, sep)
  {
    if tail != [] {
      assert ([[x] + p] + tail)[1..] == tail;
      assert ([p] + tail)[1..] == tail;
    }
  }

  /** Splitting a piece free of separators, a separator and the rest gives
      that piece followed by the pieces of the rest. */
  lemma {:induction false} SplitAfterPiece<T>(a: seq<T>, sep: T, b: seq<T>)
    requires sep !in a
    ensures Split(a + [sep] + b, sep) == [a] + Split(b, sep)
    decreases |a|
  {
    var s := a + [sep] + b;
    if a == [] {
      assert s == [sep] + b;
      assert s[1..] == b;
    } else {
      assert s[1..] == a[1..] + [sep] + b;
      SplitAfterPiece(a[1..], sep, b);
      assert [s[0]] + a[1..] == a;
    }
  }

  /** Splitting a join of separator-free pieces gives back the pieces. */
  lemma {:induction false} SplitJoin<T>(pieces: seq<seq<T>>, sep: T)
    requires |pieces| >= 1
    requires forall k :: 0 <= k < |pieces| ==> sep !in pieces[k]
    ensures Split(Join(pieces, sep), sep) == pieces
    decreases |pieces|
  {
    if |pieces| == 1 {
      assert Join(pieces, sep) == pieces[0];
    } else {
      SplitJoin(pieces[1..], sep);
      SplitAfterPiece(pieces[0], sep, Join(pieces[1..], sep));
      assert [pieces[0]] + pieces[1..] == pieces;
    }
  }

  /** Concatenation is associative. */
  lemma ConcatAssoc<T>(x: seq<T>, y: seq<T>, z: seq<T>)
    ensures x + y + z == x + (y + z)
  {
  }

  /** The three pieces of `x + m + y` can be cut back out of it. */
  lemma Framed<T>(x: seq<T>, m: seq<T>, y: seq<T>)
    ensures var r := x + m + y;
      && r[..|x|] == x && r[|r| - |y|..] == y && r[|x|..|r| - |y|] == m
      && r[|x|..] == m + y && r[..|x| + |m|] == x + m
  {
  }

  /** `Boolean(s)` for a string: it is not empty. */
  predicate NonEmpty<T>(s: seq<T>) { s != [] }

  predicate IsPrefix<T(==)>(p: seq<T>, s: seq<T>) {
    |p| <= |s| && p == s[..|p|]
  }
}
