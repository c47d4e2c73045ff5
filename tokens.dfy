/**
 * Order-keeping deletion from a token list, the one edit both cell
 * extractors (raspisanie_bot/parsing/parsers.py and .../timetable.py) make:
 * `del array[i]` and the subsequence relation it leaves behind.
 */
module Tokens {
  import opened Wrappers
  import opened Text

  /** `del a[i]`. */
  function Without<T>(a: seq<T>, i: nat): (r: seq<T>)
    requires i < |a|
    ensures |r| == |a| - 1
    ensures forall j :: 0 <= j < i ==> r[j] == a[j]
    ensures forall j :: i <= j < |r| ==> r[j] == a[j + 1]
  {
    a[..i] + a[i + 1..]
  }

  /** `x` is `y` with some elements deleted and the others in their order. */
  predicate IsSubseq<T(==)>(x: seq<T>, y: seq<T>)
    decreases |y|
  {
    if y == [] then x == []
    else (x != [] && x[0] == y[0] && IsSubseq(x[1..], y[1..])) || IsSubseq(x, y[1..])
  }

  lemma {:induction false} SubseqRefl<T>(x: seq<T>)
    ensures IsSubseq(x, x)
    decreases |x|
  {
    if x != [] {
      SubseqRefl(x[1..]);
    }
  }

  lemma {:induction false} SubseqEmpty<T>(y: seq<T>)
    ensures IsSubseq([], y)
    decreases |y|
  {
    if y != [] {
      SubseqEmpty(y[1..]);
    }
  }

  /** Deleting twice is deleting once. */
  lemma {:induction false} SubseqTrans<T>(x: seq<T>, y: seq<T>, z: seq<T>)
    requires IsSubseq(x, y) && IsSubseq(y, z)
    ensures IsSubseq(x, z)
    decreases |z|
  {
    if z != [] {
      if IsSubseq(y, z[1..]) {
        SubseqTrans(x, y, z[1..]);
      } else {
        assert y != [] && y[0] == z[0] && IsSubseq(y[1..], z[1..]);
        if x != [] && x[0] == y[0] && IsSubseq(x[1..], y[1..]) {
          SubseqTrans(x[1..], y[1..], z[1..]);
        } else {
          SubseqTrans(x, y[1..], z[1..]);
        }
      }
    }
  }

  /** Deleting from a prefix and from the rest. */
  lemma {:induction false} SubseqAppend<T>(x1: seq<T>, y1: seq<T>, x2: seq<T>, y2: seq<T>)
    requires IsSubseq(x1, y1) && IsSubseq(x2, y2)
    ensures IsSubseq(x1 + x2, y1 + y2)
    decreases |y1|
  {
    if y1 == [] {
      assert x1 + x2 == x2 && y1 + y2 == y2;
    } else {
      assert (y1 + y2)[1..] == y1[1..] + y2;
      if x1 != [] && x1[0] == y1[0] && IsSubseq(x1[1..], y1[1..]) {
        SubseqAppend(x1[1..], y1[1..], x2, y2);
        assert (x1 + x2)[1..] == x1[1..] + x2;
      } else {
        SubseqAppend(x1, y1[1..], x2, y2);
      }
    }
  }

  lemma SubseqDropHead<T>(h: T, x: seq<T>)
    ensures IsSubseq(x, [h] + x)
  {
    SubseqRefl(x);
    assert ([h] + x)[1..] == x;
  }

  /** One deletion keeps the order of what is left. */
  lemma WithoutSubseq<T>(a: seq<T>, i: nat)
    requires i < |a|
    ensures IsSubseq(Without(a, i), a)
  {
    var pre, post := a[..i], a[i + 1..];
    var y := [a[i]] + post;
    SubseqRefl(pre);
    SubseqDropHead(a[i], post);
    SubseqAppend(pre, pre, post, y);
    assert pre + y == a;
    assert pre + post == Without(a, i);
  }

  /** What one deletion removes. */
  lemma WithoutMultiset<T>(a: seq<T>, i: nat)
    requires i < |a|
    ensures multiset(a) == multiset(Without(a, i)) + multiset{a[i]}
  {
    assert a == a[..i] + [a[i]] + a[i + 1..];
  }

  /** A filter keeps the order, and what it drops is what the opposite filter `q` keeps. */
  lemma {:induction false} FilterSubseq<T>(s: seq<T>, p: T -> bool, q: T -> bool)
    requires forall x :: q(x) == !p(x)
    ensures IsSubseq(Filter(s, p), s)
    ensures multiset(s) == multiset(Filter(s, p)) + multiset(Filter(s, q))
    decreases |s|
  {
    if s != [] {
      FilterSubseq(s[1..], p, q);
      assert s == [s[0]] + s[1..];
      if p(s[0]) {
        assert Filter(s, p)[1..] == Filter(s[1..], p);
      } else {
        assert IsSubseq(Filter(s, p), s[1..]);
      }
    }
  }

  /** `xs.index(x)` when `x in xs`, otherwise `None`. */
  function IndexOf<T(==)>(xs: seq<T>, x: T): (r: Option<nat>)
    ensures r.Some? ==> r.value < |xs| && xs[r.value] == x
    ensures r.Some? ==> forall j :: 0 <= j < r.value ==> xs[j] != x
    ensures r.None? <==> forall j :: 0 <= j < |xs| ==> xs[j] != x
  {
    if xs == [] then None
    else if xs[0] == x then Some(0)
    else
      match IndexOf(xs[1..], x)
      case None =>
        assert forall j :: 1 <= j < |xs| ==> xs[j] == xs[1..][j - 1];
        None
      case Some(i) =>
        assert forall j :: 1 <= j <= i ==> xs[j] == xs[1..][j - 1];
        Some(i + 1)
  }

  /** `[i.lower() for i in array]`. */
  function LowerEach(a: seq<string>): (r: seq<string>)
    ensures |r| == |a| && forall i :: 0 <= i < |a| ==> r[i] == LowerAll(a[i])
  {
    seq(|a|, i requires 0 <= i < |a| => LowerAll(a[i]))
  }

  /** Deleting from both lists keeps `l_array` the lower-cased `array`. */
  lemma LowerEachWithout(a: seq<string>, i: nat)
    requires i < |a|
    ensures Without(LowerEach(a), i) == LowerEach(Without(a, i))
  {
  }

  /** Deleting the element between two parts leaves the parts. */
  lemma WithoutBetween<T>(x: seq<T>, e: T, y: seq<T>)
    ensures Without(x + [e] + y, |x|) == x + y
  {
    var a := x + [e] + y;
    assert a[..|x|] == x && a[|x| + 1..] == y;
  }

  /** Three deletions at `i`, `i - 1`, `i - 2` cut out `a[i - 2..i + 1]`. */
  lemma WithoutThree<T>(a: seq<T>, i: nat)
    requires 2 <= i < |a|
    ensures Without(Without(Without(a, i), i - 1), i - 2) == a[..i - 2] + a[i + 1..]
  {
  }

  /** Two deletions at `i`, `i - 1` cut out `a[i - 1..i + 1]`. */
  lemma WithoutTwo<T>(a: seq<T>, i: nat)
    requires 1 <= i < |a|
    ensures Without(Without(a, i), i - 1) == a[..i - 1] + a[i + 1..]
  {
  }

  /** Cutting out a run keeps the order of the rest. */
  lemma CutSubseq<T>(a: seq<T>, i: nat, j: nat)
    requires i <= j <= |a|
    ensures IsSubseq(a[..i] + a[j..], a)
  {
    var pre, mid, post := a[..i], a[i..], a[j..];
    SubseqRefl(pre);
    SubseqSuffix(mid, j - i);
    assert mid[j - i..] == post;
    SubseqAppend(pre, pre, post, mid);
    assert a == pre + mid;
  }

  /** Cutting out a run removes exactly the run. */
  lemma CutMultiset<T>(a: seq<T>, i: nat, j: nat)
    requires i <= j <= |a|
    ensures multiset(a) == multiset(a[..i] + a[j..]) + multiset(a[i..j])
  {
    assert a == a[..i] + a[i..j] + a[j..];
  }

  /** The three elements ending at `i`. */
  lemma SliceThree<T>(a: seq<T>, i: nat)
    requires 2 <= i < |a|
    ensures a[i - 2..i + 1] == [a[i - 2], a[i - 1], a[i]]
  {
  }

  lemma {:induction false} SubseqSuffix<T>(a: seq<T>, k: nat)
    requires k <= |a|
    ensures IsSubseq(a[k..], a)
    decreases k
  {
    if k == 0 {
      SubseqRefl(a);
      assert a[0..] == a;
    } else {
      SubseqSuffix(a[1..], k - 1);
      assert a[1..][k - 1..] == a[k..];
    }
  }
}
