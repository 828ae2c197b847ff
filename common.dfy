/** Small helpers shared by the other modules: an optional value (the C# null
    reference), the substring test behind `string.Contains`, and facts about
    finite sets and integer division that the proofs reuse. */
module Common {

  /** C# `byte`. */
  type Byte = x: int | 0 <= x < 256

  /** C# `int`. */
  type Int32 = x: int | -0x8000_0000 <= x < 0x8000_0000

  /** A value that may be absent, standing for a C# reference that may be null. */
  datatype Option<+T> = None | Some(value: T)

  /** `s.Contains(t)` of C#: `t` occurs somewhere in `s` as a contiguous run. */
  predicate Contains(s: string, t: string)
    decreases |s|
  {
    |t| <= |s| && (s[..|t|] == t || (|s| > 0 && Contains(s[1..], t)))
  }

  /** `t` occurs in `s` starting at position `i`. */
  predicate OccursAt(s: string, t: string, i: int)
  {
    0 <= i <= |s| - |t| && s[i..i + |t|] == t
  }

  /** `Contains` is exactly "`t` occurs at some position of `s`". */
  lemma {:induction false} ContainsWindow(s: string, t: string)
    ensures Contains(s, t) <==> exists i :: OccursAt(s, t, i)
    decreases |s|
  {
    if |t| <= |s| && s[..|t|] == t {
      assert OccursAt(s, t, 0);
    } else if |t| <= |s| && |s| > 0 {
      ContainsWindow(s[1..], t);
      if Contains(s[1..], t) {
        var i :| OccursAt(s[1..], t, i);
        assert s[i + 1..i + 1 + |t|] == s[1..][i..i + |t|];
        assert OccursAt(s, t, i + 1);
      }
      if exists i :: OccursAt(s, t, i) {
        var i :| OccursAt(s, t, i);
        assert i != 0;
        assert s[1..][i - 1..i - 1 + |t|] == s[i..i + |t|];
        assert OccursAt(s[1..], t, i - 1);
      }
    }
  }

  /** A set of integers is empty or has an element (stated without a
      precondition so that callers can pick an element with `:|`). */
  lemma HasElement(s: set<int>)
    ensures s == {} || exists x :: x in s
  {
    if forall x :: x !in s {
      assert s == {};
    }
  }

  /** A subset is never larger than its superset. */
  lemma {:induction false} SubsetCard(a: set<int>, b: set<int>)
    requires a <= b
    ensures |a| <= |b|
    decreases |b|
  {
    if b != {} {
      HasElement(b);
      var x :| x in b;
      if x in a {
        SubsetCard(a - {x}, b - {x});
      } else {
        SubsetCard(a, b - {x});
      }
    }
  }

  lemma MulMono(a: int, b: int, c: int)
    requires a <= b && c >= 0
    ensures a * c <= b * c
  {
  }

  /** Integer division as C# performs it: the quotient truncated toward zero
      (Dafny's own `/` is Euclidean). */
  function Quot(a: int, b: int): (q: int)
    requires b != 0
    ensures a >= 0 && b > 0 ==> q == a / b
    ensures q * b == a - Rem(a, b)
  {
    if a >= 0 && b > 0 then a / b
    else if a >= 0 then -(a / -b)
    else if b > 0 then -((-a) / b)
    else (-a) / (-b)
  }

  /** The C# remainder, which takes the sign of the dividend. */
  function Rem(a: int, b: int): (r: int)
    requires b != 0
    ensures a >= 0 ==> 0 <= r < (if b > 0 then b else -b)
    ensures a < 0 ==> -(if b > 0 then b else -b) < r <= 0
  {
    if a >= 0 then a % (if b > 0 then b else -b) else -((-a) % (if b > 0 then b else -b))
  }

  /** A mean lies between the bounds of what was summed: if `lo * n <= s <= hi * n`
      then `lo <= s / n <= hi`. */
  lemma QuotBetween(s: int, n: int, lo: int, hi: int)
    requires n >= 1 && lo >= 0 && lo * n <= s <= hi * n
    ensures lo <= Quot(s, n) <= hi
  {
    var q := s / n;
    MulMono(0, lo, n);
    if q < lo {
      MulMono(q + 1, lo, n);
    }
    if q > hi {
      MulMono(hi + 1, q, n);
    }
  }

  /** Row-major addressing: index `y * w + x` of a raster `w` wide lies in
      column `x` of row `y`. */
  lemma {:induction false} RowMajor(y: int, x: int, w: int)
    requires 0 <= x < w && y >= 0
    ensures (y * w + x) / w == y && (y * w + x) % w == x
  {
    var n := y * w + x;
    var q, r := n / w, n % w;
    assert n == q * w + r;
    assert (y - q) * w == r - x;
    if y - q >= 1 {
      MulMono(1, y - q, w);
    } else if y - q <= -1 {
      MulMono(y - q, -1, w);
    }
  }

  /** An index inside a `w`-by-`h` raster is below `w * h`. */
  lemma RowMajorBound(y: int, x: int, w: int, h: int)
    requires 0 <= x < w && 0 <= y < h
    ensures 0 <= y * w + x < w * h
  {
    MulMono(y + 1, h, w);
    MulMono(0, y, w);
  }

  /** An index below a product shows that both factors are positive. */
  lemma ProductPositive(i: int, a: int, b: int)
    requires a >= 0 && b >= 0 && 0 <= i < a * b
    ensures a > 0 && b > 0
  {
  }

  /** An index below `w * h` lies in a row below `h`. */
  lemma RowBelowHeight(i: nat, w: nat, h: nat)
    requires w > 0 && i < w * h
    ensures i / w < h
  {
    if i / w >= h {
      MulMono(h, i / w, w);
    }
  }
}
