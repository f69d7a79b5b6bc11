/**
 * Where a piece lies inside a longer sequence: the tokens of a printed
 * element inside the lexer's output, a printed word inside the text.
 */
module Slices {
  /** `s` holds `w` from index `i` on. */
  predicate SliceAt<T(==)>(s: seq<T>, i: nat, w: seq<T>) {
    i + |w| <= |s| && s[i..i + |w|] == w
  }

  lemma SliceAtConcat<T>(s: seq<T>, i: nat, a: seq<T>, b: seq<T>)
    requires SliceAt(s, i, a + b)
    ensures SliceAt(s, i, a) && SliceAt(s, i + |a|, b)
  {
    assert s[i..i + |a|] == s[i..i + |a + b|][..|a|];
    assert s[i + |a|..i + |a| + |b|] == s[i..i + |a + b|][|a|..];
  }

  lemma SliceAtJoin<T>(s: seq<T>, i: nat, a: seq<T>, b: seq<T>)
    requires SliceAt(s, i, a) && SliceAt(s, i + |a|, b)
    ensures SliceAt(s, i, a + b)
  {
    assert s[i..i + |a + b|] == s[i..i + |a|] + s[i + |a|..i + |a| + |b|];
  }

  lemma SliceAtIndex<T>(s: seq<T>, i: nat, w: seq<T>, k: nat)
    requires SliceAt(s, i, w) && k < |w|
    ensures s[i + k] == w[k]
  {
    assert s[i + k] == s[i..i + |w|][k];
  }

  /** A single element `x`, then `mid`, then a single element `y`. */
  lemma SliceAtWrapped<T>(s: seq<T>, i: nat, x: T, mid: seq<T>, y: T)
    requires SliceAt(s, i, [x] + mid + [y])
    ensures s[i] == x && SliceAt(s, i + 1, mid) && i + 1 + |mid| < |s| && s[i + 1 + |mid|] == y
  {
    SliceAtConcat(s, i, [x] + mid, [y]);
    SliceAtConcat(s, i, [x], mid);
    SliceAtIndex(s, i, [x], 0);
    SliceAtIndex(s, i + 1 + |mid|, [y], 0);
  }

  /** `a`, then the single element `x`, then `c`. */
  lemma SliceAtAround<T>(s: seq<T>, i: nat, a: seq<T>, x: T, c: seq<T>)
    requires SliceAt(s, i, a + ([x] + c))
    ensures SliceAt(s, i, a) && i + |a| < |s| && s[i + |a|] == x && SliceAt(s, i + |a| + 1, c)
  {
    SliceAtConcat(s, i, a, [x] + c);
    SliceAtConcat(s, i + |a|, [x], c);
    SliceAtIndex(s, i + |a|, [x], 0);
  }

  lemma AppendAssoc<T>(a: seq<T>, b: seq<T>, c: seq<T>)
    ensures a + b + c == a + (b + c)
  {
  }

  /** `h`, then `x` and `r`, then `c`, regrouped around `x`. */
  lemma AppendAround<T>(h: seq<T>, x: T, r: seq<T>, c: seq<T>)
    ensures (h + ([x] + r)) + c == h + ([x] + (r + c))
  {
  }
}
