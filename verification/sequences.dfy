/** Small facts about sequence concatenation used by the buffer proofs. */
module Sequences {

  lemma AppendAssoc<T>(a: seq<T>, b: seq<T>, c: seq<T>)
    ensures (a + b) + c == a + (b + c)
  {
  }

  /** Six single appends are one append of six elements. */
  lemma AppendSix<T>(a: seq<T>, s: seq<T>)
    requires |s| == 6
    ensures a + [s[0]] + [s[1]] + [s[2]] + [s[3]] + [s[4]] + [s[5]] == a + s
  {
  }

  /** Eight single appends are one append of eight elements. */
  lemma AppendEight<T>(a: seq<T>, s: seq<T>)
    requires |s| == 8
    ensures a + [s[0]] + [s[1]] + [s[2]] + [s[3]] + [s[4]] + [s[5]] + [s[6]] + [s[7]] == a + s
  {
  }

  /** Nine single appends are one append of nine elements. */
  lemma AppendNine<T>(a: seq<T>, s: seq<T>)
    requires |s| == 9
    ensures a + [s[0]] + [s[1]] + [s[2]] + [s[3]] + [s[4]] + [s[5]] + [s[6]] + [s[7]] + [s[8]] == a + s
  {
  }

  /** Four pieces appended left to right are the first piece before the other three. */
  lemma AppendFive<T>(h: seq<T>, a: seq<T>, b: seq<T>, c: seq<T>, d: seq<T>)
    ensures h + a + b + c + d == h + (a + b + c + d)
  {
    AppendAssoc(h, a, b);
    AppendAssoc(h, a + b, c);
    AppendAssoc(h, a + b + c, d);
  }

  /** A prefix made of two adjacent pieces. */
  lemma PrefixOfTwo<T>(s: seq<T>, h: seq<T>, t: seq<T>)
    requires |h| + |t| <= |s| && s[..|h|] == h && s[|h|..|h| + |t|] == t
    ensures s[..|h| + |t|] == h + t
  {
    assert s[..|h| + |t|] == s[..|h|] + s[|h|..|h| + |t|];
  }

  /** The piece in the middle of three can be sliced back out. */
  lemma SliceOfMiddle<T>(p: seq<T>, a: seq<T>, q: seq<T>)
    ensures (p + a) + q == p + a + q
    ensures (p + a + q)[|p|..|p| + |a|] == a
  {
  }

  /** Two adjacent slices that hold `a` and then `b` make one slice that holds a + b. */
  lemma SliceOfTwo<T>(s: seq<T>, i: nat, a: seq<T>, b: seq<T>)
    requires i + |a| + |b| <= |s| && s[i..i + |a|] == a && s[i + |a|..i + |a| + |b|] == b
    ensures s[i..i + |a| + |b|] == a + b
  {
    assert s[i..i + |a| + |b|] == s[i..i + |a|] + s[i + |a|..i + |a| + |b|];
  }

  /** Extending a taken prefix of `t` by one element, after a fixed front part. */
  lemma AppendPrefixSnoc<T>(a: seq<T>, t: seq<T>, j: nat)
    requires j < |t|
    ensures a + t[..j + 1] == (a + t[..j]) + [t[j]]
  {
    assert t[..j + 1] == t[..j] + [t[j]];
  }

  /** The last piece of two can be sliced back out. */
  lemma SliceOfLast<T>(p: seq<T>, a: seq<T>)
    ensures (p + a)[|p|..|p| + |a|] == a
  {
  }

  /** A slice is its first element before the rest. */
  lemma SliceCons<T>(s: seq<T>, i: nat, j: nat, t: seq<T>)
    requires i < j <= |s| && s[i + 1..j] == t
    ensures s[i..j] == [s[i]] + t
  {
    assert s[i..j] == [s[i]] + s[i + 1..j];
  }

  /** A slice holding `a` followed by a slice holding b + c is one slice holding a + b + c. */
  lemma SliceOfThree<T>(s: seq<T>, i: nat, a: seq<T>, b: seq<T>, c: seq<T>)
    requires i + |a| + |b| + |c| <= |s|
    requires s[i..i + |a|] == a && s[i + |a|..i + |a| + |b| + |c|] == b + c
    ensures i + |a + b + c| <= |s| && s[i..i + |a + b + c|] == a + b + c
  {
    SliceOfTwo(s, i, a, b + c);
    AppendAssoc(a, b, c);
  }
}
