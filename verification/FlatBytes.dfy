// Byte sequences cut into blocks of equal size, and what overwriting one stretch means.
module FlatBytes {
  type Byte = x: int | 0 <= x < 256

  // d with x written at p, growing d when x reaches past its end.
  function Overwrite(d: seq<Byte>, p: nat, x: seq<Byte>): (r: seq<Byte>)
    requires p <= |d|
    ensures |r| == if p + |x| > |d| then p + |x| else |d|
  {
    d[..p] + x + (if p + |x| < |d| then d[p + |x|..] else [])
  }

  function Join(blocks: seq<seq<Byte>>): seq<Byte> {
    if blocks == [] then [] else blocks[0] + Join(blocks[1..])
  }

  predicate Uniform(blocks: seq<seq<Byte>>, b: nat) {
    forall i :: 0 <= i < |blocks| ==> |blocks[i]| == b
  }

  lemma {:induction false} JoinLength(blocks: seq<seq<Byte>>, b: nat)
    requires Uniform(blocks, b)
    ensures |Join(blocks)| == |blocks| * b
  {
    if blocks != [] { JoinLength(blocks[1..], b); }
  }

  lemma {:induction false} JoinConcat(a: seq<seq<Byte>>, c: seq<seq<Byte>>)
    ensures Join(a + c) == Join(a) + Join(c)
  {
    hide Join;
    JoinHead(a);
    if a == [] {
      assert a + c == c;
    } else {
      JoinConcat(a[1..], c);
      assert (a + c)[1..] == a[1..] + c;
      JoinHead(a + c);
      Associate(a[0], Join(a[1..]), Join(c));
    }
  }

  lemma JoinHead(a: seq<seq<Byte>>)
    ensures Join(a) == if a == [] then [] else a[0] + Join(a[1..])
  {
  }

  lemma Associate(a: seq<Byte>, b: seq<Byte>, c: seq<Byte>)
    ensures (a + b) + c == a + (b + c) && [] + c == c
  {
  }

  // Block i occupies the stretch [i * b, (i + 1) * b).
  lemma JoinSplit(blocks: seq<seq<Byte>>, i: nat, b: nat)
    requires Uniform(blocks, b) && i < |blocks|
    ensures Join(blocks) == Join(blocks[..i]) + blocks[i] + Join(blocks[i + 1..])
    ensures |Join(blocks[..i])| == i * b
  {
    JoinLength(blocks[..i], b);
    assert blocks == blocks[..i] + blocks[i..];
    JoinConcat(blocks[..i], blocks[i..]);
    assert blocks[i..][1..] == blocks[i + 1..];
  }

  // Overwriting inside block i overwrites the joined bytes at the matching place.
  lemma JoinOverwrite(blocks: seq<seq<Byte>>, i: nat, b: nat, off: nat, x: seq<Byte>)
    requires Uniform(blocks, b) && i < |blocks| && off + |x| <= b
    ensures var after := blocks[i := Overwrite(blocks[i], off, x)];
      && Uniform(after, b)
      && i * b + off + |x| <= |Join(blocks)| == |Join(after)|
      && Join(after) == Overwrite(Join(blocks), i * b + off, x)
  {
    var after := blocks[i := Overwrite(blocks[i], off, x)];
    JoinSplit(blocks, i, b);
    JoinSplit(after, i, b);
    assert after[..i] == blocks[..i] && after[i + 1..] == blocks[i + 1..];
    SpliceMiddle(Join(blocks[..i]), blocks[i], Join(blocks[i + 1..]), off, x);
  }

  lemma SpliceMiddle(a: seq<Byte>, m: seq<Byte>, c: seq<Byte>, off: nat, x: seq<Byte>)
    requires off + |x| <= |m|
    ensures Overwrite(a + m + c, |a| + off, x) == a + Overwrite(m, off, x) + c
  {
  }

  // A stretch inside block i is the matching stretch of the joined bytes.
  lemma JoinSlice(blocks: seq<seq<Byte>>, i: nat, b: nat, off: nat, n: nat)
    requires Uniform(blocks, b) && i < |blocks| && off + n <= b
    ensures i * b + off + n <= |Join(blocks)|
    ensures Join(blocks)[i * b + off..i * b + off + n] == blocks[i][off..off + n]
  {
    JoinSplit(blocks, i, b);
  }

  // Writing two adjacent stretches is writing their concatenation.
  lemma OverwriteTwice(d: seq<Byte>, p: nat, x: seq<Byte>, y: seq<Byte>)
    requires p + |x| + |y| <= |d|
    ensures Overwrite(Overwrite(d, p, x), p + |x|, y) == Overwrite(d, p, x + y)
  {
  }

  // ---- division by the block size ----

  // Where block k starts.
  ghost function Span(k: nat, b: nat): nat {
    k * b
  }

  lemma SpanAdd(i: nat, j: nat, b: nat)
    ensures Span(i + j, b) == Span(i, b) + Span(j, b)
    ensures Span(0, b) == 0 && Span(1, b) == b
  {
  }

  lemma MulAtLeast(k: int, b: nat)
    requires 1 <= k
    ensures b <= k * b
  {
    assert k * b == b + (k - 1) * b;
  }

  lemma MulDiff(i: int, j: int, b: int)
    ensures (i - j) * b == i * b - j * b
  {
  }

  // p lies in block i at offset p - i * b.
  lemma DivMod(p: nat, i: nat, b: nat)
    requires i * b <= p < i * b + b
    ensures p / b == i && p % b == p - i * b
  {
    var q, r := p / b, p % b;
    assert p == q * b + r;
    MulDiff(q, i, b);
    MulDiff(i, q, b);
    if q > i {
      MulAtLeast(q - i, b);
    } else if q < i {
      MulAtLeast(i - q, b);
    }
  }

  lemma MulMonotone(i: nat, j: nat, b: nat)
    requires i <= j
    ensures i * b <= j * b
  {
    MulDiff(j, i, b);
    assert 0 <= (j - i) * b;
  }
}
