/**
 Exact uniformity of the rejection sampler: along the generator's full period every value
 below the bound is accepted equally often.
 */
module RngUniformity {
  import opened Powers
  import opened Lcg
  import opened Rng

  // The draw at this state is accepted and gives the face.
  ghost predicate Yields(s: Word64, upper: int, face: int)
    requires 1 <= upper <= M32
  {
    Output(s) >= Threshold(upper) && Output(s) % upper == face
  }

  // The times in one full period from s at which the face comes up.
  ghost function FaceTimes(s: Word64, c: int, upper: int, face: int): set<int>
    requires 1 <= upper <= M32
  {
    set n | 0 <= n < M64 && Yields(Iterate(n, s, c), upper, face)
  }

  // The j-th accepted output with this face.
  ghost function AcceptedOutput(upper: int, face: int, j: int): (out: Word32)
    requires 1 <= upper <= M32 && 0 <= face < upper && 0 <= j < M32 / upper
    ensures out >= Threshold(upper) && out % upper == face
    ensures (out - Threshold(upper)) / upper == j
  {
    var t := Threshold(upper);
    var k := (face - t) % upper;
    var q := M32 / upper;
    var out := t + j * upper + k;
    MulNonNegative(j, upper);
    MulNonNegative(q - 1 - j, upper);
    assert (q - 1 - j) * upper == q * upper - upper - j * upper;
    assert M32 - t == q * upper;
    DivModUnique(out - t, upper, j, k);
    FaceOf(t, upper, face, j);
    out
  }

  lemma FaceOf(t: int, upper: int, face: int, j: int)
    requires upper >= 1 && 0 <= face < upper
    ensures (t + j * upper + (face - t) % upper) % upper == face
  {
    var e := (face - t) / upper;
    assert face - t == e * upper + (face - t) % upper;
    assert t + j * upper + (face - t) % upper == face + (j - e) * upper;
    DivModUnique(face + (j - e) * upper, upper, j - e, face);
  }

  // Every accepted output with the face is one of these.
  lemma AcceptedOutputs(out: Word32, upper: int, face: int) returns (j: int)
    requires 1 <= upper <= M32 && 0 <= face < upper
    requires out >= Threshold(upper) && out % upper == face
    ensures 0 <= j < M32 / upper && AcceptedOutput(upper, face, j) == out
  {
    var t := Threshold(upper);
    j := (out - t) / upper;
    assert M32 - t == M32 / upper * upper;
    DivLess(out - t, upper, M32 / upper);
    var k := (out - t) % upper;
    var e := out / upper;
    assert out - t == j * upper + k;
    assert face - t == (j - e) * upper + k by {
      assert out == e * upper + face;
      assert (j - e) * upper == j * upper - e * upper;
    }
    DivModUnique(face - t, upper, j - e, k);
  }

  // Where a yielding state stands among those of its face.
  ghost function StateIndex(s: Word64, upper: int): int
    requires 1 <= upper <= M32
  {
    (Output(s) - Threshold(upper)) / upper * M32 + Top(s) * 0x800_0000 + Low(s)
  }

  // A state with a given accepted output and given free bits.
  ghost function StateWith(upper: int, face: int, j: int, free: int): (s: Word64)
    requires 1 <= upper <= M32 && 0 <= face < upper && 0 <= j < M32 / upper
    requires 0 <= free < M32
    ensures Yields(s, upper, face)
    ensures StateIndex(s, upper) == j * M32 + free
  {
    var out := AcceptedOutput(upper, face, j);
    StateOf(free / 0x800_0000, out, free % 0x800_0000)
  }

  // The t-th state that yields the face: its top five and low 27 bits are free.
  ghost function FaceState(upper: int, face: int, t: int): (s: Word64)
    requires 1 <= upper <= M32 && 0 <= face < upper && 0 <= t < M32 / upper * M32
    ensures Yields(s, upper, face)
    ensures StateIndex(s, upper) == t
  {
    DivLess(t, M32, M32 / upper);
    StateWith(upper, face, t / M32, t % M32)
  }

  lemma FaceStates(s: Word64, upper: int, face: int) returns (t: int)
    requires 1 <= upper <= M32 && 0 <= face < upper && Yields(s, upper, face)
    ensures 0 <= t < M32 / upper * M32 && FaceState(upper, face, t) == s
  {
    var j := AcceptedOutputs(Output(s), upper, face);
    var free := Top(s) * 0x800_0000 + Low(s);
    t := j * M32 + free;
    DivModUnique(t, M32, j, free);
    DivModUnique(free, 0x800_0000, Top(s), Low(s));
    StateOfParts(s);
  }

  // A duplicate-free listing of a set has as many entries as the set.
  lemma {:induction false} CountByListing(xs: seq<int>, S: set<int>)
    requires forall i, j | 0 <= i < j < |xs| :: xs[i] != xs[j]
    requires forall i | 0 <= i < |xs| :: xs[i] in S
    requires forall x | x in S :: x in xs
    ensures |S| == |xs|
  {
    if xs == [] {
      assert forall x :: x in S ==> x in xs;
      assert S == {};
    } else {
      var n := |xs| - 1;
      CountByListing(xs[..n], S - {xs[n]});
    }
  }

  // When the t-th such state comes up, counted from s.
  ghost function FaceTime(s: Word64, c: int, upper: int, face: int, t: int): (n: int)
    requires c % 2 == 1 && 1 <= upper <= M32 && 0 <= face < upper && 0 <= t < M32 / upper * M32
    ensures n in FaceTimes(s, c, upper, face)
    ensures Iterate(n, s, c) == FaceState(upper, face, t)
  {
    StepsTo(s, FaceState(upper, face, t), c)
  }

  lemma FaceTimeOf(s: Word64, c: int, upper: int, face: int, n: int) returns (t: int)
    requires c % 2 == 1 && 1 <= upper <= M32 && 0 <= face < upper
    requires n in FaceTimes(s, c, upper, face)
    ensures 0 <= t < M32 / upper * M32 && FaceTime(s, c, upper, face, t) == n
  {
    t := FaceStates(Iterate(n, s, c), upper, face);
    StepsToUnique(s, Iterate(n, s, c), c, n);
  }

  lemma FaceTimesDiffer(s: Word64, c: int, upper: int, face: int, t: int, u: int)
    requires c % 2 == 1 && 1 <= upper <= M32 && 0 <= face < upper
    requires 0 <= t < u < M32 / upper * M32
    ensures FaceTime(s, c, upper, face, t) != FaceTime(s, c, upper, face, u)
  {
    assert StateIndex(FaceState(upper, face, t), upper) == t;
    assert StateIndex(FaceState(upper, face, u), upper) == u;
  }

  ghost function FaceTimeListing(s: Word64, c: int, upper: int, face: int, count: nat): (xs: seq<int>)
    requires c % 2 == 1 && 1 <= upper <= M32 && 0 <= face < upper && count <= M32 / upper * M32
    ensures |xs| == count
    ensures forall t | 0 <= t < count :: xs[t] == FaceTime(s, c, upper, face, t)
  {
    seq(count, t requires 0 <= t < count => FaceTime(s, c, upper, face, t))
  }

  // Among the 2^64 consecutive outputs that start anywhere, every value below the bound is
  // accepted exactly floor(2^32 / bound) * 2^32 times: each die face is equally likely.
  lemma EveryFaceEquallyOften(s: Word64, c: int, upper: int, face: int)
    requires c % 2 == 1 && 1 <= upper <= M32 && 0 <= face < upper
    ensures |FaceTimes(s, c, upper, face)| == M32 / upper * M32
  {
    MulNonNegative(M32 / upper, M32);
    var xs := FaceTimeListing(s, c, upper, face, M32 / upper * M32);
    forall t, u | 0 <= t < u < |xs|
      ensures xs[t] != xs[u]
    {
      FaceTimesDiffer(s, c, upper, face, t, u);
    }
    forall n | n in FaceTimes(s, c, upper, face)
      ensures n in xs
    {
      var t := FaceTimeOf(s, c, upper, face, n);
      assert xs[t] == n;
    }
    CountByListing(xs, FaceTimes(s, c, upper, face));
  }
}
