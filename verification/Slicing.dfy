/** The runtime's partitioning helpers: `split`, `parallel`, `split_at` and `Chunks`. */
module Slicing {
  import opened Wrappers
  import opened Alignment

  function Concat<T>(pieces: seq<seq<T>>): seq<T> {
    if pieces == [] then []
    else
      var n := |pieces| - 1;
      Concat(pieces[..n]) + pieces[n]
  }

  // ------------------------------------------------------------------ split

  predicate OccursAt(s: string, sep: string, i: nat) {
    i + |sep| <= |s| && s[i..i + |sep|] == sep
  }

  predicate Contains(s: string, sep: string) {
    exists i | 0 <= i <= |s| :: OccursAt(s, sep, i)
  }

  function Join(pieces: seq<string>, sep: string): string {
    if pieces == [] then ""
    else if |pieces| == 1 then pieces[0]
    else pieces[0] + sep + Join(pieces[1..], sep)
  }

  /** The separator first occurs where the piece ends, even across its end. */
  predicate EndsFirst(piece: string, sep: string) {
    forall i | 0 <= i < |piece| :: !OccursAt(piece + sep, sep, i)
  }

  /** Cut at the first separator, then at the first one after it, and so on. */
  predicate CutGreedily(pieces: seq<string>, sep: string) {
    && pieces != [] && !Contains(pieces[|pieces| - 1], sep)
    && forall k | 0 <= k < |pieces| - 1 :: EndsFirst(pieces[k], sep)
  }

  method FindFrom(s: string, sep: string, pos: nat) returns (r: Option<nat>)
    requires sep != "" && pos <= |s|
    ensures r.Some? ==> pos <= r.value && OccursAt(s, sep, r.value) && forall i | pos <= i < r.value :: !OccursAt(s, sep, i)
    ensures r.None? ==> forall i | pos <= i <= |s| :: !OccursAt(s, sep, i)
  {
    var i := pos;
    while i <= |s|
      invariant pos <= i <= |s| + 1 && forall k | pos <= k < i :: !OccursAt(s, sep, k)
    {
      if OccursAt(s, sep, i) { return Some(i); }
      i := i + 1;
    }
    return None;
  }

  method Split(s: string, sep: string) returns (out: seq<string>)
    ensures if sep == "" then out == [s] else Join(out, sep) == s && CutGreedily(out, sep)
  {
    if sep == "" { return [s]; }
    out := [];
    var pos := 0;
    while true
      invariant pos <= |s|
      invariant forall k | 0 <= k < |out| :: EndsFirst(out[k], sep)
      invariant Join(out + [s[pos..]], sep) == s
      decreases |s| - pos
    {
      var next := FindFrom(s, sep, pos);
      if next.None? {
        NotInTail(s, sep, pos);
        out := out + [s[pos..]];
        break;
      }
      var piece := s[pos..next.value];
      CutHere(s, sep, pos, next.value);
      JoinStays(s, out, sep, pos, next.value);
      out := out + [piece];
      pos := next.value + |sep|;
    }
  }

  lemma JoinStays(s: string, out: seq<string>, sep: string, pos: nat, next: nat)
    requires pos <= next && OccursAt(s, sep, next) && Join(out + [s[pos..]], sep) == s
    ensures Join(out + [s[pos..next]] + [s[next + |sep|..]], sep) == s
  {
    ThreeParts(s, sep, pos, next);
    JoinCut(out, s[pos..next], s[next + |sep|..], sep);
  }

  lemma ThreeParts(s: string, sep: string, pos: nat, next: nat)
    requires pos <= next && OccursAt(s, sep, next)
    ensures s[pos..] == s[pos..next] + sep + s[next + |sep|..]
  {
    assert s[next..] == sep + s[next + |sep|..];
  }

  lemma NotInTail(s: string, sep: string, pos: nat)
    requires pos <= |s| && forall i | pos <= i <= |s| :: !OccursAt(s, sep, i)
    ensures !Contains(s[pos..], sep)
  {
    forall i | 0 <= i <= |s[pos..]|
      ensures !OccursAt(s[pos..], sep, i)
    {
      assert !OccursAt(s, sep, pos + i);
      if i + |sep| <= |s[pos..]| { assert s[pos..][i..i + |sep|] == s[pos + i..pos + i + |sep|]; }
    }
  }

  lemma CutHere(s: string, sep: string, pos: nat, next: nat)
    requires pos <= next && OccursAt(s, sep, next) && forall i | pos <= i < next :: !OccursAt(s, sep, i)
    ensures EndsFirst(s[pos..next], sep)
  {
    var piece := s[pos..next];
    var whole := piece + sep;
    assert whole == s[pos..next + |sep|];
    forall i | 0 <= i < |piece|
      ensures !OccursAt(whole, sep, i)
    {
      assert !OccursAt(s, sep, pos + i);
      if i + |sep| <= |whole| { SliceOfSlice(s, pos, next + |sep|, i, i + |sep|); }
    }
  }

  lemma SliceOfSlice(s: string, a: nat, b: nat, c: nat, d: nat)
    requires a <= b <= |s| && c <= d <= b - a
    ensures s[a..b][c..d] == s[a + c..a + d]
  {
    var l, r := s[a..b][c..d], s[a + c..a + d];
    assert |l| == |r| && forall k | 0 <= k < |l| :: l[k] == r[k];
    assert l == r;
  }

  lemma {:induction false} JoinCut(out: seq<string>, piece: string, rest: string, sep: string)
    ensures Join(out + [piece, rest], sep) == Join(out + [piece + sep + rest], sep)
    ensures out + [piece] + [rest] == out + [piece, rest]
    decreases out
  {
    if out == [] {
      assert [piece, rest][1..] == [rest];
      assert out + [piece, rest] == [piece, rest] && out + [piece + sep + rest] == [piece + sep + rest];
    } else {
      JoinCut(out[1..], piece, rest, sep);
      assert (out + [piece, rest])[1..] == out[1..] + [piece, rest];
      assert (out + [piece + sep + rest])[1..] == out[1..] + [piece + sep + rest];
    }
  }

  /** Pieces cut greedily never hold the separator. */
  lemma PieceWithout(pieces: seq<string>, sep: string, k: nat)
    requires sep != "" && CutGreedily(pieces, sep) && k < |pieces|
    ensures !Contains(pieces[k], sep)
  {
    if k < |pieces| - 1 {
      var p := pieces[k];
      forall i | 0 <= i <= |p|
        ensures !OccursAt(p, sep, i)
      {
        if i < |p| && i + |sep| <= |p| {
          assert !OccursAt(p + sep, sep, i);
          assert (p + sep)[i..i + |sep|] == p[i..i + |sep|];
        }
      }
    }
  }

  /** There is only one greedy cut of a string, so splitting what was joined gives the pieces
      back exactly when they are one. */
  lemma {:induction false} GreedyCutUnique(a: seq<string>, b: seq<string>, sep: string)
    requires sep != "" && CutGreedily(a, sep) && CutGreedily(b, sep) && Join(a, sep) == Join(b, sep)
    ensures a == b
    decreases |a|
  {
    var s := Join(a, sep);
    if |a| == 1 || |b| == 1 {
      if |a| > 1 { HeadOccurs(a, sep); }
      if |b| > 1 { HeadOccurs(b, sep); }
      assert |a| == 1 && |b| == 1;
    } else {
      HeadFirst(a, sep);
      HeadFirst(b, sep);
      HeadOccurs(a, sep);
      HeadOccurs(b, sep);
      assert |a[0]| == |b[0]|;
      assert a[0] == s[..|a[0]|] && b[0] == s[..|b[0]|];
      assert Join(a[1..], sep) == s[|a[0]| + |sep|..] == Join(b[1..], sep);
      TailGreedy(a, sep);
      TailGreedy(b, sep);
      GreedyCutUnique(a[1..], b[1..], sep);
      assert a == [a[0]] + a[1..] && b == [b[0]] + b[1..];
    }
  }

  lemma TailGreedy(pieces: seq<string>, sep: string)
    requires |pieces| > 1 && CutGreedily(pieces, sep)
    ensures CutGreedily(pieces[1..], sep)
  {
    assert forall k | 0 <= k < |pieces| - 2 :: pieces[1..][k] == pieces[k + 1];
  }

  lemma HeadOccurs(pieces: seq<string>, sep: string)
    requires |pieces| > 1
    ensures OccursAt(Join(pieces, sep), sep, |pieces[0]|) && Contains(Join(pieces, sep), sep)
  {
    var s, p := Join(pieces, sep), pieces[0];
    assert s == p + sep + Join(pieces[1..], sep);
    assert s[|p|..|p| + |sep|] == sep;
    assert OccursAt(s, sep, |p|) && |p| <= |s|;
  }

  lemma HeadFirst(pieces: seq<string>, sep: string)
    requires sep != "" && |pieces| > 1 && CutGreedily(pieces, sep)
    ensures forall i | 0 <= i < |pieces[0]| :: !OccursAt(Join(pieces, sep), sep, i)
  {
    var s, p := Join(pieces, sep), pieces[0];
    assert s == p + sep + Join(pieces[1..], sep);
    forall i | 0 <= i < |p|
      ensures !OccursAt(s, sep, i)
    {
      assert EndsFirst(p, sep) && !OccursAt(p + sep, sep, i);
      assert s[i..i + |sep|] == (p + sep)[i..i + |sep|];
    }
  }

  // --------------------------------------------------------------- parallel

  /** Where span `i` starts: the first `rem` spans have one element more. */
  function Start(base: nat, rem: nat, i: nat): nat {
    if i == 0 then 0 else Start(base, rem, i - 1) + SpanLength(base, rem, i - 1)
  }

  function SpanLength(base: nat, rem: nat, i: nat): nat { if i < rem then base + 1 else base }

  lemma {:induction false} StartIs(base: nat, rem: nat, i: nat)
    ensures Start(base, rem, i) == i * base + if i < rem then i else rem
    decreases i
  {
    if i > 0 {
      StartIs(base, rem, i - 1);
      assert i * base == (i - 1) * base + base;
    }
  }

  lemma {:induction false} StartMono(base: nat, rem: nat, i: nat, j: nat)
    requires i <= j
    ensures Start(base, rem, i) <= Start(base, rem, j)
    decreases j
  {
    if i < j { StartMono(base, rem, i, j - 1); }
  }

  lemma LastEnds(total: nat, nc: nat)
    requires nc > 0
    ensures Start(total / nc, total % nc, nc) == total
  {
    DivMod(total, nc);
    StartIs(total / nc, total % nc, nc);
    assert nc * (total / nc) == total / nc * nc;
  }

  /** The sub-spans the workers are given: contiguous, in order, and balanced. */
  method Parallel<T>(data: seq<T>, chunks: int) returns (spans: seq<seq<T>>)
    ensures |spans| == if chunks < 1 then 1 else chunks
    ensures Concat(spans) == data
    ensures forall i, j | 0 <= i < j < |spans| :: |spans[j]| <= |spans[i]| <= |spans[j]| + 1
  {
    var nc: nat := if chunks < 1 then 1 else chunks;
    var base, rem := |data| / nc, |data| % nc;
    LastEnds(|data|, nc);
    var off := 0;
    spans := [];
    for i := 0 to nc
      invariant |spans| == i && off == Start(base, rem, i) <= |data|
      invariant Concat(spans) == data[..off]
      invariant forall k | 0 <= k < i :: |spans[k]| == SpanLength(base, rem, k)
    {
      StartMono(base, rem, i + 1, nc);
      var len := base + if i < rem then 1 else 0;
      var span := data[off..off + len];
      assert (spans + [span])[..i] == spans;
      assert data[..off + len] == data[..off] + span;
      spans := spans + [span];
      off := off + len;
    }
    assert data[..|data|] == data;
  }

  /** Two views, cut at a place that is clamped to the data. */
  method SplitAt<T>(s: seq<T>, at: int) returns (left: seq<T>, right: seq<T>)
    ensures left + right == s
    ensures |left| == if at < 0 then 0 else if at > |s| then |s| else at
  {
    var k := if at < 0 then 0 else if at > |s| then |s| else at;
    left, right := s[..k], s[k..];
  }

  // ----------------------------------------------------------------- chunks

  function Count<T>(data: seq<T>, step: nat): nat {
    if step == 0 then 0 else (|data| + step - 1) / step
  }

  /** A chunk index below the count starts inside the data; the last chunk reaches its end. */
  lemma CountCovers<T>(data: seq<T>, step: nat, i: nat)
    requires step > 0
    ensures i < Count(data, step) <==> i * step < |data|
    ensures Count(data, step) * step >= |data|
  {
    AlignUpLeast(|data|, step, i);
    var n := Count(data, step);
    assert (i + 1) * step == i * step + step;
    if i < n { MulMono(i + 1, n, step); } else { MulMono(n, i, step); }
  }

  const TWO63 := 0x8000_0000_0000_0000
  const TWO64 := 0x1_0000_0000_0000_0000

  /** The count as it is computed, where the sum may wrap around. */
  function MachineCount(size: nat, step: nat): nat {
    if step == 0 then 0 else (size + step - 1) % TWO64 / step
  }

  /** It is the count, unless the size and the step together exceed 64 bits; then it is 0, although
      there is a chunk. */
  lemma CountWraps<T>(data: seq<T>, step: nat)
    requires |data| < TWO64 && step < TWO64
    ensures MachineCount(|data|, step) == Count(data, step) <==> step == 0 || |data| == 0 || |data| + step <= TWO64
  {
    if step > 0 {
      var sum := |data| + step - 1;
      if sum >= TWO64 {
        assert sum % TWO64 == sum - TWO64 < step;
        assert (sum - TWO64) / step == 0;
        CountCovers(data, step, 0);
      }
    }
  }

  class Chunks<T> {
    const data: seq<T>
    const step: nat
    var off: nat

    constructor (data: seq<T>, step: nat)
      ensures this.data == data && this.step == step && off == 0
    {
      this.data, this.step, off := data, step, 0;
    }

    /** The cursor stands at the start of chunk `i`, or at the end. */
    predicate At(i: nat)
      reads this
    {
      i <= Count(data, step) && off == if i * step <= |data| then i * step else |data|
    }

    function Piece(i: nat): seq<T>
      requires i < Count(data, step)
    {
      CountCovers(data, step, i);
      var start := i * step;
      var len := if start + step <= |data| then step else |data| - start;
      data[start..start + len]
    }

    method Next(ghost i: nat) returns (piece: Option<seq<T>>)
      requires At(i)
      modifies this
      ensures if i < Count(data, step) then piece == Some(Piece(i)) && At(i + 1)
        else piece == None && off == old(off)
    {
      if step > 0 {
        CountCovers(data, step, i);
        CountCovers(data, step, i + 1);
        assert (i + 1) * step == i * step + step;
        if i == Count(data, step) { assert i * step >= |data|; }
      }
      if step == 0 || off >= |data| { return None; }
      var len := if off + step <= |data| then step else |data| - off;
      piece := Some(data[off..off + len]);
      off := off + len;
    }

    /** The loop over all chunks: exactly `Count` pieces, the ones that indexing gives, and
        together the data. */
    method Drain() returns (pieces: seq<seq<T>>)
      requires off == 0
      modifies this
      ensures |pieces| == Count(data, step) && forall i | 0 <= i < |pieces| :: pieces[i] == Piece(i)
      ensures step > 0 ==> Concat(pieces) == data
    {
      pieces := [];
      while true
        invariant At(|pieces|) && forall i | 0 <= i < |pieces| :: pieces[i] == Piece(i)
        invariant Concat(pieces) == data[..off]
        decreases Count(data, step) - |pieces|
      {
        ghost var before := off;
        var piece := Next(|pieces|);
        if piece.None? { break; }
        assert (pieces + [piece.value])[..|pieces|] == pieces;
        StartOf(|pieces|, before, off);
        pieces := pieces + [piece.value];
      }
      if step > 0 { CountCovers(data, step, |pieces|); }
      assert step > 0 ==> data[..off] == data;
    }

    lemma StartOf(i: nat, before: nat, after: nat)
      requires i < Count(data, step)
      requires before == if i * step <= |data| then i * step else |data|
      requires after == if (i + 1) * step <= |data| then (i + 1) * step else |data|
      ensures data[..after] == data[..before] + Piece(i)
    {
      CountCovers(data, step, i);
      assert (i + 1) * step == i * step + step;
    }

    /** The next end of a chunk fits in 64 bits, as spans hold at most half of them. */
    lemma CursorFits(i: nat)
      requires At(i) && off < |data| && |data| <= TWO63 && step < TWO64
      ensures off + step < TWO64
    {
      if i > 0 { MulMono(1, i, step); }
    }
  }
}
