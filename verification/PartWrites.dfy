/** The counting writer in front of a part file (core/transfer/writer.go), the coverage check after
    the transfer (core/transfer/manager.go) and the size check before publication
    (app/daemon/orchestrator.go): together they admit exactly the write logs that tile the file. */
module PartWrites {
  import opened Types
  import opened ByteRanges

  /** One accepted write: its offset and the bytes the underlying writer took. */
  datatype Write = Write(offset: int, data: seq<Byte>)

  ghost function Extent(w: Write): set<int> { Span(w.offset, w.offset + |w.data|) }

  ghost function Touched(ws: seq<Write>): set<int> {
    if ws == [] then {} else Touched(ws[..|ws| - 1]) + Extent(ws[|ws| - 1])
  }

  /** What the tracker sees: AddRange drops a negative offset. */
  ghost function Seen(ws: seq<Write>): set<int> {
    if ws == [] then {}
    else Seen(ws[..|ws| - 1]) + if ws[|ws| - 1].offset < 0 then {} else Extent(ws[|ws| - 1])
  }

  ghost function Counted(ws: seq<Write>): nat {
    if ws == [] then 0 else Counted(ws[..|ws| - 1]) + |ws[|ws| - 1].data|
  }

  ghost predicate Disjoint(ws: seq<Write>) {
    forall i, j :: 0 <= i < j < |ws| ==> Extent(ws[i]) !! Extent(ws[j])
  }

  ghost predicate Inside(ws: seq<Write>, size: int) {
    forall i :: 0 <= i < |ws| ==> 0 <= ws[i].offset && ws[i].offset + |ws[i].data| <= size
  }

  ghost predicate NoEmpty(ws: seq<Write>) { forall i :: 0 <= i < |ws| ==> ws[i].data != [] }

  /** The writes partition [0, size). */
  ghost predicate Tiles(ws: seq<Write>, size: int) {
    Inside(ws, size) && Disjoint(ws) && Touched(ws) == Span(0, size)
  }

  lemma {:induction false} InTouched(ws: seq<Write>, b: int)
    ensures b in Touched(ws) <==> exists i :: 0 <= i < |ws| && b in Extent(ws[i])
  {
    if ws != [] {
      var front := ws[..|ws| - 1];
      InTouched(front, b);
      if i :| 0 <= i < |ws| && b in Extent(ws[i]) {
        assert i == |ws| - 1 || front[i] == ws[i];
      }
    }
  }

  lemma UnionSize(a: set<int>, b: set<int>)
    ensures |a + b| + |a * b| == |a| + |b|
  {
  }

  /** Counting never underestimates, and counts exactly when no two writes share a byte. */
  lemma {:induction false} CountingIsExact(ws: seq<Write>)
    ensures |Touched(ws)| <= Counted(ws)
    ensures |Touched(ws)| == Counted(ws) <==> Disjoint(ws)
  {
    if ws != [] {
      var front, last := ws[..|ws| - 1], ws[|ws| - 1];
      CountingIsExact(front);
      SpanSize(last.offset, last.offset + |last.data|);
      UnionSize(Touched(front), Extent(last));
      LastIsApart(ws, front, last);
    }
  }

  lemma LastIsApart(ws: seq<Write>, front: seq<Write>, last: Write)
    requires ws == front + [last]
    ensures Disjoint(ws) <==> Disjoint(front) && |Touched(front) * Extent(last)| == 0
  {
    assert forall i :: 0 <= i < |front| ==> ws[i] == front[i];
    assert ws[|front|] == last;
    if Disjoint(ws) {
      forall b | b in Touched(front) ensures b !in Extent(last) { InTouched(front, b); }
      assert Touched(front) * Extent(last) == {};
    }
    if Disjoint(front) && |Touched(front) * Extent(last)| == 0 {
      forall i, b | 0 <= i < |front| && b in Extent(front[i]) ensures b !in Extent(last) {
        InTouched(front, b);
        assert b !in Touched(front) * Extent(last);
      }
    }
  }

  lemma {:induction false} SeenIsTouched(ws: seq<Write>)
    ensures Seen(ws) <= Touched(ws)
    ensures (forall i :: 0 <= i < |ws| ==> 0 <= ws[i].offset) ==> Seen(ws) == Touched(ws)
  {
    if ws != [] { SeenIsTouched(ws[..|ws| - 1]); }
  }

  lemma SubsetOfSameSize(a: set<int>, b: set<int>)
    requires a <= b && |b| <= |a|
    ensures a == b
  {
    UnionSize(a, b - a);
    assert a + (b - a) == b && a * (b - a) == {};
    assert b - a == {};
  }

  lemma TouchedInside(ws: seq<Write>, size: int)
    requires NoEmpty(ws) && Touched(ws) == Span(0, size)
    ensures Inside(ws, size)
  {
    forall i | 0 <= i < |ws| ensures 0 <= ws[i].offset && ws[i].offset + |ws[i].data| <= size {
      var first, last := ws[i].offset, ws[i].offset + |ws[i].data| - 1;
      assert first in Extent(ws[i]) && last in Extent(ws[i]);
      InTouched(ws, first);
      InTouched(ws, last);
    }
  }

  /** The two checks hold together exactly for the write logs that partition the file. */
  lemma ExactTiling(ws: seq<Write>, size: int)
    requires size > 0 && NoEmpty(ws)
    ensures Tiles(ws, size) <==> Counted(ws) == size && exists m :: m >= size && Seen(ws) == Span(0, m)
  {
    CountingIsExact(ws);
    SeenIsTouched(ws);
    SpanSize(0, size);
    if m :| Counted(ws) == size && m >= size && Seen(ws) == Span(0, m) {
      assert Span(0, size) <= Touched(ws);
      SubsetOfSameSize(Span(0, size), Touched(ws));
      TouchedInside(ws, size);
    }
    if Tiles(ws, size) {
      assert Seen(ws) == Span(0, size);
    }
  }

  // ---- The file content under any interleaving --------------------------------------------

  /** One byte reaching the file. */
  datatype Store = Store(at: int, value: Byte)

  ghost function File(before: map<int, Byte>, trace: seq<Store>): map<int, Byte> {
    if trace == [] then before
    else File(before, trace[..|trace| - 1])[trace[|trace| - 1].at := trace[|trace| - 1].value]
  }

  ghost function ByteOf(w: Write, b: int): Byte
    requires b in Extent(w)
  {
    w.data[b - w.offset]
  }

  /** A store that one of the writes makes. */
  ghost predicate StoreOf(ws: seq<Write>, s: Store) {
    exists i :: 0 <= i < |ws| && s.at in Extent(ws[i]) && s.value == ByteOf(ws[i], s.at)
  }

  /** Some interleaving, byte by byte, of concurrent executions of the writes. */
  ghost predicate Interleaves(trace: seq<Store>, ws: seq<Write>) {
    && (forall k :: 0 <= k < |trace| ==> StoreOf(ws, trace[k]))
    && (forall i, b :: 0 <= i < |ws| && b in Extent(ws[i]) ==> Store(b, ByteOf(ws[i], b)) in trace)
  }

  /** When all stores to a byte carry one value, the file ends with it. */
  lemma {:induction false} AgreedByte(before: map<int, Byte>, trace: seq<Store>, s: Store)
    requires s in trace
    requires forall k :: 0 <= k < |trace| && trace[k].at == s.at ==> trace[k] == s
    ensures s.at in File(before, trace) && File(before, trace)[s.at] == s.value
  {
    var front := trace[..|trace| - 1];
    if trace[|trace| - 1].at != s.at {
      assert trace == front + [trace[|trace| - 1]];
      AgreedByte(before, front, s);
    }
  }

  lemma {:induction false} UntouchedByte(before: map<int, Byte>, trace: seq<Store>, b: int)
    requires forall k :: 0 <= k < |trace| ==> trace[k].at != b
    ensures b in File(before, trace) <==> b in before
    ensures b in before ==> File(before, trace)[b] == before[b]
  {
    if trace != [] { UntouchedByte(before, trace[..|trace| - 1], b); }
  }

  lemma OneOwner(ws: seq<Write>, i: nat, j: nat, b: int)
    requires Disjoint(ws) && i < |ws| && j < |ws| && b in Extent(ws[i]) && b in Extent(ws[j])
    ensures i == j
  {
  }

  lemma StoresAgree(ws: seq<Write>, trace: seq<Store>, i: nat, b: int, k: nat)
    requires Disjoint(ws) && Interleaves(trace, ws)
    requires i < |ws| && b in Extent(ws[i]) && k < |trace| && trace[k].at == b
    ensures trace[k].value == ByteOf(ws[i], b)
  {
    var j :| 0 <= j < |ws| && trace[k].at in Extent(ws[j]) && trace[k].value == ByteOf(ws[j], trace[k].at);
    OneOwner(ws, i, j, b);
  }

  /** Every byte of a tiled file is the one its own write carried. */
  lemma OwnBytes(ws: seq<Write>, before: map<int, Byte>, trace: seq<Store>, i: nat, b: int)
    requires Disjoint(ws) && Interleaves(trace, ws)
    requires i < |ws| && b in Extent(ws[i])
    ensures b in File(before, trace) && File(before, trace)[b] == ByteOf(ws[i], b)
  {
    var s := Store(b, ByteOf(ws[i], b));
    forall k | 0 <= k < |trace| && trace[k].at == b ensures trace[k] == s { StoresAgree(ws, trace, i, b, k); }
    AgreedByte(before, trace, s);
  }

  ghost predicate Alike(x: map<int, Byte>, y: map<int, Byte>, b: int) {
    (b in x <==> b in y) && (b in x ==> x[b] == y[b])
  }

  lemma AlikeEverywhere(x: map<int, Byte>, y: map<int, Byte>)
    requires forall b :: Alike(x, y, b)
    ensures x == y
  {
    assert x.Keys == y.Keys by {
      forall b ensures b in x.Keys <==> b in y.Keys { assert Alike(x, y, b); }
    }
    forall b | b in x ensures x[b] == y[b] { assert Alike(x, y, b); }
  }

  lemma SameByte(ws: seq<Write>, size: int, before: map<int, Byte>, one: seq<Store>, other: seq<Store>, b: int)
    requires Tiles(ws, size) && Interleaves(one, ws) && Interleaves(other, ws)
    ensures Alike(File(before, one), File(before, other), b)
    ensures 0 <= b < size ==> b in File(before, one)
  {
    InTouched(ws, b);
    if i :| 0 <= i < |ws| && b in Extent(ws[i]) {
      OwnBytes(ws, before, one, i, b);
      OwnBytes(ws, before, other, i, b);
    } else {
      UntouchedByte(before, one, b);
      UntouchedByte(before, other, b);
    }
  }

  /** However the writers interleave, the part file ends with the same content. */
  lemma ContentIndependentOfOrder(ws: seq<Write>, size: int, before: map<int, Byte>, one: seq<Store>, other: seq<Store>)
    requires Tiles(ws, size) && Interleaves(one, ws) && Interleaves(other, ws)
    ensures File(before, one) == File(before, other)
    ensures forall b :: 0 <= b < size ==> b in File(before, one)
  {
    forall b ensures Alike(File(before, one), File(before, other), b) && (0 <= b < size ==> b in File(before, one)) {
      SameByte(ws, size, before, one, other, b);
    }
    AlikeEverywhere(File(before, one), File(before, other));
  }

  /** The stores of one write, in order. */
  ghost function Burst(w: Write): (b: seq<Store>)
    ensures |b| == |w.data| && forall i :: 0 <= i < |b| ==> b[i] == Store(w.offset + i, w.data[i])
  {
    seq(|w.data|, i requires 0 <= i < |w.data| => Store(w.offset + i, w.data[i]))
  }

  /** The writes one after the other. */
  ghost function Sequential(ws: seq<Write>): seq<Store> {
    if ws == [] then [] else Sequential(ws[..|ws| - 1]) + Burst(ws[|ws| - 1])
  }

  lemma StoreOfSnoc(front: seq<Write>, last: Write, s: Store)
    ensures StoreOf(front + [last], s) <==> StoreOf(front, s) || (s.at in Extent(last) && s.value == ByteOf(last, s.at))
  {
    var ws := front + [last];
    assert ws[|front|] == last;
    if StoreOf(front, s) {
      var i :| 0 <= i < |front| && s.at in Extent(front[i]) && s.value == ByteOf(front[i], s.at);
      assert ws[i] == front[i];
    }
  }

  lemma {:induction false} SequentialStores(ws: seq<Write>, s: Store)
    ensures s in Sequential(ws) <==> StoreOf(ws, s)
  {
    if ws != [] {
      var front, last := ws[..|ws| - 1], ws[|ws| - 1];
      SequentialStores(front, s);
      BurstStores(last, s);
      StoreOfSnoc(front, last, s);
      assert front + [last] == ws;
    }
  }

  lemma BurstStores(w: Write, s: Store)
    ensures s in Burst(w) <==> s.at in Extent(w) && s.value == ByteOf(w, s.at)
  {
    if s.at in Extent(w) { assert Burst(w)[s.at - w.offset].at == s.at; }
  }

  /** A tiled file that started empty has exactly the expected size. */
  lemma TiledFileSize(ws: seq<Write>, size: int, trace: seq<Store>)
    requires Tiles(ws, size) && Interleaves(trace, ws)
    ensures File(map[], trace).Keys == Span(0, size)
  {
    forall b ensures b in File(map[], trace).Keys <==> b in Span(0, size) {
      InTouched(ws, b);
      if i :| 0 <= i < |ws| && b in Extent(ws[i]) {
        OwnBytes(ws, map[], trace, i, b);
      } else {
        UntouchedByte(map[], trace, b);
      }
    }
  }

  /** Writing sequentially is one of the interleavings, so every interleaving of a tiling log leaves
      what writing it sequentially would. */
  lemma AsIfSequential(ws: seq<Write>, size: int, before: map<int, Byte>, trace: seq<Store>)
    requires Tiles(ws, size) && Interleaves(trace, ws)
    ensures Interleaves(Sequential(ws), ws) && File(before, trace) == File(before, Sequential(ws))
  {
    SequentialInterleaves(ws);
    ContentIndependentOfOrder(ws, size, before, trace, Sequential(ws));
  }

  lemma SequentialInterleaves(ws: seq<Write>)
    ensures Interleaves(Sequential(ws), ws)
  {
    var trace := Sequential(ws);
    forall k | 0 <= k < |trace| ensures StoreOf(ws, trace[k]) { SequentialStores(ws, trace[k]); }
    forall i, b | 0 <= i < |ws| && b in Extent(ws[i]) ensures Store(b, ByteOf(ws[i], b)) in trace {
      SequentialStores(ws, Store(b, ByteOf(ws[i], b)));
    }
  }

  lemma LogSnoc(ws: seq<Write>, w: Write)
    ensures Seen(ws + [w]) == Seen(ws) + if w.offset < 0 then {} else Extent(w)
    ensures Counted(ws + [w]) == Counted(ws) + |w.data|
  {
    assert (ws + [w])[..|ws|] == ws;
  }

  // ---- The code ---------------------------------------------------------------------------

  class CountingWriterAt {
    const tracker: RangeTracker
    var downloaded: int
    var writeFailed: bool
    ghost var accepted: seq<Write>

    ghost predicate Consistent()
      reads this, tracker
    {
      && Canonical(tracker.intervals) && Bytes(tracker.intervals) == Seen(accepted)
      && downloaded == Counted(accepted) && NoEmpty(accepted)
    }

    constructor ()
      ensures Consistent() && accepted == [] && !writeFailed && fresh(tracker)
    {
      tracker := new RangeTracker();
      downloaded, writeFailed, accepted := 0, false, [];
    }

    /** Enters a write the tracker and the counter have seen already. */
    ghost method Accept(w: Write)
      requires Canonical(tracker.intervals) && NoEmpty(accepted) && w.data != []
      requires Bytes(tracker.intervals) == Seen(accepted) + if w.offset < 0 then {} else Extent(w)
      requires downloaded == Counted(accepted) + |w.data|
      modifies this`accepted
      ensures Consistent() && accepted == old(accepted) + [w]
    {
      LogSnoc(accepted, w);
      accepted := accepted + [w];
    }

    /** `n` and `failed` are what the underlying WriteAt returns for p. */
    method WriteAt(p: seq<Byte>, off: int, n: nat, failed: bool)
      requires Consistent() && n <= |p|
      modifies this, tracker
      ensures Consistent()
      ensures accepted == old(accepted) + if n > 0 then [Write(off, p[..n])] else []
      ensures writeFailed == (old(writeFailed) || failed)
    {
      if failed && !writeFailed { writeFailed := true; }
      if n > 0 {
        tracker.AddRange(off, off + n);
        downloaded := downloaded + n;
        Accept(Write(off, p[..n]));
      }
    }

    /** The coverage check after the transfer, and the checks of file size and byte count before
        publication. */
    method PassesChecks(expectedSize: int, statSize: int) returns (ok: bool)
      requires Consistent() && expectedSize > 0
      ensures ok <==> Tiles(accepted, expectedSize) && statSize == expectedSize
    {
      ExactTiling(accepted, expectedSize);
      var complete := tracker.IsComplete(expectedSize);
      ok := complete && statSize == expectedSize && downloaded == expectedSize;
    }
  }
}
