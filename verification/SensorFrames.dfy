/** Sensors, their registers, and the frames that read several of them at once. */
module SensorFrames {
  import opened ModbusFrames

  const REGISTER_BASE := 40001

  /** scale and the published values are of an uninterpreted number type D (doubles in the program). */
  datatype Sensor<D> = Sensor(id: int, dataType: string, registerAddr: int, scale: D)

  datatype ReadFrame = ReadFrame(start: u16, quantity: nat, sensors: seq<nat>)

  function Width(dataType: string): (w: nat)
    ensures w == 1 || w == 2
  {
    if dataType == "int32" || dataType == "uint32" || dataType == "float32" then 2 else 1
  }

  /** The cast to uint16_t of the address within the bank. */
  function Offset(registerAddr: int): u16 { (registerAddr - REGISTER_BASE) % 65536 }

  function Plus(start: u16, quantity: nat): u16 { (start + quantity) % 65536 }

  // ---- Runs of exactly adjacent sensors in the sorted order ----

  ghost predicate IndexesOk<D>(sensors: seq<Sensor<D>>, order: seq<nat>) {
    forall k | 0 <= k < |order| :: order[k] < |sensors|
  }

  ghost predicate Ascending<D>(sensors: seq<Sensor<D>>, order: seq<nat>, k: nat)
    requires IndexesOk(sensors, order) && 0 < k < |order|
  {
    sensors[order[k - 1]].registerAddr <= sensors[order[k]].registerAddr
  }

  function Indexes(n: nat): seq<nat> { seq(n, i => i) }

  /** A result std::sort may give: the indexes permuted, with ascending addresses. */
  ghost predicate SortedOrder<D>(sensors: seq<Sensor<D>>, order: seq<nat>) {
    && multiset(order) == multiset(Indexes(|sensors|))
    && IndexesOk(sensors, order)
    && (forall k: nat | 0 < k < |order| :: Ascending(sensors, order, k))
  }

  /** Registers taken up by the first k sensors of the order. */
  function Taken<D>(sensors: seq<Sensor<D>>, order: seq<nat>, k: nat): nat
    requires IndexesOk(sensors, order) && k <= |order|
  {
    if k == 0 then 0 else Taken(sensors, order, k - 1) + Width(sensors[order[k - 1]].dataType)
  }

  function OffsetAt<D>(sensors: seq<Sensor<D>>, order: seq<nat>, k: nat): u16
    requires IndexesOk(sensors, order) && k < |order|
  {
    Offset(sensors[order[k]].registerAddr)
  }

  /** Sensor k begins where sensor k - 1 ends. */
  ghost predicate Follows<D>(sensors: seq<Sensor<D>>, order: seq<nat>, k: nat)
    requires IndexesOk(sensors, order) && 0 < k < |order|
  {
    OffsetAt(sensors, order, k) ==
      Plus(OffsetAt(sensors, order, k - 1), Width(sensors[order[k - 1]].dataType))
  }

  /** Sensors lo..hi of the order may share a frame. */
  ghost predicate Mergeable<D>(sensors: seq<Sensor<D>>, order: seq<nat>, lo: nat, hi: nat)
    requires IndexesOk(sensors, order) && lo < hi <= |order|
  {
    && (forall k | lo < k < hi :: Follows(sensors, order, k))
    && Taken(sensors, order, hi) - Taken(sensors, order, lo) <= MAX_REGISTERS
  }

  /** Piece c of the cuts, sensors cuts[c]..cuts[c + 1], is not empty and may share a frame. */
  ghost predicate PieceOk<D>(sensors: seq<Sensor<D>>, order: seq<nat>, cuts: seq<nat>, c: nat)
    requires IndexesOk(sensors, order)
  {
    && c + 1 < |cuts| && cuts[c] < cuts[c + 1] <= |order|
    && Mergeable(sensors, order, cuts[c], cuts[c + 1])
  }

  /** Piece c could not have taken in the next sensor. */
  ghost predicate Full<D>(sensors: seq<Sensor<D>>, order: seq<nat>, cuts: seq<nat>, c: nat)
    requires IndexesOk(sensors, order)
  {
    && c + 1 < |cuts| && cuts[c] <= cuts[c + 1] < |order|
    && !Mergeable(sensors, order, cuts[c], cuts[c + 1] + 1)
  }

  /** A way to cut the whole order into mergeable pieces. */
  ghost predicate Cutting<D>(sensors: seq<Sensor<D>>, order: seq<nat>, cuts: seq<nat>)
    requires IndexesOk(sensors, order)
  {
    && cuts != [] && cuts[0] == 0 && cuts[|cuts| - 1] == |order|
    && (forall c: nat | c < |cuts| - 1 :: PieceOk(sensors, order, cuts, c))
  }

  ghost predicate Maximal<D>(sensors: seq<Sensor<D>>, order: seq<nat>, cuts: seq<nat>)
    requires IndexesOk(sensors, order)
  {
    forall c: nat | c + 2 < |cuts| :: Full(sensors, order, cuts, c)
  }

  function FrameOf<D>(sensors: seq<Sensor<D>>, order: seq<nat>, lo: nat, hi: nat): ReadFrame
    requires IndexesOk(sensors, order) && lo < hi <= |order|
  {
    var quantity := Taken(sensors, order, hi) - Taken(sensors, order, lo);
    ReadFrame(OffsetAt(sensors, order, lo), if quantity < 0 then 0 else quantity, order[lo..hi])
  }

  ghost predicate FrameAt<D>(
      sensors: seq<Sensor<D>>, order: seq<nat>, cuts: seq<nat>, frames: seq<ReadFrame>, c: nat)
    requires IndexesOk(sensors, order)
  {
    && c < |frames| && c + 1 < |cuts| && cuts[c] < cuts[c + 1] <= |order|
    && frames[c] == FrameOf(sensors, order, cuts[c], cuts[c + 1])
  }

  /** The frames are the pieces of the cutting. */
  ghost predicate FramesOf<D>(sensors: seq<Sensor<D>>, order: seq<nat>, cuts: seq<nat>, frames: seq<ReadFrame>)
    requires IndexesOk(sensors, order)
  {
    && |cuts| == |frames| + 1
    && (forall c: nat | c < |frames| :: FrameAt(sensors, order, cuts, frames, c))
  }

  /** The frames of a cutting of which no piece could have taken in the next sensor. */
  ghost predicate Greedy<D>(sensors: seq<Sensor<D>>, order: seq<nat>, cuts: seq<nat>, frames: seq<ReadFrame>)
    requires IndexesOk(sensors, order)
  {
    FramesOf(sensors, order, cuts, frames) && Cutting(sensors, order, cuts) && Maximal(sensors, order, cuts)
  }

  /** What mergeFrames makes of the ordered sensors. */
  ghost predicate Merged<D>(sensors: seq<Sensor<D>>, order: seq<nat>, frames: seq<ReadFrame>)
    requires IndexesOk(sensors, order)
  {
    exists cuts: seq<nat> :: Greedy(sensors, order, cuts, frames)
  }

  lemma {:induction false} TakenGrows<D>(sensors: seq<Sensor<D>>, order: seq<nat>, lo: nat, hi: nat)
    requires IndexesOk(sensors, order) && lo <= hi <= |order|
    ensures Taken(sensors, order, lo) + (hi - lo) <= Taken(sensors, order, hi)
  {
    if lo < hi {
      TakenGrows(sensors, order, lo, hi - 1);
    }
  }

  lemma PiecesOfMergeable<D>(sensors: seq<Sensor<D>>, order: seq<nat>, lo: nat, hi: nat, a: nat, b: nat)
    requires IndexesOk(sensors, order) && lo <= a < b <= hi <= |order|
    requires Mergeable(sensors, order, lo, hi)
    ensures Mergeable(sensors, order, a, b)
  {
    TakenGrows(sensors, order, lo, a);
    TakenGrows(sensors, order, b, hi);
  }

  /** Within a mergeable piece a sensor sits where the widths before it add up to. */
  lemma {:induction false} OffsetInPiece<D>(sensors: seq<Sensor<D>>, order: seq<nat>, lo: nat, k: nat)
    requires IndexesOk(sensors, order) && lo <= k < |order|
    requires forall j | lo < j <= k :: Follows(sensors, order, j)
    ensures Taken(sensors, order, lo) <= Taken(sensors, order, k)
    ensures OffsetAt(sensors, order, k) ==
            Plus(OffsetAt(sensors, order, lo), Taken(sensors, order, k) - Taken(sensors, order, lo))
  {
    TakenGrows(sensors, order, lo, k);
    if lo < k {
      OffsetInPiece(sensors, order, lo, k - 1);
      TakenGrows(sensors, order, lo, k - 1);
      PlusPlus(OffsetAt(sensors, order, lo), Taken(sensors, order, k - 1) - Taken(sensors, order, lo),
               Width(sensors[order[k - 1]].dataType));
      assert Follows(sensors, order, k);
    }
  }

  lemma PlusPlus(start: u16, a: nat, b: nat)
    ensures Plus(Plus(start, a), b) == Plus(start, a + b)
  {
  }

  /** Greedy stays ahead: cut c of a maximal cutting is never before cut c of another one. */
  lemma {:induction false} GreedyStaysAhead<D>(
      sensors: seq<Sensor<D>>, order: seq<nat>, greedy: seq<nat>, other: seq<nat>, c: nat)
    requires IndexesOk(sensors, order)
    requires Cutting(sensors, order, greedy) && Maximal(sensors, order, greedy) && Cutting(sensors, order, other)
    requires c < |greedy| && c < |other|
    ensures other[c] <= greedy[c]
  {
    if c > 0 {
      GreedyStaysAhead(sensors, order, greedy, other, c - 1);
      assert PieceOk(sensors, order, other, c - 1);
      if greedy[c] < other[c] {
        assert c + 1 < |greedy|;
        assert PieceOk(sensors, order, greedy, c - 1) && Full(sensors, order, greedy, c - 1);
        PiecesOfMergeable(sensors, order, other[c - 1], other[c], greedy[c - 1], greedy[c] + 1);
      }
    }
  }

  /** Merged frames are as few as those of any cutting. */
  lemma MergedFramesAreFewest<D>(sensors: seq<Sensor<D>>, order: seq<nat>, frames: seq<ReadFrame>, other: seq<nat>)
    requires IndexesOk(sensors, order) && Merged(sensors, order, frames) && Cutting(sensors, order, other)
    ensures |frames| <= |other| - 1
  {
    var cuts: seq<nat> :| Greedy(sensors, order, cuts, frames);
    GreedyIsOptimal(sensors, order, cuts, other);
  }

  /** No way of cutting the sorted sensors into adjacent runs of at most 125 registers needs fewer
      frames than a maximal one. */
  lemma GreedyIsOptimal<D>(sensors: seq<Sensor<D>>, order: seq<nat>, greedy: seq<nat>, other: seq<nat>)
    requires IndexesOk(sensors, order)
    requires Cutting(sensors, order, greedy) && Maximal(sensors, order, greedy) && Cutting(sensors, order, other)
    ensures |greedy| <= |other|
  {
    if |other| < |greedy| {
      assert PieceOk(sensors, order, greedy, |other| - 1);
      GreedyStaysAhead(sensors, order, greedy, other, |other| - 1);
    }
  }
}
