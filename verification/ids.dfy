/** Validation and re-indexing of the word-piece ids handed to `forward`.
    The batch arrives indexed by the training framework's vocabulary, which
    reserves 0 for padding and 1 for an unknown-token entry the word-piece
    indexer never produces; every real word piece `x` sits at `x + 2`
    compared with the encoder's own zero-based vocabulary. */
module Ids {
  import opened Outcome
  import opened Tensors

  /** The longest input the encoder accepts (section 3.2 of the BERT paper, arXiv 1810.04805). */
  const MaxSequenceLength: nat := 512

  /** The encoder's `[PAD]` id. */
  const FillId: int := 0

  /** Distance between the two vocabularies: padding and the unknown-token entry. */
  const IndexOffset: int := 2

  type IdMatrix = seq<seq<int>>
  type Mask = seq<seq<bool>>

  /** An integer tensor of shape `[batchSize, seqLen]`; the shape is kept
      apart from the rows because a batch of no rows still has a length. */
  datatype IdTensor = IdTensor(batchSize: nat, seqLen: nat, ids: IdMatrix)

  predicate WellShaped(t: IdTensor) {
    IsGrid(t.ids, t.batchSize, t.seqLen)
  }

  /** True exactly where the raw id is not padding. */
  function ValidityMask(ids: IdMatrix): (m: Mask)
    ensures SameShape(ids, m)
    ensures forall b, p :: 0 <= b < |ids| && 0 <= p < |ids[b]| ==> (m[b][p] <==> ids[b][p] != 0)
  {
    MapEach(ids, (x: int) => x != 0)
  }

  /** A raw id the re-indexing accepts: padding or a real word piece. */
  predicate Remappable(raw: int) {
    raw == 0 || raw > 1
  }

  /** Reference meaning of the re-indexing, one id at a time: padding becomes
      the encoder's pad id and a word piece loses the offset. */
  function NativeId(raw: int): (n: int)
    requires Remappable(raw)
    ensures n >= 0
    ensures raw == 0 ==> n == 0
    ensures raw != 0 ==> n + IndexOffset == raw
  {
    if raw == 0 then FillId else raw - IndexOffset
  }

  /** First step: padding positions receive the pad id before the shift. */
  function FillPadding(ids: IdMatrix): IdMatrix {
    MapEach(ids, (x: int) => if x == 0 then FillId + IndexOffset else x)
  }

  /** The consistency check made after filling: no id is 0 or 1 any more. */
  predicate AllAboveOne(ids: IdMatrix) {
    forall b, p :: 0 <= b < |ids| && 0 <= p < |ids[b]| ==> ids[b][p] > 1
  }

  /** Last step: every id moves down by the offset. */
  function ShiftDown(ids: IdMatrix): IdMatrix {
    MapEach(ids, (x: int) => x - IndexOffset)
  }

  /** The re-indexing of `forward`: fill, check, shift. */
  function RemapIds(ids: IdMatrix): (r: Result<IdMatrix>)
    ensures r.Ok? <==> forall b, p :: 0 <= b < |ids| && 0 <= p < |ids[b]| ==> Remappable(ids[b][p])
    ensures r.Err? ==> r.error == ReservedId
    ensures r.Ok? ==> SameShape(ids, r.value)
    ensures r.Ok? ==> forall b, p :: 0 <= b < |ids| && 0 <= p < |ids[b]| ==>
                        Remappable(ids[b][p]) && r.value[b][p] == NativeId(ids[b][p])
  {
    var filled := FillPadding(ids);
    if AllAboveOne(filled) then Ok(ShiftDown(filled)) else Err(ReservedId)
  }

  /** Every id the encoder receives is a valid non-negative index. */
  lemma RemappedIdsNonNegative(ids: IdMatrix)
    requires RemapIds(ids).Ok?
    ensures forall b, p :: 0 <= b < |ids| && 0 <= p < |ids[b]| ==> RemapIds(ids).value[b][p] >= 0
  {
  }

  /** A single id of 1, or any negative id, anywhere in the batch fails the whole batch. */
  lemma ReservedIdRejected(ids: IdMatrix, b: nat, p: nat)
    requires b < |ids| && p < |ids[b]|
    requires ids[b][p] == 1 || ids[b][p] < 0
    ensures RemapIds(ids) == Err(ReservedId)
  {
  }

  /** The inverse direction: the framework's ids from the encoder's ids and the mask. */
  function RestoreIds(native: IdMatrix, mask: Mask): (raw: IdMatrix)
    requires SameShape(native, mask)
  {
    seq(|native|, b requires 0 <= b < |native| =>
      seq(|native[b]|, p requires 0 <= p < |native[b]| =>
        if mask[b][p] then native[b][p] + IndexOffset else 0))
  }

  /** Nothing is lost by the re-indexing: together with the mask, computed
      from the raw ids, the re-indexed ids give back the raw ids. */
  lemma RemapRoundTrip(ids: IdMatrix)
    requires RemapIds(ids).Ok?
    ensures SameShape(RemapIds(ids).value, ValidityMask(ids))
    ensures RestoreIds(RemapIds(ids).value, ValidityMask(ids)) == ids
  {
    var native := RemapIds(ids).value;
    var mask := ValidityMask(ids);
    var back := RestoreIds(native, mask);
    forall b | 0 <= b < |ids|
      ensures back[b] == ids[b]
    {
      forall p | 0 <= p < |ids[b]|
        ensures back[b][p] == ids[b][p]
      {
        assert native[b][p] == NativeId(ids[b][p]);
        assert mask[b][p] <==> ids[b][p] != 0;
      }
    }
  }

  /** The re-indexing written as a loop over the tensor, one position at a
      time, building a new matrix; it agrees with the whole-tensor pipeline. */
  method RemapLoop(ids: IdMatrix) returns (r: Result<IdMatrix>)
    ensures r == RemapIds(ids)
  {
    var out: IdMatrix := [];
    var b := 0;
    while b < |ids|
      invariant 0 <= b <= |ids|
      invariant |out| == b
      invariant forall i :: 0 <= i < b ==> |out[i]| == |ids[i]|
      invariant forall i, j :: 0 <= i < b && 0 <= j < |ids[i]| ==>
                  Remappable(ids[i][j]) && out[i][j] == NativeId(ids[i][j])
    {
      var row: seq<int> := [];
      var p := 0;
      while p < |ids[b]|
        invariant 0 <= p <= |ids[b]|
        invariant |row| == p
        invariant forall j :: 0 <= j < p ==> Remappable(ids[b][j]) && row[j] == NativeId(ids[b][j])
      {
        var x := ids[b][p];
        if x == 0 {
          x := FillId + IndexOffset;
        }
        if x <= 1 {
          return Err(ReservedId);
        }
        row := row + [x - IndexOffset];
        p := p + 1;
      }
      out := out + [row];
      b := b + 1;
    }
    var expected := RemapIds(ids);
    assert expected.Ok?;
    assert out == expected.value by {
      assert |out| == |expected.value|;
      forall i | 0 <= i < |out|
        ensures out[i] == expected.value[i]
      {
      }
    }
    return Ok(out);
  }
}
