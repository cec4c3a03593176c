/** The forward pass of the embedder (`BertEmbedderModule.forward`): input
    checks, mask and id re-indexing, the depth handed to the encoder, the
    layer-count check, and the combination of the returned layers by mode.
    The encoder and the scalar mixer are parameters: the model says what is
    handed to them and what is done with what they return. */
module Embedder {
  import opened Outcome
  import opened Tensors
  import opened Config
  import opened Ids

  /** The batch dictionary key holding the word-piece ids. */
  const InputKey: string := "bert_wpm_pretokenized"

  /** The arguments of the encoder call. All encoded layers and the lexical
      layer are always requested, so those two flags are not fields. */
  datatype EncoderCall = EncoderCall(inputIds: IdTensor, tokenTypeIds: IdTensor,
                                     attentionMask: Mask, maxLayer: nat)

  /** Depth the encoder is asked to run to: "only" mode skips every
      transformer block and needs just the lexical layer. */
  function EffectiveDepth(a: Adapter): (d: nat)
    ensures d <= a.maxLayer
    ensures a.mode == Known(Only) ==> d == 0
    ensures a.mode != Known(Only) ==> d == a.maxLayer
  {
    if a.mode == Known(Only) then 0 else a.maxLayer
  }

  /** Everything `forward` does before the encoder runs. */
  function PrepareCall(a: Adapter, sent: map<string, IdTensor>): (r: Result<EncoderCall>)
    requires InputKey in sent ==> WellShaped(sent[InputKey])
    ensures InputKey !in sent ==> r == Err(MissingInput(InputKey))
    ensures InputKey in sent && sent[InputKey].seqLen > MaxSequenceLength ==>
              r == Err(SequenceTooLong(sent[InputKey].seqLen))
    ensures InputKey in sent && sent[InputKey].seqLen <= MaxSequenceLength && RemapIds(sent[InputKey].ids).Err? ==>
              r == Err(ReservedId)
    ensures r.Ok? <==> && InputKey in sent
                       && sent[InputKey].seqLen <= MaxSequenceLength
                       && RemapIds(sent[InputKey].ids).Ok?
    ensures r.Ok? ==> WellFormedCall(r.value)
    ensures r.Ok? ==>
              var t := sent[InputKey];
              && r.value.inputIds == IdTensor(t.batchSize, t.seqLen, RemapIds(t.ids).value)
              && r.value.attentionMask == ValidityMask(t.ids)
              && r.value.maxLayer == EffectiveDepth(a)
  {
    if InputKey !in sent then Err(MissingInput(InputKey))
    else
      var t := sent[InputKey];
      if t.seqLen > MaxSequenceLength then Err(SequenceTooLong(t.seqLen))
      else
        var mask := ValidityMask(t.ids);
        var ids :- RemapIds(t.ids);
        var zeros := MapEach(ids, (x: int) => 0);
        Ok(EncoderCall(IdTensor(t.batchSize, t.seqLen, ids), IdTensor(t.batchSize, t.seqLen, zeros),
                       mask, EffectiveDepth(a)))
  }

  /** Ids, segment ids and mask share one `[batch, seqLen]` shape, the
      segment ids are all zero (a single segment), and every id is an index. */
  predicate WellFormedCall(c: EncoderCall) {
    && WellShaped(c.inputIds)
    && c.tokenTypeIds.batchSize == c.inputIds.batchSize
    && c.tokenTypeIds.seqLen == c.inputIds.seqLen
    && WellShaped(c.tokenTypeIds)
    && IsGrid(c.attentionMask, c.inputIds.batchSize, c.inputIds.seqLen)
    && c.inputIds.seqLen <= MaxSequenceLength
    && (forall b, p :: 0 <= b < |c.inputIds.ids| && 0 <= p < |c.inputIds.ids[b]| ==> c.inputIds.ids[b][p] >= 0)
    && (forall b, p :: 0 <= b < |c.tokenTypeIds.ids| && 0 <= p < |c.tokenTypeIds.ids[b]| ==> c.tokenTypeIds.ids[b][p] == 0)
  }

  /** Everything `forward` does after the encoder returns: the layer count is
      checked against the resolved `maxLayer`, not against the depth the
      encoder was asked for, and then the layers are combined by mode. */
  function Combine<T>(a: Adapter, layers: seq<Layer<T>>, mask: Mask,
                      mix: (Mixer, seq<Layer<T>>, Mask) -> Layer<T>): (r: Result<Layer<T>>)
    ensures |layers| != a.maxLayer + 1 ==> r == Err(LayerCountMismatch(a.maxLayer + 1, |layers|))
    ensures r.Ok? ==> |layers| == a.maxLayer + 1 && a.mode.Known?
    ensures a.mode.Unrecognised? ==> r.Err?
    ensures |layers| == a.maxLayer + 1 && a.mode.Unrecognised? ==> r == Err(UnsupportedMode(a.mode.name))
    ensures |layers| == a.maxLayer + 1 && (a.mode == Known(None) || a.mode == Known(Top)) ==>
              r == Ok(layers[a.maxLayer])
    ensures |layers| == a.maxLayer + 1 && a.mode == Known(Only) ==> r == Ok(layers[0])
    ensures |layers| == a.maxLayer + 1 && a.mode == Known(Mix) ==> r == Ok(mix(a.mixer, layers, mask))
    ensures |layers| == a.maxLayer + 1 && a.mode == Known(Cat) ==>
              r == ConcatFeatures(layers[a.maxLayer], layers[0])
  {
    if |layers| != a.maxLayer + 1 then Err(LayerCountMismatch(a.maxLayer + 1, |layers|))
    else
      var last := layers[|layers| - 1];
      match a.mode
      case Known(None) => Ok(last)
      case Known(Top) => Ok(last)
      case Known(Only) => Ok(layers[0])
      case Known(Cat) => ConcatFeatures(last, layers[0])
      case Known(Mix) => Ok(mix(a.mixer, layers, mask))
      case Unrecognised(name) => Err(UnsupportedMode(name))
  }

  /** The whole forward pass for a given encoder and mixer. */
  function Forward<T>(a: Adapter, sent: map<string, IdTensor>,
                      encoder: EncoderCall -> seq<Layer<T>>,
                      mix: (Mixer, seq<Layer<T>>, Mask) -> Layer<T>): (r: Result<Layer<T>>)
    requires InputKey in sent ==> WellShaped(sent[InputKey])
    ensures InputKey !in sent ==> r == Err(MissingInput(InputKey))
    ensures InputKey in sent && sent[InputKey].seqLen > MaxSequenceLength ==>
              r == Err(SequenceTooLong(sent[InputKey].seqLen))
    ensures InputKey in sent && sent[InputKey].seqLen <= MaxSequenceLength && RemapIds(sent[InputKey].ids).Err? ==>
              r == Err(ReservedId)
    ensures r.Ok? ==> && InputKey in sent
                      && sent[InputKey].seqLen <= MaxSequenceLength
                      && RemapIds(sent[InputKey].ids).Ok?
                      && a.mode.Known?
    ensures PrepareCall(a, sent).Ok? ==>
              var call := PrepareCall(a, sent).value;
              var layers := encoder(call);
              var raw := sent[InputKey];
              && call.inputIds == IdTensor(raw.batchSize, raw.seqLen, RemapIds(raw.ids).value)
              && call.attentionMask == ValidityMask(raw.ids)
              && call.maxLayer == EffectiveDepth(a)
              && (|layers| != a.maxLayer + 1 ==> r == Err(LayerCountMismatch(a.maxLayer + 1, |layers|)))
              && (|layers| == a.maxLayer + 1 ==>
                    match a.mode
                    case Known(None) => r == Ok(layers[a.maxLayer])
                    case Known(Top) => r == Ok(layers[a.maxLayer])
                    case Known(Only) => r == Ok(layers[0])
                    case Known(Cat) => r == ConcatFeatures(layers[a.maxLayer], layers[0])
                    case Known(Mix) => r == Ok(mix(a.mixer, layers, ValidityMask(raw.ids)))
                    case Unrecognised(name) => r == Err(UnsupportedMode(name)))
  {
    var call :- PrepareCall(a, sent);
    Combine(a, encoder(call), call.attentionMask, mix)
  }

  /** An encoder that returns one layer more than the depth it is asked for
      (the lexical layer plus one per transformer block run). */
  ghost predicate HonoursDepth<T>(encoder: EncoderCall -> seq<Layer<T>>) {
    forall call :: |encoder(call)| == call.maxLayer + 1
  }

  /** An encoder whose every layer has shape `[batch, seqLen, width]` for the ids it is given. */
  ghost predicate KeepsShape<T>(encoder: EncoderCall -> seq<Layer<T>>, width: nat) {
    forall call, i :: 0 <= i < |encoder(call)| ==>
      HasShape(encoder(call)[i], call.inputIds.batchSize, call.inputIds.seqLen, width)
  }
}
