/** Properties of the embedder that relate construction, the forward pass
    and the output-width query. */
module Properties {
  import opened Outcome
  import opened Tensors
  import opened Config
  import opened Ids
  import opened Embedder

  /** For every mode but "mix", the reported output width is the width of
      what the forward pass returns, given an encoder whose layers all have
      the hidden size; and "cat" never trips over its concatenation. */
  lemma OutputDimMatchesForward<T>(a: Adapter, sent: map<string, IdTensor>,
                                   encoder: EncoderCall -> seq<Layer<T>>,
                                   mix: (Mixer, seq<Layer<T>>, Mask) -> Layer<T>)
    requires InputKey in sent && WellShaped(sent[InputKey])
    requires a.mode.Known? && a.mode.mode != Mix
    requires KeepsShape(encoder, a.encoder.hiddenSize)
    ensures PrepareCall(a, sent).Ok? ==>
              (Forward(a, sent, encoder, mix).Ok? <==> |encoder(PrepareCall(a, sent).value)| == a.maxLayer + 1)
    ensures Forward(a, sent, encoder, mix).Ok? ==>
              HasShape(Forward(a, sent, encoder, mix).value,
                       sent[InputKey].batchSize, sent[InputKey].seqLen, OutputDim(a))
  {
    var t := sent[InputKey];
    if PrepareCall(a, sent).Ok? {
      var call := PrepareCall(a, sent).value;
      var layers := encoder(call);
      if |layers| == a.maxLayer + 1 {
        var h := a.encoder.hiddenSize;
        assert HasShape(layers[0], t.batchSize, t.seqLen, h);
        assert HasShape(layers[a.maxLayer], t.batchSize, t.seqLen, h);
        if a.mode == Known(Cat) {
          ConcatSplits(layers[a.maxLayer], layers[0], t.batchSize, t.seqLen, h, h);
        }
      }
    }
  }

  /** "cat" puts the deepest layer's features first and the lexical layer's
      after them, each of the hidden size. */
  lemma CatModeOrder<T>(a: Adapter, sent: map<string, IdTensor>,
                        encoder: EncoderCall -> seq<Layer<T>>,
                        mix: (Mixer, seq<Layer<T>>, Mask) -> Layer<T>)
    requires InputKey in sent && WellShaped(sent[InputKey])
    requires a.mode == Known(Cat)
    requires KeepsShape(encoder, a.encoder.hiddenSize)
    requires Forward(a, sent, encoder, mix).Ok?
    ensures var layers := encoder(PrepareCall(a, sent).value);
            var h := a.encoder.hiddenSize;
            var out := Forward(a, sent, encoder, mix).value;
            && |layers| == a.maxLayer + 1
            && WidthAtLeast(out, 2 * h)
            && FeatureSlice(out, 0, h) == layers[|layers| - 1]
            && FeatureSlice(out, h, 2 * h) == layers[0]
  {
    var t := sent[InputKey];
    var call := PrepareCall(a, sent).value;
    var layers := encoder(call);
    var h := a.encoder.hiddenSize;
    assert HasShape(layers[0], t.batchSize, t.seqLen, h);
    assert HasShape(layers[a.maxLayer], t.batchSize, t.seqLen, h);
    ConcatSplits(layers[a.maxLayer], layers[0], t.batchSize, t.seqLen, h, h);
  }

  /** "only" asks the encoder for depth 0 but still demands `maxLayer + 1`
      layers back; when it succeeds it returns the lexical layer. */
  lemma OnlyModeReturnsLexicalLayer<T>(a: Adapter, sent: map<string, IdTensor>,
                                       encoder: EncoderCall -> seq<Layer<T>>,
                                       mix: (Mixer, seq<Layer<T>>, Mask) -> Layer<T>)
    requires InputKey in sent ==> WellShaped(sent[InputKey])
    requires a.mode == Known(Only)
    requires PrepareCall(a, sent).Ok?
    ensures PrepareCall(a, sent).value.maxLayer == 0
    ensures var layers := encoder(PrepareCall(a, sent).value);
            && (Forward(a, sent, encoder, mix).Ok? <==> |layers| == a.maxLayer + 1)
            && (Forward(a, sent, encoder, mix).Ok? ==> Forward(a, sent, encoder, mix).value == layers[0])
  {
  }

  /** The consequence of checking against `maxLayer` rather than the
      effective depth: with an encoder that returns exactly the layers it was
      asked for, "only" mode works only when `maxLayer` is 0. */
  lemma OnlyModeNeedsZeroMaxLayer<T>(a: Adapter, sent: map<string, IdTensor>,
                                     encoder: EncoderCall -> seq<Layer<T>>,
                                     mix: (Mixer, seq<Layer<T>>, Mask) -> Layer<T>)
    requires InputKey in sent ==> WellShaped(sent[InputKey])
    requires a.mode == Known(Only)
    requires PrepareCall(a, sent).Ok?
    requires HonoursDepth(encoder)
    ensures Forward(a, sent, encoder, mix).Ok? <==> a.maxLayer == 0
  {
  }

  /** In every other known mode a depth-honouring encoder passes the layer-count check. */
  lemma OtherModesPassLayerCount<T>(a: Adapter, sent: map<string, IdTensor>,
                                    encoder: EncoderCall -> seq<Layer<T>>,
                                    mix: (Mixer, seq<Layer<T>>, Mask) -> Layer<T>)
    requires InputKey in sent ==> WellShaped(sent[InputKey])
    requires a.mode.Known? && a.mode.mode != Only
    requires PrepareCall(a, sent).Ok?
    requires HonoursDepth(encoder)
    ensures |encoder(PrepareCall(a, sent).value)| == a.maxLayer + 1
    ensures a.mode.mode != Cat ==> Forward(a, sent, encoder, mix).Ok?
  {
  }

  /** "mix" hands the mixer exactly as many layers as it was sized for at
      construction, together with the mask of the raw ids. */
  lemma MixGetsOneInputPerLayer<T>(a: Adapter, sent: map<string, IdTensor>,
                                   encoder: EncoderCall -> seq<Layer<T>>,
                                   mix: (Mixer, seq<Layer<T>>, Mask) -> Layer<T>)
    requires ValidAdapter(a)
    requires a.mode == Known(Mix)
    requires InputKey in sent && WellShaped(sent[InputKey])
    requires Forward(a, sent, encoder, mix).Ok?
    ensures var layers := encoder(PrepareCall(a, sent).value);
            && a.mixer == ScalarMix(|layers|, false)
            && Forward(a, sent, encoder, mix).value == mix(a.mixer, layers, ValidityMask(sent[InputKey].ids))
  {
  }

  /** A mode string naming no mode is accepted at construction, reported
      with the hidden size by the width query, and fails every forward pass. */
  lemma UnrecognisedModeFailsOnlyInForward<T>(s: Settings, enc: EncoderConfig,
                                              sent: map<string, IdTensor>,
                                              encoder: EncoderCall -> seq<Layer<T>>,
                                              mix: (Mixer, seq<Layer<T>>, Mask) -> Layer<T>)
    requires ParseMode(s.modeName).Unrecognised?
    requires s.maxLayer <= enc.numHiddenLayers
    requires InputKey in sent ==> WellShaped(sent[InputKey])
    ensures Construct(s, enc).Ok?
    ensures OutputDim(Construct(s, enc).value) == enc.hiddenSize
    ensures Forward(Construct(s, enc).value, sent, encoder, mix).Err?
  {
  }

  /** A batch of `batch` rows of `len` copies of the first word piece. */
  function UniformBatch(batch: nat, len: nat): (t: IdTensor)
    ensures WellShaped(t)
  {
    IdTensor(batch, len, seq(batch, _ => seq(len, _ => IndexOffset)))
  }

  /** The length limit is inclusive: 512 word pieces pass, 513 do not. */
  lemma SequenceLengthBoundary(a: Adapter, batch: nat)
    ensures PrepareCall(a, map[InputKey := UniformBatch(batch, 512)]).Ok?
    ensures PrepareCall(a, map[InputKey := UniformBatch(batch, 513)]) == Err(SequenceTooLong(513))
  {
  }

  /** A 12-layer encoder of hidden size 768 in "top" mode with the default
      bound: the bound resolves to 12 and a `[2, 10]` batch yields the
      twelfth (deepest) layer of a depth-12 call, shaped `[2, 10, 768]`. */
  lemma TopModeExample<T>(encoder: EncoderCall -> seq<Layer<T>>,
                          mix: (Mixer, seq<Layer<T>>, Mask) -> Layer<T>)
    requires HonoursDepth(encoder)
    requires KeepsShape(encoder, 768)
    ensures var a := Construct(Settings("top", false, -1, []), EncoderConfig(12, 768));
            var sent := map[InputKey := UniformBatch(2, 10)];
            && a.Ok? && a.value.maxLayer == 12
            && PrepareCall(a.value, sent).Ok?
            && PrepareCall(a.value, sent).value.maxLayer == 12
            && Forward(a.value, sent, encoder, mix) == Ok(encoder(PrepareCall(a.value, sent).value)[12])
            && HasShape(Forward(a.value, sent, encoder, mix).value, 2, 10, 768)
  {
    var a := Construct(Settings("top", false, -1, []), EncoderConfig(12, 768)).value;
    var sent := map[InputKey := UniformBatch(2, 10)];
    var t := sent[InputKey];
    assert ParseMode("top") == Known(Top);
    assert RemapIds(t.ids).Ok? by {
      forall b, p | 0 <= b < |t.ids| && 0 <= p < |t.ids[b]|
        ensures Remappable(t.ids[b][p])
      {
        assert t.ids[b][p] == IndexOffset;
      }
    }
    OtherModesPassLayerCount(a, sent, encoder, mix);
    OutputDimMatchesForward(a, sent, encoder, mix);
  }

  /** The same encoder in "cat" mode: the output is `[2, 10, 1536]`, which
      is what the width query reports. */
  lemma CatModeExample<T>(encoder: EncoderCall -> seq<Layer<T>>,
                          mix: (Mixer, seq<Layer<T>>, Mask) -> Layer<T>)
    requires HonoursDepth(encoder)
    requires KeepsShape(encoder, 768)
    ensures var a := Construct(Settings("cat", false, -1, []), EncoderConfig(12, 768));
            var sent := map[InputKey := UniformBatch(2, 10)];
            && a.Ok? && OutputDim(a.value) == 1536
            && Forward(a.value, sent, encoder, mix).Ok?
            && HasShape(Forward(a.value, sent, encoder, mix).value, 2, 10, 1536)
  {
    var a := Construct(Settings("cat", false, -1, []), EncoderConfig(12, 768)).value;
    var sent := map[InputKey := UniformBatch(2, 10)];
    var t := sent[InputKey];
    assert ParseMode("cat") == Known(Cat);
    assert RemapIds(t.ids).Ok? by {
      forall b, p | 0 <= b < |t.ids| && 0 <= p < |t.ids[b]|
        ensures Remappable(t.ids[b][p])
      {
        assert t.ids[b][p] == IndexOffset;
      }
    }
    OtherModesPassLayerCount(a, sent, encoder, mix);
    OutputDimMatchesForward(a, sent, encoder, mix);
  }
}
