/** Construction of the embedder: the embeddings mode, the resolved
    `max_layer`, trainability, and the scalar mixer of "mix" mode
    (`BertEmbedderModule.__init__` and `get_output_dim`). */
module Config {
  import opened Outcome

  /** The embeddings modes the forward pass knows how to combine. */
  datatype Mode = None | Top | Only | Cat | Mix

  /** The configuration string of each mode. */
  function ModeName(m: Mode): string {
    match m
    case None => "none"
    case Top => "top"
    case Only => "only"
    case Cat => "cat"
    case Mix => "mix"
  }

  /** The configured mode: the configuration is a free string, and a string
      that names no mode is kept as it is, to be rejected by the forward pass. */
  datatype ModeSetting = Known(mode: Mode) | Unrecognised(name: string)

  function ParseMode(s: string): (r: ModeSetting)
    ensures r.Known? ==> ModeName(r.mode) == s
    ensures r.Unrecognised? ==> r.name == s && forall m: Mode :: ModeName(m) != s
  {
    if s == "none" then Known(None)
    else if s == "top" then Known(Top)
    else if s == "only" then Known(Only)
    else if s == "cat" then Known(Cat)
    else if s == "mix" then Known(Mix)
    else Unrecognised(s)
  }

  /** Parsing inverts naming: every mode is recognised from its own name. */
  lemma ParseModeName(m: Mode)
    ensures ParseMode(ModeName(m)) == Known(m)
  {
  }

  /** The run arguments the constructor reads; `targetTasks` is the already
      parsed target task list. */
  datatype Settings = Settings(modeName: string, fineTune: bool, maxLayer: int, targetTasks: seq<string>)

  /** The two read-only fields of the pretrained encoder's configuration. */
  datatype EncoderConfig = EncoderConfig(numHiddenLayers: nat, hiddenSize: nat)

  /** The learned layer combiner, present only in "mix" mode. */
  datatype Mixer = NoMixer | ScalarMix(numInputs: nat, doLayerNorm: bool)

  /** The structural fields of a constructed embedder. `trainable` is the
      `requires_grad` flag given to every encoder parameter. */
  datatype Adapter = Adapter(encoder: EncoderConfig, mode: ModeSetting, maxLayer: nat,
                             trainable: bool, mixer: Mixer)

  /** What construction guarantees of every embedder it returns. */
  predicate ValidAdapter(a: Adapter) {
    && a.maxLayer <= a.encoder.numHiddenLayers
    && (a.mixer.ScalarMix? <==> a.mode == Known(Mix))
    && (a.mixer.ScalarMix? ==> a.mixer.numInputs == a.maxLayer + 1 && !a.mixer.doLayerNorm)
  }

  /** A non-negative configured bound is taken as is, a negative one means
      "all layers"; either way the result may not exceed the encoder's depth. */
  function ResolveMaxLayer(configured: int, numLayers: nat): (r: Result<nat>)
    ensures r.Ok? <==> configured <= numLayers
    ensures r.Ok? ==> r.value <= numLayers
    ensures r.Ok? && configured >= 0 ==> r.value == configured
    ensures configured < 0 ==> r == Ok(numLayers)
    ensures r.Err? ==> r.error == MaxLayerTooLarge(configured, numLayers)
  {
    var resolved := if configured >= 0 then configured else numLayers;
    if resolved <= numLayers then Ok(resolved) else Err(MaxLayerTooLarge(resolved, numLayers))
  }

  /** The constructor, after the pretrained encoder has been loaded. */
  function Construct(s: Settings, enc: EncoderConfig): (r: Result<Adapter>)
    ensures r.Ok? <==> s.maxLayer <= enc.numHiddenLayers && (s.modeName == "mix" ==> |s.targetTasks| <= 1)
    ensures s.maxLayer > enc.numHiddenLayers ==> r == Err(MaxLayerTooLarge(s.maxLayer, enc.numHiddenLayers))
    ensures s.maxLayer <= enc.numHiddenLayers && s.modeName == "mix" && |s.targetTasks| > 1 ==>
              r == Err(MixNeedsSingleTask(|s.targetTasks|))
    ensures r.Ok? ==> ValidAdapter(r.value)
    ensures r.Ok? ==> r.value.encoder == enc && r.value.mode == ParseMode(s.modeName) && r.value.trainable == s.fineTune
    ensures r.Ok? && s.maxLayer >= 0 ==> r.value.maxLayer == s.maxLayer
    ensures r.Ok? && s.maxLayer < 0 ==> r.value.maxLayer == enc.numHiddenLayers
  {
    var maxLayer :- ResolveMaxLayer(s.maxLayer, enc.numHiddenLayers);
    var mode := ParseMode(s.modeName);
    if mode == Known(Mix) then
      if |s.targetTasks| <= 1 then
        Ok(Adapter(enc, mode, maxLayer, s.fineTune, ScalarMix(maxLayer + 1, false)))
      else
        Err(MixNeedsSingleTask(|s.targetTasks|))
    else
      Ok(Adapter(enc, mode, maxLayer, s.fineTune, NoMixer))
  }

  /** Width of the embeddings the forward pass returns. Any mode but "cat",
      unrecognised ones included, reports the encoder's hidden size. */
  function OutputDim(a: Adapter): (w: nat)
    ensures a.mode == Known(Cat) ==> w == 2 * a.encoder.hiddenSize
    ensures a.mode != Known(Cat) ==> w == a.encoder.hiddenSize
  {
    if a.mode == Known(Cat) then 2 * a.encoder.hiddenSize else a.encoder.hiddenSize
  }
}
