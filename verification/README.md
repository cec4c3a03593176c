# BERT embedder adapter, modelled in Dafny

This project models `BertEmbedderModule` of `src/bert/utils.py`. The module wraps a pretrained
BERT encoder for a multi-task training framework. It does three things:

- Construction resolves how deep the encoder runs (`max_layer`). It records whether the
  encoder's weights are trainable. In "mix" mode it sizes a scalar mixer with one weight per
  layer, the lexical layer included.
- `forward` checks the batch and builds the validity mask. It re-indexes the word-piece ids from
  the framework's vocabulary (0 = padding, 1 = unknown, real pieces from 2) to BERT's zero-based
  vocabulary. It then runs the encoder and combines the returned layers according to the
  embeddings mode.
- `get_output_dim` reports the width of the resulting embeddings.

The encoder and the mixer are function parameters. The model states what is handed to them and
what is done with what they return. Layers are `[batch][position][feature]` sequences over an
arbitrary element type, so no floating point is involved.

Files:

- `outcome.dfy`: the error taxonomy and a `Result` type.
- `tensors.dfy`: grid shapes, element-wise maps, and feature-axis concatenation with its
  inverse slicing.
- `config.dfy`: modes, `max_layer` resolution, construction and the output-width query.
- `ids.dfy`: the validity mask and the id re-indexing. The re-indexing is given both as a
  functional pipeline (fill padding, check, shift) and as a loop method.
- `embedder.dfy`: the forward pass, split into the part before the encoder call
  (`PrepareCall`) and the part after it (`Combine`).
- `properties.dfy`: lemmas that relate construction, the forward pass and the width query.

Notes on the model:

- The mode is a free string in the source. It is parsed into `Known(mode)` or kept as
  `Unrecognised(name)`. Construction accepts an unrecognised mode, because the source only tests
  for `"mix"`. The width query reports the hidden size for it. Only the forward pass rejects it,
  and only after the layer-count check.
- The layer-count check compares against `max_layer + 1`, not against the depth the encoder was
  asked for. In "only" mode the encoder is asked for depth 0. `OnlyModeNeedsZeroMaxLayer` shows
  the consequence: an encoder that returns exactly depth + 1 layers makes "only" mode fail
  whenever `max_layer > 0`. Whether the real encoder does that depends on
  `custom_bert_model.py`, which is not part of this model.
- Both construction checks are `assert` statements in the source. The model gives them two
  separate errors (`MaxLayerTooLarge`, `MixNeedsSingleTask`) so that the contracts can say which
  one fires. The other checks map to `MissingInput`, `SequenceTooLong`, `ReservedId`
  (the "every id > 1" assertion), `LayerCountMismatch` and `UnsupportedMode`.
- `torch.cat` raises when the two layers differ in batch or length. The model represents this as
  `ShapeMismatch`. With an encoder that keeps the input's shape, this error cannot happen
  (`OutputDimMatchesForward`).
- The source re-indexes the id tensor in place. The model returns a new matrix (see "## Left out").

## Model

| member | source | states |
|---|---|---|
| Config.ParseMode | src/bert/utils.py:95-105 | a mode string is recognised exactly when it is one of the five mode names, and is otherwise kept for the unsupported-mode error |
| Config.ParseModeName | src/bert/utils.py:95-101 | every mode is recognised from its own name |
| Config.ResolveMaxLayer | src/bert/utils.py:24-29 | a non-negative configured bound is kept and a negative one becomes the encoder's layer count; resolution succeeds exactly when the configured value is at most the layer count, so the result lies in `[0, num_hidden_layers]` |
| Config.Construct | src/bert/utils.py:17-50 | construction fails on a too-large bound first, then on "mix" with more than one target task, and succeeds otherwise; a constructed embedder has a bound within the encoder's depth, copies `fine_tune` into trainability, and has a mixer (without layer norm) of exactly `max_layer + 1` inputs exactly in "mix" mode |
| Config.OutputDim | src/bert/utils.py:110-114 | the reported width is twice the hidden size in "cat" mode and the hidden size in every other mode, unrecognised modes included |
| Ids.ValidityMask | src/bert/utils.py:70 | the mask has the shape of the raw ids and is true exactly where the raw id is nonzero |
| Ids.NativeId | src/bert/utils.py:76-81 | padding maps to BERT's pad id 0, a word piece `x` maps to `x - 2`, and the result is never negative |
| Ids.RemapIds | src/bert/utils.py:76-81 | re-indexing succeeds exactly when every raw id is 0 or above 1, fails as a whole otherwise, preserves the shape, and maps each id by `NativeId` |
| Ids.RemappedIdsNonNegative | src/bert/utils.py:76-81 | every id handed to the encoder is at least 0 |
| Ids.ReservedIdRejected | src/bert/utils.py:77-80 | a single id of 1, or a negative id, anywhere in the batch makes re-indexing fail |
| Ids.RemapRoundTrip | src/bert/utils.py:70-81 | the raw ids are recovered from the re-indexed ids and the mask of the raw ids, so the re-indexing loses nothing |
| Ids.RemapLoop | src/bert/utils.py:76-81 | an equivalent formulation as a loop over positions, building a new matrix, gives the same result as the whole-tensor fill, check and shift, failures included |
| Tensors.ConcatFeatures | src/bert/utils.py:99-100 | concatenation along the feature axis succeeds exactly when the two layers have the same batch and position grid, and keeps that grid |
| Tensors.ConcatSplits | src/bert/utils.py:99-100 | for layers of widths `w1` and `w2` over one grid, the concatenation has width `w1 + w2`; its first `w1` features give back the first layer and the next `w2` give back the second |
| Embedder.EffectiveDepth | src/bert/utils.py:83-84 | the encoder is asked for depth 0 in "only" mode and for the resolved `max_layer` otherwise |
| Embedder.PrepareCall | src/bert/utils.py:63-91 | forward fails without the `bert_wpm_pretokenized` key and on more than 512 positions (512 itself passes), fails with the reserved-id error when an id is 1 or negative, and otherwise calls the encoder with the re-indexed ids, all-zero segment ids of the same shape, the mask of the raw ids and the effective depth |
| Embedder.Combine | src/bert/utils.py:92-105 | a layer count other than `max_layer + 1` fails; otherwise "none"/"top" give the deepest layer, "only" the lexical layer, "cat" the deepest then the lexical features, "mix" the mixer's result on all layers and the mask, and an unrecognised mode fails |
| Embedder.Forward | src/bert/utils.py:53-108 | forward fails with the missing-key error, then the length error above 512, then the reserved-id error; otherwise it calls the encoder with the re-indexed ids, the raw-id mask and the effective depth, fails when the returned layer count is not `max_layer + 1`, and then gives the deepest layer ("none"/"top"), the lexical layer ("only"), their concatenation ("cat"), the mixer's result on all layers and the mask ("mix"), or the unsupported-mode error; it never succeeds with an unrecognised mode or malformed input |
| Properties.OutputDimMatchesForward | src/bert/utils.py:95-114 | for every mode but "mix", with an encoder whose layers keep the input's shape at the hidden size, forward succeeds exactly when the layer count is right, and its result has shape `[batch, seq_len, get_output_dim()]` |
| Properties.CatModeOrder | src/bert/utils.py:99-100 | in "cat" mode the first `hidden` features are the deepest layer and the next `hidden` the lexical layer |
| Properties.OnlyModeReturnsLexicalLayer | src/bert/utils.py:84-98 | "only" mode asks for depth 0, succeeds exactly when `max_layer + 1` layers come back, and then returns the lexical layer |
| Properties.OnlyModeNeedsZeroMaxLayer | src/bert/utils.py:84-93 | with an encoder that returns depth + 1 layers, "only" mode succeeds exactly when `max_layer` is 0 |
| Properties.OtherModesPassLayerCount | src/bert/utils.py:84-101 | in every other mode such an encoder passes the layer-count check, and every mode but "cat" then succeeds |
| Properties.MixGetsOneInputPerLayer | src/bert/utils.py:44-50 | in "mix" mode the mixer, sized `max_layer + 1` without layer norm, receives exactly that many layers and the mask of the raw ids |
| Properties.UnrecognisedModeFailsOnlyInForward | src/bert/utils.py:23-50 | an unknown mode string is accepted at construction and reported with the hidden size, but every forward pass fails |
| Properties.SequenceLengthBoundary | src/bert/utils.py:65-67 | a batch of length 512 passes the input checks and one of length 513 fails with the length error |
| Properties.TopModeExample | src/bert/utils.py:24-96 | a 12-layer, 768-wide encoder in "top" mode with the default bound resolves to 12, asks for depth 12, and returns the twelfth layer shaped `[2, 10, 768]` |
| Properties.CatModeExample | src/bert/utils.py:99-112 | the same encoder in "cat" mode returns `[2, 10, 1536]`, the width the query reports |

## Left out

- Loading the pretrained encoder and its cache directory (lines 20-22): a foreign call with file
  I/O. The encoder is represented by its `num_hidden_layers` and `hidden_size` and by a function
  parameter.
- The transformer computation (lines 87-91): the encoder is a function parameter. The model
  fixes only its arguments, and some lemmas assume properties of its output (`HonoursDepth`,
  `KeepsShape`).
- `ScalarMix`'s weighted softmax sum (lines 49-50, 102): floating point in an external library.
  The mixer is a function parameter of the mixer's configuration, the layers and the mask.
- The `requires_grad` loop (lines 32-33): recorded only as the `trainable` flag.
- The logging warning for "mix" mode without fine-tuning (lines 37-40): a side effect only.
- `parse_task_list_arg` (line 44): an external helper. The parsed task list is an input.
- Tensor dtypes and devices: ids are unbounded integers and activations are of a generic type.
- An upper bound on re-indexed ids (below the vocabulary size): the source does not check one.
- Checks skipped under `python -O`: every check the model turns into an error except
  `UnsupportedMode` is a Python `assert` (lines 29, 44, 63, 67, 80, 93). With assertions
  disabled none of them runs; for example id 1 would reach the encoder as -1, and "only" mode
  with `max_layer > 0` would return layer 0. The model follows the code with assertions enabled.
- Mutation of the caller's tensor: lines 65 and 68 alias the caller's
  `sent["bert_wpm_pretokenized"]` tensor, and lines 77 and 81 write into it. After a forward
  pass the caller's tensor holds the re-indexed ids. When the check at line 80 fails, the
  caller's padding has already been rewritten to 2. The model is pure and does not represent
  this side effect on the caller's data.
