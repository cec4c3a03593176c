/** Tensors as nested sequences: a two-dimensional `[batch][position]` grid
    for ids and masks, and a three-dimensional `[batch][position][feature]`
    layer of activations over an arbitrary element type. */
module Tensors {
  import opened Outcome

  /** One layer of activations, `[batch][position][feature]`. */
  type Layer<T> = seq<seq<seq<T>>>

  /** Two grids agree on the batch and position dimensions. */
  predicate SameShape<A, B>(x: seq<seq<A>>, y: seq<seq<B>>) {
    && |x| == |y|
    && forall b :: 0 <= b < |x| ==> |x[b]| == |y[b]|
  }

  /** The grid is `batch` rows of `len` entries each. */
  predicate IsGrid<A>(x: seq<seq<A>>, batch: nat, len: nat) {
    && |x| == batch
    && forall b :: 0 <= b < |x| ==> |x[b]| == len
  }

  /** The layer has shape `[batch, len, width]`. */
  predicate HasShape<T>(l: Layer<T>, batch: nat, len: nat, width: nat) {
    && IsGrid(l, batch, len)
    && forall b, p :: 0 <= b < |l| && 0 <= p < |l[b]| ==> |l[b][p]| == width
  }

  /** Applies `f` at every position of a grid (an element-wise tensor operation). */
  function MapEach<A, B>(x: seq<seq<A>>, f: A -> B): (r: seq<seq<B>>)
    ensures SameShape(x, r)
    ensures forall b, p :: 0 <= b < |x| && 0 <= p < |x[b]| ==> r[b][p] == f(x[b][p])
  {
    seq(|x|, b requires 0 <= b < |x| => seq(|x[b]|, p requires 0 <= p < |x[b]| => f(x[b][p])))
  }

  /** Concatenation along the feature axis, `first` before `second`; the two
      layers must agree on batch and position, as `torch.cat(..., dim=2)` demands. */
  function ConcatFeatures<T>(first: Layer<T>, second: Layer<T>): (r: Result<Layer<T>>)
    ensures r.Ok? <==> SameShape(first, second)
    ensures r.Err? ==> r.error == ShapeMismatch
    ensures r.Ok? ==> SameShape(r.value, first)
  {
    if SameShape(first, second) then
      Ok(seq(|first|, b requires 0 <= b < |first| =>
           seq(|first[b]|, p requires 0 <= p < |first[b]| => first[b][p] + second[b][p])))
    else
      Err(ShapeMismatch)
  }

  /** Every feature vector of the layer has at least `hi` entries. */
  predicate WidthAtLeast<T>(l: Layer<T>, hi: nat) {
    forall b, p :: 0 <= b < |l| && 0 <= p < |l[b]| ==> hi <= |l[b][p]|
  }

  /** The features `[lo, hi)` at every position of a layer. */
  function FeatureSlice<T>(l: Layer<T>, lo: nat, hi: nat): (r: Layer<T>)
    requires lo <= hi
    requires WidthAtLeast(l, hi)
    ensures SameShape(r, l)
    ensures forall b, p :: 0 <= b < |r| && 0 <= p < |r[b]| ==> |r[b][p]| == hi - lo
  {
    seq(|l|, b requires 0 <= b < |l| =>
      seq(|l[b]|, p requires 0 <= p < |l[b]| => l[b][p][lo..hi]))
  }

  /** Concatenation is undone by slicing: the first `w1` features are the
      first layer and the next `w2` the second. */
  lemma ConcatSplits<T>(first: Layer<T>, second: Layer<T>, batch: nat, len: nat, w1: nat, w2: nat)
    requires HasShape(first, batch, len, w1)
    requires HasShape(second, batch, len, w2)
    ensures ConcatFeatures(first, second).Ok?
    ensures HasShape(ConcatFeatures(first, second).value, batch, len, w1 + w2)
    ensures FeatureSlice(ConcatFeatures(first, second).value, 0, w1) == first
    ensures FeatureSlice(ConcatFeatures(first, second).value, w1, w1 + w2) == second
  {
    var c := ConcatFeatures(first, second).value;
    assert forall b, p :: 0 <= b < |c| && 0 <= p < |c[b]| ==> c[b][p] == first[b][p] + second[b][p];
    assert HasShape(c, batch, len, w1 + w2);
    var lo := FeatureSlice(c, 0, w1);
    var hi := FeatureSlice(c, w1, w1 + w2);
    forall b | 0 <= b < batch
      ensures lo[b] == first[b] && hi[b] == second[b]
    {
      forall p | 0 <= p < len
        ensures lo[b][p] == first[b][p] && hi[b][p] == second[b][p]
      {
        assert c[b][p] == first[b][p] + second[b][p];
        assert lo[b][p] == c[b][p][0..w1];
        assert hi[b][p] == c[b][p][w1..w1 + w2];
      }
    }
  }
}
