/** Parameter collection of `Network.__init__` (convnet.py).

    Every layer class (ConvPoolLayer, FullyConnectedLayer, SoftmaxLayer) owns
    a weight and a bias shared variable and lists them as `params = [w, b]`.
    The network keeps its layers in order and flattens their parameter lists
    into one list for the optimiser. A shared variable is represented by an
    identity. */
module Network {

  type ParamId = nat

  datatype LayerKind = ConvPool | FullyConnected | Softmax

  datatype Layer = Layer(kind: LayerKind, w: ParamId, b: ParamId)
  {
    /** `self.params = [self.w, self.b]`. */
    function Params(): (ps: seq<ParamId>)
      ensures |ps| == 2 && w in ps && b in ps
    {
      [w, b]
    }
  }

  /** Sum of the lengths of the layers' parameter lists. */
  function ParamCount(layers: seq<Layer>): nat
  {
    if layers == [] then 0 else |layers[0].Params()| + ParamCount(layers[1..])
  }

  /** `[param for layer in layers for param in layer.params]`: layer-major,
      and inside a layer in the layer's own order. */
  function CollectParams(layers: seq<Layer>): (params: seq<ParamId>)
    ensures |params| == ParamCount(layers)
    ensures forall p :: p in params <==> exists k :: 0 <= k < |layers| && p in layers[k].Params()
  {
    if layers == [] then []
    else
      var rest := CollectParams(layers[1..]);
      assert forall k :: 1 <= k < |layers| ==> layers[k] == layers[1..][k - 1];
      layers[0].Params() + rest
  }

  /** Collecting over two consecutive runs of layers concatenates their lists. */
  lemma {:induction false} CollectParamsAppend(front: seq<Layer>, back: seq<Layer>)
    ensures CollectParams(front + back) == CollectParams(front) + CollectParams(back)
  {
    if front != [] {
      CollectParamsAppend(front[1..], back);
      assert (front + back)[1..] == front[1..] + back;
    } else {
      assert front + back == back;
    }
  }

  /** Position of the first parameter of layer k in the flat list. */
  function ParamOffset(layers: seq<Layer>, k: nat): nat
    requires k <= |layers|
  {
    |CollectParams(layers[..k])|
  }

  /** Parameter j of layer k sits at offset(k) + j of the flat list: the
      flattening keeps both the layer order and each layer's own order. */
  lemma ParamAt(layers: seq<Layer>, k: nat, j: nat)
    requires k < |layers| && j < |layers[k].Params()|
    ensures ParamOffset(layers, k) + j < |CollectParams(layers)|
    ensures CollectParams(layers)[ParamOffset(layers, k) + j] == layers[k].Params()[j]
  {
    assert layers == layers[..k] + layers[k..];
    CollectParamsAppend(layers[..k], layers[k..]);
    assert layers[k..][0] == layers[k];
  }

  /** Each layer contributes its weight and its bias, so the network has two
      parameters per layer. */
  lemma {:induction false} TwoParamsPerLayer(layers: seq<Layer>)
    ensures |CollectParams(layers)| == 2 * |layers|
  {
    if layers != [] {
      TwoParamsPerLayer(layers[1..]);
    }
  }

  /** The network object: `layers` and the flattened `params`. */
  class Network {
    const layers: seq<Layer>
    const params: seq<ParamId>

    constructor (layers: seq<Layer>)
      ensures this.layers == layers
      ensures params == CollectParams(layers)
    {
      this.layers := layers;
      this.params := CollectParams(layers);
    }
  }
}
