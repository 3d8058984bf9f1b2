/**
 * The windows of one split and variant (module-level `load`): the x, y and z
 * files stacked into an array of shape (samples, 3, timesteps).
 */
module Signals {
  import opened Wrappers
  import opened Layout

  /** One window: three channels (x, y, z) of equal length. */
  type Window<T> = seq<seq<T>>

  /** `m[:, np.newaxis, :]`: every row becomes a one-channel window. */
  function Expand<T>(m: seq<seq<T>>): (e: seq<Window<T>>)
    ensures |e| == |m|
  {
    seq(|m|, i requires 0 <= i < |m| => [m[i]])
  }

  /** Concatenation along axis 1: the channels of row i of a, b and c, in that order. */
  function ConcatChannels<T>(a: seq<Window<T>>, b: seq<Window<T>>, c: seq<Window<T>>): (r: seq<Window<T>>)
    requires |a| == |b| == |c|
    ensures |r| == |a|
  {
    seq(|a|, i requires 0 <= i < |a| => a[i] + b[i] + c[i])
  }

  predicate SameShape<T>(p: Matrix<T>, q: Matrix<T>) {
    |p.rows| == |q.rows| && p.cols == q.cols
  }

  /** The three axes stacked channel-wise; an error unless all three have the same shape. */
  function Stack<T>(ax: Axes<T>): (r: Result<seq<Window<T>>, Error>)
    ensures r.Ok? <==> SameShape(ax.x, ax.y) && SameShape(ax.x, ax.z)
    ensures r.Err? ==> r.error == ShapeMismatch
    ensures r.Ok? ==> |r.value| == |ax.x.rows|
    ensures r.Ok? ==> forall i :: 0 <= i < |r.value| ==>
              r.value[i] == [ax.x.rows[i], ax.y.rows[i], ax.z.rows[i]]
  {
    if SameShape(ax.x, ax.y) && SameShape(ax.x, ax.z) then
      Ok(ConcatChannels(Expand(ax.x.rows), Expand(ax.y.rows), Expand(ax.z.rows)))
    else
      Err(ShapeMismatch)
  }

  /** Channel c of every window. */
  function Channel<T>(w: seq<Window<T>>, c: nat): (m: seq<seq<T>>)
    requires forall i :: 0 <= i < |w| ==> c < |w[i]|
    ensures |m| == |w|
  {
    seq(|w|, i requires 0 <= i < |w| => w[i][c])
  }

  /** The stacked array has shape (samples, 3, timesteps). */
  lemma StackShape<T>(ax: Axes<T>)
    requires Stack(ax).Ok?
    ensures forall i :: 0 <= i < |Stack(ax).value| ==>
              |Stack(ax).value[i]| == 3 &&
              forall c :: 0 <= c < 3 ==> |Stack(ax).value[i][c]| == ax.x.cols
  {
  }

  /** Taking channel 0, 1 or 2 of the stacked array gives back the x, y or z file. */
  lemma StackRoundTrip<T>(ax: Axes<T>)
    requires Stack(ax).Ok?
    ensures forall i :: 0 <= i < |Stack(ax).value| ==> |Stack(ax).value[i]| == 3
    ensures Channel(Stack(ax).value, 0) == ax.x.rows
    ensures Channel(Stack(ax).value, 1) == ax.y.rows
    ensures Channel(Stack(ax).value, 2) == ax.z.rows
  {
  }

  /** The windows of the split chosen by `train`, in the variant chosen by `includeGravity`. */
  function Load<T>(root: Root<T>, train: bool := true, includeGravity: bool := false): (r: Result<seq<Window<T>>, Error>)
    ensures var ax := Variant(Split(root, train), includeGravity);
            r.Ok? <==> SameShape(ax.x, ax.y) && SameShape(ax.x, ax.z)
    ensures var ax := Variant(Split(root, train), includeGravity);
            r.Ok? ==> |r.value| == |ax.x.rows|
    ensures var ax := Variant(Split(root, train), includeGravity);
            r.Ok? ==> forall i :: 0 <= i < |r.value| ==>
                        r.value[i] == [ax.x.rows[i], ax.y.rows[i], ax.z.rows[i]]
  {
    Stack(Variant(Split(root, train), includeGravity))
  }

  /**
   * The result depends on nothing but the three files of the chosen split and
   * variant: `total_acc_*` when gravity is included, `body_acc_*` otherwise.
   */
  lemma LoadReadsOnlyChosenFiles<T>(r1: Root<T>, r2: Root<T>, train: bool, includeGravity: bool)
    requires train ==> (includeGravity ==> r1.train.totalAcc == r2.train.totalAcc)
    requires train ==> (!includeGravity ==> r1.train.bodyAcc == r2.train.bodyAcc)
    requires !train ==> (includeGravity ==> r1.test.totalAcc == r2.test.totalAcc)
    requires !train ==> (!includeGravity ==> r1.test.bodyAcc == r2.test.bodyAcc)
    ensures Load(r1, train, includeGravity) == Load(r2, train, includeGravity)
  {
  }

  /** Called with its defaults, `load` reads the training split without gravity. */
  lemma LoadDefaults<T>(root: Root<T>)
    ensures Load(root) == Stack(root.train.bodyAcc)
  {
  }
}
