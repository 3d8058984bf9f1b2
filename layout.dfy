/**
 * The parsed contents of a UCI HAR dataset directory. Reading and parsing the
 * text files is not modelled: each file is given by the values it holds.
 *
 *   <root>/{train,test}/y_{split}.txt                       -> labels
 *   <root>/{train,test}/subject_{split}.txt                 -> subjects
 *   <root>/{train,test}/Inertial Signals/body_acc_{x,y,z}   -> bodyAcc
 *   <root>/{train,test}/Inertial Signals/total_acc_{x,y,z}  -> totalAcc
 */
module Layout {

  /** A parsed whitespace-delimited signal file: one row per window, `cols` time steps per row. */
  datatype Grid<T> = Grid(cols: nat, rows: seq<seq<T>>)

  predicate Rectangular<T>(g: Grid<T>) {
    forall i :: 0 <= i < |g.rows| ==> |g.rows[i]| == g.cols
  }

  /** A two-dimensional array as returned by `to_numpy()`: every row has the same length. */
  type Matrix<T> = g: Grid<T> | Rectangular(g) witness Grid(0, [])

  /** The three per-axis files of one signal variant. */
  datatype Axes<T> = Axes(x: Matrix<T>, y: Matrix<T>, z: Matrix<T>)

  /** Everything under `train/` or under `test/`. */
  datatype SplitFiles<T> = SplitFiles(
    labels: seq<int>,
    subjects: seq<int>,
    bodyAcc: Axes<T>,
    totalAcc: Axes<T>)

  /** The dataset root, as held in the dataset object's `path`. */
  datatype Root<T> = Root(train: SplitFiles<T>, test: SplitFiles<T>)

  /** The exceptions the loader raises on inconsistent files. */
  datatype Error =
    | ShapeMismatch     // x, y and z differ in shape: np.concatenate raises
    | RowCountMismatch  // windows and meta rows differ in number: the mask cannot be applied

  /** The split directory chosen by the `train` flag. */
  function Split<T>(root: Root<T>, train: bool): SplitFiles<T> {
    if train then root.train else root.test
  }

  /** The signal file set chosen by the `include_gravity` flag. */
  function Variant<T>(files: SplitFiles<T>, includeGravity: bool): Axes<T> {
    if includeGravity then files.totalAcc else files.bodyAcc
  }
}
