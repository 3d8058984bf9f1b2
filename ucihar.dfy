/**
 * The UCI HAR dataset object: it holds the meta tables of both splits and
 * assembles (windows, targets) for a split, a signal variant and a list of
 * subjects.
 */
module UciHarDataset {
  import opened Wrappers
  import opened Layout
  import opened Masking
  import opened MetaTables
  import opened Signals

  /** `range(lo, hi)`: the integers from lo up to, not including, hi. */
  function Range(lo: int, hi: int): (r: seq<int>)
    decreases hi - lo
  {
    if lo < hi then [lo] + Range(lo + 1, hi) else []
  }

  /** An integer is in `range(lo, hi)` exactly when lo <= p < hi. */
  lemma {:induction false} RangeMembers(lo: int, hi: int, p: int)
    ensures p in Range(lo, hi) <==> lo <= p < hi
    decreases hi - lo
  {
    if lo < hi {
      RangeMembers(lo + 1, hi, p);
    }
  }

  /** PERSONS: every subject id of the dataset, 1 to 30. */
  const Persons: seq<int> := Range(1, 31)

  /** ACTIVITIES: the names of activity codes 1 to 6, in order. */
  const ActivityNames: seq<string> :=
    ["WALKING", "WALKING_UPSTAIRS", "WALKING_DOWNSTAIRS", "SITTING", "STANDING", "LAYING"]

  /** One target row: column 0 the zero-based activity, column 1 the subject id. */
  datatype Target = Target(activity: Cell, personId: Cell)

  /** What `load` returns: the retained windows and their targets. */
  datatype Loaded<T> = Loaded(windows: seq<Window<T>>, targets: seq<Target>)

  /** The subjects to retain: the given list, or every subject when none is given. */
  function PersonsOrDefault(personList: Option<seq<int>>): seq<int> {
    if personList.Some? then personList.value else Persons
  }

  /** A row is retained when its subject id is one of the requested ones (NaN equals nothing). */
  predicate Keep(row: MetaRow, persons: seq<int>) {
    row.personId.Value? && row.personId.v in persons
  }

  /** The retention mask over the rows of a meta table. */
  function Mask(metas: Meta, persons: seq<int>): (keep: seq<bool>)
    ensures |keep| == |metas|
  {
    seq(|metas|, j requires 0 <= j < |metas| => Keep(metas[j], persons))
  }

  /** `labels -= 1`: activity codes 1..6 become 0..5; NaN stays NaN. */
  function Shift(c: Cell): Cell {
    if c.Value? then Value(c.v - 1) else Missing
  }

  /** The target row of one meta row. */
  function TargetOf(row: MetaRow): Target {
    Target(Shift(row.activity), row.personId)
  }

  /** `np.stack([labels, person_ids]).T`: one target row per pair. */
  function Zip(labels: seq<Cell>, ids: seq<Cell>): (t: seq<Target>)
    requires |labels| == |ids|
    ensures |t| == |labels|
  {
    seq(|labels|, k requires 0 <= k < |labels| => Target(labels[k], ids[k]))
  }

  function ShiftAll(cs: seq<Cell>): (r: seq<Cell>)
    ensures |r| == |cs|
  {
    seq(|cs|, k requires 0 <= k < |cs| => Shift(cs[k]))
  }

  /**
   * Subject filtering and target assembly over loaded windows and a meta table:
   * select rows by the mask, shift the activity codes, pair them with the subject ids.
   * Windows and meta rows that differ in number cannot be masked together.
   */
  function Assemble<T>(sdata: seq<Window<T>>, metas: Meta, persons: seq<int>): (r: Result<Loaded<T>, Error>)
    ensures r.Err? <==> |sdata| != |metas|
    ensures r.Err? ==> r.error == RowCountMismatch
  {
    if |sdata| != |metas| then Err(RowCountMismatch)
    else
      var keep := Mask(metas, persons);
      var labels := ShiftAll(Retain(Activities(metas), keep));
      var ids := Retain(PersonIds(metas), keep);
      Ok(Loaded(Retain(sdata, keep), Zip(labels, ids)))
  }

  /** What the dataset object's `load` returns, given its meta table for the chosen split. */
  function LoadResult<T>(root: Root<T>, metas: Meta, train: bool, personList: Option<seq<int>>,
                         includeGravity: bool): Result<Loaded<T>, Error>
  {
    match Signals.Load(root, train, includeGravity)
    case Err(e) => Err(e)
    case Ok(sdata) => Assemble(sdata, metas, PersonsOrDefault(personList))
  }

  /**
   * The retention mask, built as the source builds it: all false at first,
   * then OR-ed with `person_id == p` for every requested p in turn.
   */
  method BuildMask(metas: Meta, persons: seq<int>) returns (keep: seq<bool>)
    ensures keep == Mask(metas, persons)
  {
    var flags := new bool[|metas|](_ => false);
    for i := 0 to |persons|
      invariant forall j :: 0 <= j < flags.Length ==> flags[j] == Keep(metas[j], persons[..i])
    {
      var p := persons[i];
      assert persons[..i + 1] == persons[..i] + [p];
      for j := 0 to flags.Length
        invariant forall j' :: 0 <= j' < j ==> flags[j'] == Keep(metas[j'], persons[..i + 1])
        invariant forall j' :: j <= j' < flags.Length ==> flags[j'] == Keep(metas[j'], persons[..i])
      {
        flags[j] := flags[j] || metas[j].personId == Value(p);
      }
    }
    assert persons[..|persons|] == persons;
    keep := flags[..];
  }

  /** `labels -= 1` on the selected activity column, in place on an array copy. */
  method DecrementLabels(selected: seq<Cell>) returns (labels: seq<Cell>)
    ensures |labels| == |selected|
    ensures forall k :: 0 <= k < |selected| ==>
              (selected[k].Value? ==> labels[k] == Value(selected[k].v - 1)) &&
              (selected[k].Missing? ==> labels[k] == Missing)
  {
    var a := new Cell[|selected|](k requires 0 <= k < |selected| => selected[k]);
    for k := 0 to a.Length
      invariant forall k' :: 0 <= k' < k ==> a[k'] == Shift(selected[k'])
      invariant forall k' :: k <= k' < a.Length ==> a[k'] == selected[k']
    {
      a[k] := Shift(a[k]);
    }
    labels := a[..];
  }

  class UciHar<T> {
    /** The dataset directory (the `path` the base dataset holds). */
    const root: Root<T>
    var trainMetas: Meta
    var testMetas: Meta

    constructor (root: Root<T>)
      ensures this.root == root
      ensures trainMetas == MetaTables.LoadMeta(root).train
      ensures testMetas == MetaTables.LoadMeta(root).test
    {
      this.root := root;
      new;
      LoadMeta();
    }

    /** Reads the meta tables of both splits into the object. */
    method LoadMeta()
      modifies this`trainMetas, this`testMetas
      ensures trainMetas == MetaTables.LoadMeta(root).train
      ensures testMetas == MetaTables.LoadMeta(root).test
    {
      var meta := MetaTables.LoadMeta(root);
      trainMetas := meta.train;
      testMetas := meta.test;
    }

    /**
     * The windows of the chosen split and variant whose subject is in
     * `personList` (every subject by default), with their targets.
     * Nothing in the object changes.
     */
    method Load(train: bool := true, personList: Option<seq<int>> := None, includeGravity: bool := true)
      returns (r: Result<Loaded<T>, Error>)
      ensures r == LoadResult(root, if train then trainMetas else testMetas, train, personList, includeGravity)
    {
      var signals := Signals.Load(root, train, includeGravity);
      var metas := if train then trainMetas else testMetas;
      if signals.Err? {
        return Err(signals.error);
      }
      var sdata := signals.value;
      if |sdata| != |metas| {
        return Err(RowCountMismatch);
      }

      var persons := if personList.None? then Persons else personList.value;
      var keep := BuildMask(metas, persons);
      var windows := Retain(sdata, keep);
      var labels := DecrementLabels(Retain(Activities(metas), keep));
      assert labels == ShiftAll(Retain(Activities(metas), keep));
      var ids := Retain(PersonIds(metas), keep);
      r := Ok(Loaded(windows, Zip(labels, ids)));
    }
  }

  /** Loading twice with the same arguments gives the same result. */
  method LoadTwice<T>(ds: UciHar<T>, train: bool, personList: Option<seq<int>>, includeGravity: bool)
    returns (first: Result<Loaded<T>, Error>, second: Result<Loaded<T>, Error>)
    ensures first == second
  {
    first := ds.Load(train, personList, includeGravity);
    second := ds.Load(train, personList, includeGravity);
  }

  /** Called with its defaults, the object's `load` reads the training split with gravity, for every subject. */
  method LoadWithDefaults<T>(ds: UciHar<T>) returns (r: Result<Loaded<T>, Error>)
    ensures r == match Stack(ds.root.train.totalAcc)
                 case Err(e) => Err(e)
                 case Ok(sdata) => Assemble(sdata, ds.trainMetas, Persons)
  {
    r := ds.Load();
  }

  /** With no list given, every row whose subject id lies in 1..30 is retained, and no other. */
  lemma DefaultRetainsKnownSubjects(metas: Meta)
    ensures forall j :: 0 <= j < |metas| ==>
              (Mask(metas, PersonsOrDefault(None))[j] <==>
               metas[j].personId.Value? && 1 <= metas[j].personId.v <= 30)
  {
    forall j | 0 <= j < |metas| && metas[j].personId.Value? {
      RangeMembers(1, 31, metas[j].personId.v);
    }
  }

  /** Row j is retained exactly when its subject id is one of the requested ones. */
  lemma RetainedExactlyRequested(metas: Meta, persons: seq<int>)
    ensures forall j :: 0 <= j < |metas| ==>
              (j in Indices(Mask(metas, persons)) <==>
               metas[j].personId.Value? && metas[j].personId.v in persons)
  {
    var keep := Mask(metas, persons);
    forall j | 0 <= j < |metas| && keep[j] ensures j in Indices(keep) {
      IndicesComplete(keep, j);
    }
  }

  /**
   * Windows and targets have one row per retained sample, and row k of both
   * belongs to the k-th retained sample in the original order.
   */
  lemma AssembleAligned<T>(sdata: seq<Window<T>>, metas: Meta, persons: seq<int>)
    requires |sdata| == |metas|
    ensures Assemble(sdata, metas, persons).Ok?
    ensures var out := Assemble(sdata, metas, persons).value;
            var idx := Indices(Mask(metas, persons));
            |out.windows| == |idx| && |out.targets| == |idx| &&
            forall k :: 0 <= k < |idx| ==>
              out.windows[k] == sdata[idx[k]] && out.targets[k] == TargetOf(metas[idx[k]])
  {
    var keep := Mask(metas, persons);
    var out := Assemble(sdata, metas, persons).value;
    var idx := Indices(keep);
    forall k | 0 <= k < |idx|
      ensures out.windows[k] == sdata[idx[k]] && out.targets[k] == TargetOf(metas[idx[k]])
    {
      RetainAt(sdata, keep, k);
      RetainAt(Activities(metas), keep, k);
      RetainAt(PersonIds(metas), keep, k);
    }
  }

  /** Every retained subject id is one of the requested ones. */
  lemma TargetsBelongToPersonList<T>(sdata: seq<Window<T>>, metas: Meta, persons: seq<int>)
    requires |sdata| == |metas|
    ensures Assemble(sdata, metas, persons).Ok?
    ensures forall t :: t in Assemble(sdata, metas, persons).value.targets ==>
              t.personId.Value? && t.personId.v in persons
  {
    AssembleAligned(sdata, metas, persons);
  }

  /** Activity codes in 1..6 of the retained rows come out in 0..5. */
  lemma ActivitiesZeroBased<T>(sdata: seq<Window<T>>, metas: Meta, persons: seq<int>)
    requires |sdata| == |metas|
    requires forall j :: 0 <= j < |metas| && Keep(metas[j], persons) ==>
               metas[j].activity.Value? && 1 <= metas[j].activity.v <= 6
    ensures Assemble(sdata, metas, persons).Ok?
    ensures forall t :: t in Assemble(sdata, metas, persons).value.targets ==>
              t.activity.Value? && 0 <= t.activity.v <= 5
  {
    AssembleAligned(sdata, metas, persons);
  }

  /** An empty subject list retains nothing: zero windows and zero targets. */
  lemma EmptyPersonListRetainsNothing<T>(sdata: seq<Window<T>>, metas: Meta)
    requires |sdata| == |metas|
    ensures Assemble(sdata, metas, []) == Ok(Loaded([], []))
  {
    CountTrueZero(Mask(metas, []));
  }

  /** Only which ids are requested matters: not their order, nor how often one is repeated. */
  lemma SameIdsSameResult<T>(sdata: seq<Window<T>>, metas: Meta, ps1: seq<int>, ps2: seq<int>)
    requires forall q :: q in ps1 <==> q in ps2
    ensures Assemble(sdata, metas, ps1) == Assemble(sdata, metas, ps2)
  {
    assert Mask(metas, ps1) == Mask(metas, ps2);
  }

  /** Requesting an id a second time changes nothing. */
  lemma RepeatedIdIgnored<T>(sdata: seq<Window<T>>, metas: Meta, persons: seq<int>, p: int)
    requires p in persons
    ensures Assemble(sdata, metas, persons + [p]) == Assemble(sdata, metas, persons)
  {
    SameIdsSameResult(sdata, metas, persons + [p], persons);
  }

  /** Requesting an id that no row of the split carries changes nothing. */
  lemma AbsentIdIgnored<T>(sdata: seq<Window<T>>, metas: Meta, persons: seq<int>, p: int)
    requires forall j :: 0 <= j < |metas| ==> metas[j].personId != Value(p)
    ensures Assemble(sdata, metas, persons + [p]) == Assemble(sdata, metas, persons)
  {
    assert Mask(metas, persons + [p]) == Mask(metas, persons);
  }

  /**
   * The two-window dataset of the example below: only its training split has rows,
   * and its `total_acc_*` files differ from its `body_acc_*` files.
   */
  function ExampleRoot(): Root<int> {
    var signal: Matrix<int> := Grid(2, [[1, 2], [3, 4]]);
    var gravity: Matrix<int> := Grid(2, [[5, 6], [7, 8]]);
    var empty: Matrix<int> := Grid(2, []);
    Root(
      SplitFiles([1, 2], [3, 3], Axes(signal, signal, signal), Axes(gravity, gravity, gravity)),
      SplitFiles([], [], Axes(empty, empty, empty), Axes(empty, empty, empty)))
  }

  /**
   * Two windows of two time steps, activities [1, 2], both from subject 3:
   * requesting subject 3 without gravity gives windows of shape (2, 3, 2)
   * and targets [[0, 3], [1, 3]].
   */
  lemma TwoSampleExample()
    ensures LoadResult(ExampleRoot(), MetaTables.LoadMeta(ExampleRoot()).train, true, Some([3]), false) ==
            Ok(Loaded([[[1, 2], [1, 2], [1, 2]], [[3, 4], [3, 4], [3, 4]]],
                      [Target(Value(0), Value(3)), Target(Value(1), Value(3))]))
  {
    var root := ExampleRoot();
    var metas := MetaTables.LoadMeta(root).train;
    assert metas[0] == MetaRow(Value(1), Value(3)) && metas[1] == MetaRow(Value(2), Value(3));
    var signals := Signals.Load(root, true, false);
    assert signals.Ok?;
    var sdata := signals.value;
    assert sdata[0] == [[1, 2], [1, 2], [1, 2]] && sdata[1] == [[3, 4], [3, 4], [3, 4]];
    var keep := Mask(metas, [3]);
    assert keep[0] && keep[1];
    var idx := Indices(keep);
    assert CountTrue(keep) == 2 by {
      assert keep == [true, true];
      assert keep[1..] == [true] && keep[1..][1..] == [];
      assert CountTrue(keep[1..][1..]) == 0;
      assert CountTrue(keep[1..]) == 1;
    }
    assert idx[0] == 0 && idx[1] == 1;
    AssembleAligned(sdata, metas, [3]);
    var out := Assemble(sdata, metas, [3]).value;
    assert out.windows == [sdata[0], sdata[1]];
    assert out.targets == [TargetOf(metas[0]), TargetOf(metas[1])];
  }
}
