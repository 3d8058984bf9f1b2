/**
 * The meta tables of the two splits (module-level `load_meta`): the activity
 * label column and the subject column of a split, set side by side.
 */
module MetaTables {
  import opened Layout

  /**
   * One cell of a meta table. Placing two columns side by side aligns them on
   * the row index, so a column shorter than the other is padded with NaN,
   * written Missing here.
   */
  datatype Cell = Value(v: int) | Missing

  /** One row: columns `activity` and `person_id`. */
  datatype MetaRow = MetaRow(activity: Cell, personId: Cell)

  type Meta = seq<MetaRow>

  /** The meta tables of both splits (the dictionary with keys 'train' and 'test'). */
  datatype Metas = Metas(train: Meta, test: Meta)

  function Max(a: nat, b: nat): nat {
    if a < b then b else a
  }

  /** Row i of a column, or NaN past its end. */
  function CellAt(column: seq<int>, i: nat): Cell {
    if i < |column| then Value(column[i]) else Missing
  }

  function Rest(column: seq<int>): seq<int> {
    if column == [] then [] else column[1..]
  }

  /** The two columns set side by side, one row per row index of either column. */
  function Join(labels: seq<int>, subjects: seq<int>): (m: Meta)
    ensures |m| == Max(|labels|, |subjects|)
    decreases |labels| + |subjects|
  {
    if labels == [] && subjects == [] then []
    else [MetaRow(CellAt(labels, 0), CellAt(subjects, 0))] + Join(Rest(labels), Rest(subjects))
  }

  /** Row i of the join pairs row i of the labels with row i of the subjects. */
  lemma {:induction false} JoinAt(labels: seq<int>, subjects: seq<int>, i: nat)
    requires i < Max(|labels|, |subjects|)
    ensures Join(labels, subjects)[i] == MetaRow(CellAt(labels, i), CellAt(subjects, i))
    decreases |labels| + |subjects|
  {
    if i > 0 {
      JoinAt(Rest(labels), Rest(subjects), i - 1);
      assert CellAt(Rest(labels), i - 1) == CellAt(labels, i);
      assert CellAt(Rest(subjects), i - 1) == CellAt(subjects, i);
    }
  }

  function Activities(m: Meta): (c: seq<Cell>)
    ensures |c| == |m|
  {
    seq(|m|, j requires 0 <= j < |m| => m[j].activity)
  }

  function PersonIds(m: Meta): (c: seq<Cell>)
    ensures |c| == |m|
  {
    seq(|m|, j requires 0 <= j < |m| => m[j].personId)
  }

  /** A column read from a file, as cells. */
  function Values(column: seq<int>): (c: seq<Cell>)
    ensures |c| == |column|
  {
    seq(|column|, i requires 0 <= i < |column| => Value(column[i]))
  }

  /** When the two files have the same number of lines, the columns of the table are exactly the files. */
  lemma JoinColumns(labels: seq<int>, subjects: seq<int>)
    requires |labels| == |subjects|
    ensures Activities(Join(labels, subjects)) == Values(labels)
    ensures PersonIds(Join(labels, subjects)) == Values(subjects)
  {
    var m := Join(labels, subjects);
    forall i | 0 <= i < |m| ensures m[i] == MetaRow(Value(labels[i]), Value(subjects[i])) {
      JoinAt(labels, subjects, i);
    }
  }

  /** The meta tables of both splits, each pairing label i with subject i. */
  function LoadMeta<T>(root: Root<T>): (m: Metas)
    ensures |m.train| == Max(|root.train.labels|, |root.train.subjects|)
    ensures |m.test| == Max(|root.test.labels|, |root.test.subjects|)
    ensures forall i :: 0 <= i < |m.train| ==>
              m.train[i] == MetaRow(CellAt(root.train.labels, i), CellAt(root.train.subjects, i))
    ensures forall i :: 0 <= i < |m.test| ==>
              m.test[i] == MetaRow(CellAt(root.test.labels, i), CellAt(root.test.subjects, i))
  {
    var train := Join(root.train.labels, root.train.subjects);
    var test := Join(root.test.labels, root.test.subjects);
    assert forall i :: 0 <= i < |train| ==>
             train[i] == MetaRow(CellAt(root.train.labels, i), CellAt(root.train.subjects, i)) by {
      forall i | 0 <= i < |train| {
        JoinAt(root.train.labels, root.train.subjects, i);
      }
    }
    assert forall i :: 0 <= i < |test| ==>
             test[i] == MetaRow(CellAt(root.test.labels, i), CellAt(root.test.subjects, i)) by {
      forall i | 0 <= i < |test| {
        JoinAt(root.test.labels, root.test.subjects, i);
      }
    }
    Metas(train, test)
  }
}
