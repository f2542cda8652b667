/** Column descriptors, as the grid and the field-array adapter receive them
    in their `columnModel` prop. */
module ColumnModel {
  import opened Js

  /** A caller-supplied `getValue` function. JavaScript compares functions by
      reference, so each one carries the identity of the closure it stands for. */
  datatype Extractor = Extractor(id: nat, apply: Value -> Value)

  /** One column: its key in the rows, its label, its tri-state sort flag
      (`None` = not sortable, `Some(true)` = ascending, `Some(false)` =
      descending), its sort format tag and an optional key extractor. */
  datatype Column = Column(
    dataIndex: string,
    name: string,
    sortable: Option<bool>,
    sortingType: string,
    getValue: Option<Extractor>)

  /** The keys of a column list, in order (`columnModel.map(x => x.dataIndex)`). */
  function DataIndexes(columns: seq<Column>): (keys: seq<string>)
    ensures |keys| == |columns|
    ensures forall i :: 0 <= i < |columns| ==> keys[i] == columns[i].dataIndex
  {
    if columns == [] then [] else [columns[0].dataIndex] + DataIndexes(columns[1..])
  }

  predicate SameExtractor(a: Option<Extractor>, b: Option<Extractor>)
  {
    match (a, b)
    case (None, None) => true
    case (Some(f), Some(g)) => f.id == g.id
    case _ => false
  }

  /** lodash `_.isEqual` on two descriptors: every data field equal, functions by reference. */
  predicate SameColumn(a: Column, b: Column)
  {
    a.dataIndex == b.dataIndex && a.name == b.name && a.sortable == b.sortable
    && a.sortingType == b.sortingType && SameExtractor(a.getValue, b.getValue)
  }

  /** lodash `_.isEqual` on two descriptor lists: same length, equal position by position. */
  predicate SameColumns(a: seq<Column>, b: seq<Column>)
  {
    |a| == |b| && forall i :: 0 <= i < |a| ==> SameColumn(a[i], b[i])
  }
}
