/** A result row: an immutable map from column name to value. */
module Rows {
  import opened Wrappers
  import DT = DataType

  datatype Row = Row(fields: map<string, DT.PostgresDataType>) {
    /** `row[key]`: the stored value, or `None` when the row has no such column. */
    function Lookup(key: string): (r: Option<DT.PostgresDataType>)
      ensures r.Some? <==> key in fields
      ensures r.Some? ==> r.value == fields[key]
    {
      if key in fields then Some(fields[key]) else None
    }
  }

  /** A column holding SQL NULL is present: its lookup is `Some(.null)`, not `None`. */
  lemma StoredNullIsPresent(row: Row, key: string)
    requires key in row.fields && row.fields[key].Null?
    ensures row.Lookup(key) == Some(DT.Null)
    ensures row.Lookup(key) != Row(row.fields - {key}).Lookup(key)
  {
  }
}
