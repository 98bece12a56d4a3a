/** The database's `unique_together` constraints. A table is a sequence of
    rows; `key` gives the constrained columns of a row, or None when one of
    them is NULL (SQL never treats two NULLs as equal, so such a row clashes
    with nothing). Inserting a row whose key is already taken fails with an
    IntegrityError and leaves the table as it was. */
module Tables {
  import opened Wrappers

  datatype IntegrityError = DuplicateKey

  /** No two rows share a non-NULL key. */
  ghost predicate UniqueOn<T, K>(rows: seq<T>, key: T -> Option<K>) {
    forall i, j :: 0 <= i < j < |rows| && key(rows[i]).Some? ==> key(rows[i]) != key(rows[j])
  }

  predicate KeyTaken<T, K(==)>(rows: seq<T>, key: T -> Option<K>, row: T) {
    key(row).Some? && exists i :: 0 <= i < |rows| && key(rows[i]) == key(row)
  }

  /** `Model.objects.create(...)` on a table with a uniqueness constraint. */
  function Insert<T, K(==)>(rows: seq<T>, key: T -> Option<K>, row: T): (r: Result<seq<T>, IntegrityError>)
    ensures r.Err? <==> key(row).Some? && exists i :: 0 <= i < |rows| && key(rows[i]) == key(row)
    ensures r.Ok? ==> r.value == rows + [row]
    ensures r.Ok? && UniqueOn(rows, key) ==> UniqueOn(r.value, key)
  {
    if KeyTaken(rows, key, row) then Err(DuplicateKey) else Ok(rows + [row])
  }
}
