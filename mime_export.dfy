/**
 * The URI list `FilesModel.mimeData` puts on a drag
 * (src/windows/models/files_model.py:323-336): the ids of the valid
 * indexes, each once, as `openshot://file/<id>`.
 */
module MimeExport {
  import opened Optional
  import opened Text
  import opened FileTable
  import opened Thumbnails

  predicate NoDuplicates<T(==)>(xs: seq<T>) {
    forall i, j :: 0 <= i < j < |xs| ==> xs[i] != xs[j]
  }

  /** `list(set(xs))`: every element once. */
  function Dedup<T(==,!new)>(xs: seq<T>): (r: seq<T>)
    ensures NoDuplicates(r)
    ensures forall x :: x in r <==> x in xs
  {
    if |xs| == 0 then []
    else
      var rest := Dedup(xs[1..]);
      if xs[0] in rest then rest else [xs[0]] + rest
  }

  /** Every valid index points at a row of the table. */
  predicate RowsInRange(indexes: seq<ModelIndex>, rows: seq<FileEntry>) {
    forall k :: 0 <= k < |indexes| && indexes[k].Cell? ==> indexes[k].row < |rows|
  }

  /** What `idx.data(FileRoles.Id)` answers for each valid index, in order. */
  function SelectedIds(indexes: seq<ModelIndex>, rows: seq<FileEntry>): (ids: seq<Option<string>>)
    requires RowsInRange(indexes, rows)
    ensures forall id :: id in ids <==> Selects(indexes, rows, id)
  {
    if |indexes| == 0 then []
    else
      var rest := SelectedIds(indexes[1..], rows);
      assert forall id :: Selects(indexes, rows, id) <==>
        (indexes[0].Cell? && rows[indexes[0].row].Id() == id) || Selects(indexes[1..], rows, id) by {
        forall id | Selects(indexes, rows, id) && !(indexes[0].Cell? && rows[indexes[0].row].Id() == id)
          ensures Selects(indexes[1..], rows, id)
        {
          var k :| 0 <= k < |indexes| && indexes[k].Cell? && indexes[k].row < |rows| && rows[indexes[k].row].Id() == id;
          assert indexes[1..][k - 1] == indexes[k];
        }
        forall id | Selects(indexes[1..], rows, id) ensures Selects(indexes, rows, id) {
          var k :| 0 <= k < |indexes[1..]| && indexes[1..][k].Cell? && indexes[1..][k].row < |rows| && rows[indexes[1..][k].row].Id() == id;
          assert indexes[k + 1] == indexes[1..][k];
        }
      }
      if indexes[0].Cell? then [rows[indexes[0].row].Id()] + rest else rest
  }

  /** Some valid index of the selection is on a row with this id. */
  predicate Selects(indexes: seq<ModelIndex>, rows: seq<FileEntry>, id: Option<string>) {
    exists k :: 0 <= k < |indexes| && indexes[k].Cell? && indexes[k].row < |rows| && rows[indexes[k].row].Id() == id
  }

  const UriPrefix: string := "openshot://file/"

  function Uri(id: Option<string>): string {
    UriPrefix + IdText(id)
  }

  /** The URIs of a drag: one per distinct id among the valid indexes, invalid indexes dropped. */
  function MimeUris(indexes: seq<ModelIndex>, rows: seq<FileEntry>): (uris: seq<string>)
    requires RowsInRange(indexes, rows)
    ensures forall u :: u in uris <==> exists id :: Selects(indexes, rows, id) && u == Uri(id)
  {
    var ids := Dedup(SelectedIds(indexes, rows));
    var uris := seq(|ids|, i requires 0 <= i < |ids| => Uri(ids[i]));
    assert forall u :: u in uris ==> exists id :: Selects(indexes, rows, id) && u == Uri(id) by {
      forall u | u in uris ensures exists id :: Selects(indexes, rows, id) && u == Uri(id) {
        var i :| 0 <= i < |uris| && uris[i] == u;
        assert ids[i] in ids;
      }
    }
    assert forall id :: Selects(indexes, rows, id) ==> Uri(id) in uris by {
      forall id | Selects(indexes, rows, id) ensures Uri(id) in uris {
        assert id in ids;
        var i :| 0 <= i < |ids| && ids[i] == id;
        assert uris[i] == Uri(id);
      }
    }
    uris
  }

  lemma UriInjective(a: string, b: string)
    requires Uri(Some(a)) == Uri(Some(b))
    ensures a == b
  {
    assert a == Uri(Some(a))[|UriPrefix|..];
    assert b == Uri(Some(b))[|UriPrefix|..];
  }

  /** When every selected row has an id, no URI is emitted twice. */
  lemma UrisDistinct(indexes: seq<ModelIndex>, rows: seq<FileEntry>)
    requires RowsInRange(indexes, rows)
    requires forall k :: 0 <= k < |indexes| && indexes[k].Cell? ==> rows[indexes[k].row].Id().Some?
    ensures NoDuplicates(MimeUris(indexes, rows))
  {
    var ids := Dedup(SelectedIds(indexes, rows));
    var uris := MimeUris(indexes, rows);
    forall i, j | 0 <= i < j < |uris| ensures uris[i] != uris[j] {
      assert ids[i] in SelectedIds(indexes, rows) && ids[j] in SelectedIds(indexes, rows);
      assert ids[i].Some? && ids[j].Some?;
      if uris[i] == uris[j] {
        UriInjective(ids[i].value, ids[j].value);
      }
    }
  }
}
