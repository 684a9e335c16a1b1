/**
 * `FilesModel` (src/windows/models/files_model.py:128-290): the table over
 * the project's "files" list with its thumbnail cache. `data` is the same
 * list the project holds, so saving an edit to the project changes it.
 */
module FilesModels {
  import opened Optional
  import opened Text
  import opened FileTable
  import opened Thumbnails

  /** The cache after `lookup_thumb(e)`: an id not cached yet gets whatever the service gives, '' included. */
  function CachedAfter(cache: map<Option<string>, string>, e: FileEntry, server: Server, fetch: string -> Reply)
    : (r: map<Option<string>, string>)
    ensures e.Id() in r
    ensures forall id :: id in cache ==> id in r && r[id] == cache[id]
    ensures forall id :: id in r ==> id in cache || id == e.Id()
  {
    if e.Id() in cache then cache
    else cache[e.Id() := GetThumbPath(server, IdText(e.Id()), ThumbFrame(e), true, fetch)]
  }

  /** The URL `lookup_thumb(e)` asks for, when the id is not cached: always with the cache-clearing suffix. */
  function ThumbRequestUrl(e: FileEntry, server: Server): (url: string)
    ensures EndsWith(url, "/path/no-cache/")
  {
    var url := ThumbUrl(ThumbRequest(server, IdText(e.Id()), ThumbFrame(e), true));
    assert url[|url| - |"/path/no-cache/"|..] == "/path/no-cache/";
    url
  }

  /** A second lookup of the same file finds it cached: the cache stays as it is. */
  lemma LookupIsCachedOnce(cache: map<Option<string>, string>, e: FileEntry, server: Server, fetch: string -> Reply)
    ensures CachedAfter(CachedAfter(cache, e, server, fetch), e, server, fetch) == CachedAfter(cache, e, server, fetch)
  {
  }

  /** A failed request is cached as '', so the same file is not asked for again until a reset. */
  lemma FailureIsCached(cache: map<Option<string>, string>, e: FileEntry, server: Server, fetch: string -> Reply)
    requires e.Id() !in cache
    requires !fetch(ThumbRequestUrl(e, server)).ok
    ensures CachedAfter(cache, e, server, fetch)[e.Id()] == ""
  {
  }

  class FilesModel {
    var data: seq<FileEntry>
    var thumbPaths: map<Option<string>, string>

    /** `__init__`: an empty list, then `reset_model()`; `project` is the open project's file list, if any. */
    constructor(project: Option<seq<FileEntry>>)
      ensures data == project.GetOr([]) && thumbPaths == map[]
    {
      data := [];
      thumbPaths := map[];
      new;
      ResetModel(project);
    }

    /** `reset_model()`: take the project's file list when there is a project, and drop every cached thumbnail. */
    method ResetModel(project: Option<seq<FileEntry>>)
      modifies this
      ensures data == project.GetOr(old(data))
      ensures thumbPaths == map[]
    {
      if project.Some? {
        data := project.value;
      }
      thumbPaths := map[];
    }

    /** `rowCount(parent)`: rows have no children. */
    function RowCount(parent: ModelIndex): nat
      reads this
    {
      if parent.Cell? then 0 else |data|
    }

    /**
     * `lookup_thumb(e)`: ask the service only for an id not cached yet, and
     * cache whatever it answers. `requested` is the URL asked for, if any.
     */
    method LookupThumb(e: FileEntry, server: Server, fetch: string -> Reply) returns (thumb: string, requested: Option<string>)
      modifies this
      ensures data == old(data)
      ensures thumbPaths == CachedAfter(old(thumbPaths), e, server, fetch)
      ensures thumb == thumbPaths[e.Id()]
      ensures requested.Some? <==> e.Id() !in old(thumbPaths)
      ensures requested.Some? ==> requested.value == ThumbRequestUrl(e, server)
    {
      var id := e.Id();
      requested := None;
      if id !in thumbPaths {
        var url := ThumbUrl(ThumbRequest(server, IdText(id), ThumbFrame(e), true));
        var path := ThumbPath(fetch(url));
        thumbPaths := thumbPaths[id := path];
        requested := Some(url);
      }
      thumb := thumbPaths[id];
    }

    /** `data(index, role)`; only the thumbnail roles of columns 0 and 1 touch the cache. */
    method Data(index: ModelIndex, role: int, server: Server, fetch: string -> Reply) returns (v: Value)
      requires index.Cell? ==> index.row < |data|
      modifies this
      ensures data == old(data)
      ensures index.Invalid? ==> v == NoValue && thumbPaths == old(thumbPaths)
      ensures index.Cell? && !ShowsThumbnail(index.column, role) ==>
        thumbPaths == old(thumbPaths) && v == CellData(data[index.row], index.column, role, "")
      ensures index.Cell? && ShowsThumbnail(index.column, role) ==>
        var e := data[index.row];
        && thumbPaths == CachedAfter(old(thumbPaths), e, server, fetch)
        && v == CellData(e, index.column, role, thumbPaths[e.Id()])
    {
      if index.Invalid? {
        return NoValue;
      }
      var e := data[index.row];
      var thumb := "";
      if ShowsThumbnail(index.column, role) {
        var requested;
        thumb, requested := LookupThumb(e, server, fetch);
      }
      v := CellData(e, index.column, role, thumb);
    }

    /**
     * `setData(index, value, role)`: the comparison with the current value
     * goes through `data`, then a saved edit changes the first file with the
     * row's id. `signal` is the region `dataChanged` reports.
     */
    method SetData(index: ModelIndex, value: string, role: int, server: Server, fetch: string -> Reply)
      returns (ok: bool, signal: Option<Region>)
      requires index.Cell? ==> index.row < |data|
      modifies this
      ensures index.Invalid? ==> ok && signal.None? && data == old(data) && thumbPaths == old(thumbPaths)
      ensures index.Cell? ==>
        var r := EditRule(old(data)[index.row], index.row, index.column, role, value);
        && ok == r.ok && signal == r.signal
        && data == (if r.change.Some? then SaveChange(old(data), r.change.value) else old(data))
        && thumbPaths == (if ShowsThumbnail(index.column, role)
                          then CachedAfter(old(thumbPaths), old(data)[index.row], server, fetch)
                          else old(thumbPaths))
    {
      if index.Invalid? {
        return true, None;
      }
      var current := Data(index, role, server, fetch);
      var e := data[index.row];
      assert current == Text(value) <==> CellData(e, index.column, role, "") == Text(value);
      var r := EditRule(e, index.row, index.column, role, value);
      if r.change.Some? {
        data := SaveChange(data, r.change.value);
      }
      ok, signal := r.ok, r.signal;
    }
  }
}
