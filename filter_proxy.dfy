/**
 * `FileFilterProxyModel` (src/windows/models/files_model.py:80-125) with the
 * fixed-string, case-insensitive text filter `FilesManager` installs on it
 * (files_model.py:652 and 665): a row passes when its media type is in the
 * filter group and the filter text occurs in its title.
 */
module FilterProxy {
  import opened Optional
  import opened Text
  import opened FileTable

  const AllMediaTypes: set<string> := {"audio", "image", "video"}

  /** What `filterAcceptsRow` does: accept, reject, or raise (the misspelt `filterRegexp` is not a method). */
  datatype Verdict = Accepted | Rejected | AttributeError

  /** The text of a role answer, as the fixed-string search sees it. */
  function Searched(v: Value): string {
    if v.Text? then v.s else ""
  }

  /** `indexIn(s) >= 0` of a case-insensitive fixed-string pattern. */
  predicate FilterMatches(text: string, v: Value) {
    OccursIgnoringCase(text, Searched(v))
  }

  /**
   * `filterAcceptsRow` for a row holding `e`. Title and "tags" are both read
   * from column 0 with the display role, so the second test repeats the first.
   */
  function FilterRow(group: set<string>, text: string, e: FileEntry): Verdict {
    if group == {} then AttributeError
    else
      var title := CellData(e, 0, DisplayRole, "");
      var mediaType := CellData(e, 0, MediaTypeRole, "");
      if !(mediaType.Text? && mediaType.s in group) then Rejected
      else
        var tags := CellData(e, 0, DisplayRole, "");
        if FilterMatches(text, title) || FilterMatches(text, tags) then Accepted else Rejected
  }

  /** A row passes exactly when its media type is in the group and the text occurs in its title, ignoring case. */
  lemma FilterRowMeaning(group: set<string>, text: string, e: FileEntry)
    requires group != {}
    ensures FilterRow(group, text, e) != AttributeError
    ensures FilterRow(group, text, e) == Accepted <==>
      && e.Get("media_type").Some? && e.Get("media_type").value in group
      && Occurs(Lower(text), Lower(e.Title()))
  {
  }

  /** The tags never influence the filter. */
  lemma FilterIgnoresTags(group: set<string>, text: string, e: FileEntry, tags: string)
    ensures FilterRow(group, text, e.With("tags", tags)) == FilterRow(group, text, e)
  {
    var e' := e.With("tags", tags);
    assert e'.Get("media_type") == e.Get("media_type");
    assert e'.Title() == e.Title();
  }

  /** With no filter text, the rows shown are exactly those of the group's media types. */
  lemma EmptyTextFiltersByType(group: set<string>, e: FileEntry)
    requires group != {}
    ensures FilterRow(group, "", e) == Accepted <==> e.Get("media_type").Some? && e.Get("media_type").value in group
  {
    assert OccursAt(Lower(""), Lower(e.Title()), 0);
  }

  /** The case of the filter text does not matter. */
  lemma FilterIgnoresCase(group: set<string>, text: string, e: FileEntry)
    ensures FilterRow(group, Lower(text), e) == FilterRow(group, text, e)
  {
    LowerIdempotent(text);
  }

  /** The filter state of the proxy model. */
  class FileFilterProxy {
    var filterGroup: set<string>
    var filterText: string

    /** The group can only be a single type or all three, so it is never empty. */
    ghost predicate Valid()
      reads this
    {
      filterGroup == AllMediaTypes || |filterGroup| == 1
    }

    constructor()
      ensures filterGroup == AllMediaTypes && filterText == ""
      ensures Valid()
    {
      filterGroup := AllMediaTypes;
      filterText := "";
    }

    /** `update_filter_group(selected)`: a media type, or "" / `None` for all of them. */
    method UpdateFilterGroup(selected: Option<string>)
      modifies this
      ensures selected.Some? && selected.value != "" ==> filterGroup == {selected.value}
      ensures selected.None? || selected.value == "" ==> filterGroup == AllMediaTypes
      ensures filterText == old(filterText)
      ensures Valid()
    {
      if selected.Some? && selected.value != "" {
        filterGroup := {selected.value};
      } else {
        filterGroup := AllMediaTypes;
      }
    }

    /** `setFilterFixedString(text)`, the slot behind `filter_text_changed`. */
    method SetFilterFixedString(text: string)
      modifies this
      ensures filterText == text && filterGroup == old(filterGroup)
      ensures old(Valid()) ==> Valid()
    {
      filterText := text;
    }

    function FilterAcceptsRow(e: FileEntry): Verdict
      reads this
    {
      FilterRow(filterGroup, filterText, e)
    }

    /** Through the proxy's own slots the filter never reaches the misspelt branch. */
    lemma NeverRaises(e: FileEntry)
      requires Valid()
      ensures FilterAcceptsRow(e) != AttributeError
    {
      if filterGroup != AllMediaTypes {
        assert |filterGroup| == 1;
      }
    }
  }
}
