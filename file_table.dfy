/**
 * The table face of the project's file list (`FilesModel` in
 * src/windows/models/files_model.py:128-290): one row per file dictionary,
 * six legacy columns, Qt roles answered per column, item flags, header
 * labels, and the rules `setData` applies to an edit.
 */
module FileTable {
  import opened Optional
  import opened Text
  import opened Decimal
  import opened PosixPath

  /**
   * One entry of the project's "files" list. `fields` holds the text-valued
   * keys the table reads or writes ("id", "title", "name", "tags",
   * "media_type"); `startFrame` is the thumbnail frame the entry's "start"
   * offset gives, when it has one.
   */
  datatype FileEntry = FileEntry(path: string, fields: map<string, string>, startFrame: Option<int>)
  {
    /** `file_data.get(key)`. */
    function Get(key: string): Option<string> {
      if key in fields then Some(fields[key]) else None
    }

    function Id(): Option<string> {
      Get("id")
    }

    /** `file_data.get("title", os.path.basename(path))`. */
    function Title(): string {
      if "title" in fields then fields["title"] else Basename(path)
    }

    /** The entry after `file_data[key] = value`. */
    function With(key: string, value: string): FileEntry {
      this.(fields := fields[key := value])
    }
  }

  /** A `QModelIndex` of this flat table: invalid, or a cell. */
  datatype ModelIndex = Invalid | Cell(row: nat, column: nat)

  /** What a role query answers: Python's `None`, a string, the left alignment flag, or an icon over a thumbnail path. */
  datatype Value = NoValue | Text(s: string) | AlignLeft | Icon(thumbPath: string)

  function OfOption(o: Option<string>): Value {
    match o
    case None => NoValue
    case Some(s) => Text(s)
  }

  datatype Orientation = Horizontal | Vertical

  datatype ItemFlag = Selectable | Enabled | NeverHasChildren | DragEnabled | DropEnabled | Editable

  const DisplayRole: int := 0
  const DecorationRole: int := 1
  const EditRole: int := 2
  const ToolTipRole: int := 3
  const TextAlignmentRole: int := 7
  const UserRole: int := 256

  /** `FileRoles`: user roles 11 to 14. */
  const IdRole: int := UserRole + 11
  const PathRole: int := UserRole + 12
  const MediaTypeRole: int := UserRole + 13
  const DataKeyRole: int := UserRole + 14

  predicate IsTextRole(role: int) {
    role == DisplayRole || role == ToolTipRole || role == EditRole
  }

  /** `columnCount()`. */
  const ColumnCount: nat := 6

  /** `data_labels`: the header label and the dictionary key of columns 0 to 2. */
  const DataLabels: seq<(string, string)> := [("", ""), ("Name", "name"), ("Tags", "tags")]

  /** What the `DataKey` role answers for a column. */
  function DataKeyOf(col: nat): string {
    if col < |DataLabels| then DataLabels[col].1 else ""
  }

  /** Columns 0 and 1 answer the decoration role with the file's thumbnail. */
  predicate ShowsThumbnail(col: nat, role: int) {
    (col == 0 || col == 1) && role == DecorationRole
  }

  /**
   * `data(index, role)` on a valid index whose row holds `e`; `thumb` is the
   * cached thumbnail path, used only when `ShowsThumbnail(col, role)`.
   */
  function CellData(e: FileEntry, col: nat, role: int, thumb: string): Value {
    if (col == 0 || col == 1) && IsTextRole(role) then Text(e.Title())
    else if col == 2 && IsTextRole(role) then OfOption(e.Get("tags"))
    else if col == 3 && IsTextRole(role) then OfOption(e.Get("media_type"))
    else if col == 4 && IsTextRole(role) then Text(e.path)
    else if col == 5 && IsTextRole(role) then OfOption(e.Id())
    else if role == IdRole then OfOption(e.Id())
    else if role == PathRole then Text(e.path)
    else if role == MediaTypeRole then OfOption(e.Get("media_type"))
    else if role == DataKeyRole then Text(DataKeyOf(col))
    else if ShowsThumbnail(col, role) then Icon(thumb)
    else NoValue
  }

  /** `flags(index)`. */
  function Flags(index: ModelIndex): set<ItemFlag> {
    match index
    case Invalid => {}
    case Cell(_, col) =>
      {Selectable, Enabled, NeverHasChildren}
      + (if col == 0 then {DragEnabled, DropEnabled} else {})
      + (if col == 1 || col == 2 then {Editable} else {})
  }

  /** `headerData(section, orientation, role)`, with the labels untranslated. */
  function HeaderData(section: nat, orientation: Orientation, role: int): Value {
    if orientation == Vertical then Text("Row " + NatToString(section))
    else if role == DisplayRole then (if section < |DataLabels| then Text(DataLabels[section].0) else Text(""))
    else if role == TextAlignmentRole then AlignLeft
    else NoValue
  }

  /** What a successful edit writes to the project: `{key: value}` on the file with that id. */
  datatype Change = Change(id: string, key: string, value: string)

  /** The cells `dataChanged` reports: one row, columns `left` to `right`. */
  datatype Region = Region(row: nat, left: nat, right: nat)

  /** What `setData` returns, what it saves, and what it signals. */
  datatype EditResult = EditResult(ok: bool, change: Option<Change>, signal: Option<Region>)

  /**
   * `setData(index, value, role)` on a valid index of row `row` holding `e`.
   * The current value is compared first (an icon never equals a string);
   * then the edit needs a non-empty id and a column with a data key.
   */
  function EditRule(e: FileEntry, row: nat, col: nat, role: int, value: string): (r: EditResult)
    ensures r.change.Some? <==> r.signal.Some?
    ensures r.change.Some? ==>
      && r.ok
      && e.Id().Some? && e.Id().value != ""
      && r.change.value == Change(e.Id().value, DataKeyOf(col), value)
      && DataKeyOf(col) != ""
      && CellData(e, col, role, "") != Text(value)
    ensures r.change.None? ==> (r.ok <==> CellData(e, col, role, "") == Text(value))
    ensures !r.ok ==> e.Id() == None || e.Id() == Some("") || DataKeyOf(col) == ""
    ensures r.signal.Some? ==>
      && r.signal.value.row == row
      && r.signal.value.left <= col <= r.signal.value.right < ColumnCount
      && (r.signal.value.left == r.signal.value.right <==> DataKeyOf(col) == "tags")
    // a tags edit reports its own cell; any other edit reports the whole row
    ensures r.signal.Some? ==>
      r.signal.value == (if DataKeyOf(col) == "tags" then Region(row, col, col) else Region(row, 0, ColumnCount - 1))
  {
    if CellData(e, col, role, "") == Text(value) then EditResult(true, None, None)
    else
      var key := DataKeyOf(col);
      match e.Id()
      case None => EditResult(false, None, None)
      case Some(id) =>
        if id == "" || key == "" then EditResult(false, None, None)
        else
          var region := if key == "tags" then Region(row, col, col) else Region(row, 0, ColumnCount - 1);
          EditResult(true, Some(Change(id, key, value)), Some(region))
  }

  /** Index of the first entry with id `id` (`File.get(id=...)`), or `|files|`. */
  function FirstWithId(files: seq<FileEntry>, id: string): (i: nat)
    ensures i <= |files|
    ensures i < |files| ==> files[i].Id() == Some(id)
    ensures forall k :: 0 <= k < i ==> files[k].Id() != Some(id)
  {
    if |files| == 0 then 0
    else if files[0].Id() == Some(id) then 0
    else 1 + FirstWithId(files[1..], id)
  }

  /** The project's file list after a change is saved: only the first file with that id takes the new value. */
  function SaveChange(files: seq<FileEntry>, c: Change): (r: seq<FileEntry>)
    ensures |r| == |files|
    ensures forall k :: 0 <= k < |files| && k != FirstWithId(files, c.id) ==> r[k] == files[k]
    ensures FirstWithId(files, c.id) < |files| ==>
      var i := FirstWithId(files, c.id);
      r[i] == files[i].With(c.key, c.value)
  {
    var i := FirstWithId(files, c.id);
    if i < |files| then files[i := files[i].With(c.key, c.value)] else files
  }

  /** Only the editable columns (1 and 2) have a data key, so only they can save an edit. */
  lemma EditableIffKeyed(row: nat, col: nat)
    ensures Editable in Flags(Cell(row, col)) <==> DataKeyOf(col) != ""
  {
    if col == 0 {
      assert DataKeyOf(col) == "";
    } else if col == 1 {
      assert DataKeyOf(col) == "name";
    } else if col == 2 {
      assert DataKeyOf(col) == "tags";
    }
  }

  /** Every edit that saves happens on a cell whose flags say it is editable. */
  lemma SavedEditsAreEditable(e: FileEntry, row: nat, col: nat, role: int, value: string)
    requires EditRule(e, row, col, role, value).change.Some?
    ensures Editable in Flags(Cell(row, col))
  {
    EditableIffKeyed(row, col);
  }

  /**
   * A tags edit shows up in column 2 and, made again, changes nothing: it
   * signals only its own cell the first time.
   */
  lemma TagsEditRoundTrip(e: FileEntry, row: nat, role: int, value: string)
    requires IsTextRole(role)
    requires EditRule(e, row, 2, role, value).change.Some?
    ensures var e' := e.With("tags", value);
      && CellData(e', 2, role, "") == Text(value)
      && EditRule(e', row, 2, role, value) == EditResult(true, None, None)
      && EditRule(e, row, 2, role, value).signal == Some(Region(row, 2, 2))
  {
    assert DataKeyOf(2) == "tags";
  }

  /**
   * A name edit (column 1) writes key "name" while the column displays
   * "title": when the file has a title the edit never shows, and the same
   * edit made again saves again.
   */
  lemma NameEditNotShown(e: FileEntry, row: nat, role: int, value: string)
    requires "title" in e.fields && IsTextRole(role)
    requires EditRule(e, row, 1, role, value).change.Some?
    ensures var e' := e.With("name", value);
      && (forall r: int :: CellData(e', 1, r, "") == CellData(e, 1, r, ""))
      && EditRule(e', row, 1, role, value) == EditRule(e, row, 1, role, value)
      && EditRule(e, row, 1, role, value).signal == Some(Region(row, 0, ColumnCount - 1))
  {
    assert DataKeyOf(1) == "name";
    var e' := e.With("name", value);
    assert e'.Id() == e.Id() && e'.Title() == e.Title();
  }

  /** The legacy text columns 3 to 5 agree with the custom roles that name the same field. */
  lemma TextColumnsAgreeWithRoles(e: FileEntry, role: int, thumb: string)
    requires IsTextRole(role)
    ensures CellData(e, 3, role, thumb) == CellData(e, 0, MediaTypeRole, thumb)
    ensures CellData(e, 4, role, thumb) == CellData(e, 0, PathRole, thumb)
    ensures CellData(e, 5, role, thumb) == CellData(e, 0, IdRole, thumb)
  {
  }

  /** The header labels of columns 0 to 2 name, up to case, the keys their edits write. */
  lemma HeaderNamesKey(section: nat)
    requires section < |DataLabels|
    ensures HeaderData(section, Horizontal, DisplayRole).Text?
    ensures Lower(HeaderData(section, Horizontal, DisplayRole).s) == DataKeyOf(section)
  {
    if section == 1 {
      assert Lower("Name") == "name";
    } else if section == 2 {
      assert Lower("Tags") == "tags";
    }
  }

  /** A vertical header reads back as its row number, whatever the role. */
  lemma RowHeaderRoundTrip(section: nat, role: int)
    ensures var h := HeaderData(section, Vertical, role);
      && h.Text? && StartsWith(h.s, "Row ")
      && AllDigits(h.s[4..]) && ParseNat(h.s[4..]) == section
  {
    var h := HeaderData(section, Vertical, role);
    assert h.s[4..] == NatToString(section);
    ParseNatToString(section);
  }
}
