# OpenShot project files panel, in Dafny

This project models the part of OpenShot Video Editor that manages the media files of a project, and proves properties of that model.

## What is modelled

**`FilesModel`** (`FilesModels.FilesModel`, with `FileTable`) is the Qt table over the project's "files" list:
- six legacy columns, and the values each column answers for each role;
- item flags, header labels, and the rules `setData` applies to an edit;
- the per-file thumbnail cache filled from the local thumbnail server (`Thumbnails`).

**`FileFilterProxyModel`** (`FilterProxy`) is the media-type group plus the case-insensitive fixed-string filter in front of the table.

**`FilesManager`** (`FilesManagers.FilesManager`) is the owner of both models. It covers:
- the reaction to project changes (`changed`, `update_model`);
- the batch import `add_files`. `ImportBatch` states the loop one turn at a time as `Step`, and the whole loop as `Run`;
- the image-sequence detector `get_image_sequence_details` (`ImageSequences`). It uses the frame-name regular expression of `FrameNames` and a neighbour scan over the directory listing.

**Drag data**: `mimeData` (`MimeExport`) turns the selected files into `openshot://file/<id>` URIs.

**Language settings** (`Info`):
- `website_language()`, the website path prefix for the current language;
- the `SUPPORTED_LANGUAGES` list built from the translation files.

### State and environment

The table, the proxy and the manager are classes whose methods change their fields in place. The row-level rules are functions on values.

The surroundings are parameters:
- **Filesystem:** a listing `fs` of existing paths, in listing order. `os.path.exists` is membership, and a glob lists the matching paths in listing order.
- **Media probe:** `openshot.Clip` and `is_image` are a function from path to `Probe`.
- **Sequence prompt:** the user's answer is a function of the file name.
- **File ids:** the id the project gives the n-th file is a function `newId`.
- **Thumbnail server:** HTTP `get` is a function from URL to `Reply`.
- **Current language:** a string.
- **Translation directory:** its entry list is a sequence of names.

`add_files` is modelled as written:
- Python's list iterator reads the list by position.
- `files.remove` shortens the list under it.
- `Step` always advances the position by one.

Consequently, removing a frame that sits *before* the current file makes the loop skip a file it never visited (see Findings).

Two behaviours of the code that the model keeps as written:
- **Filter text:** it is matched against the title only. The "tags" value is read from column 0 with the display role, which is the title again.
- **Thumbnail server:** a failed reply is cached as `''`. Connection errors raised by `get` are not caught by the code, and are not modelled.

## Model

| member | source | states |
|---|---|---|
| Decimal.NatToString | src/windows/models/files_model.py:540 | `str(n)` for a natural number is a canonical numeral: only digits, and no leading zero unless it is "0" |
| Decimal.ParseNatToString | src/windows/models/files_model.py:525 | `int(str(n)) == n` for every natural number |
| Decimal.ParseIntToString | src/windows/models/files_model.py:304-309 | `int(str(i)) == i` for every integer, negative ones included |
| Decimal.NatToStringParse | src/windows/models/files_model.py:523-527 | `str(int(s)) == s` for every numeral without a superfluous leading zero, which is why the regex splits the zeros off |
| Text.Lower | openshot_qt/classes/info.py:85 | `lower()` keeps the length and lowers each letter in place |
| Text.LowerIdempotent | src/windows/models/files_model.py:652 | lowering twice is lowering once |
| Text.RJust | src/windows/models/files_model.py:540 | `rjust(width, fill)` has length max(width, old length), ends with the text, and is padded only with `fill` |
| Text.IndexOf | openshot_qt/classes/info.py:85 | the index of the first occurrence of a separator, or the length when there is none |
| Text.Split | openshot_qt/classes/info.py:73 | `split(sep)` gives at least one piece, no piece holds `sep`, and joining the pieces with `sep` gives the text back |
| Text.SplitJoinWith | openshot_qt/classes/info.py:73 | splitting pieces that were joined with a separator they do not contain gives the pieces back |
| PosixPath.SplitPath | src/windows/models/files_model.py:390 | `os.path.split`: the file name holds no '/' and ends the path |
| PosixPath.SplitOfJoin | src/windows/models/files_model.py:449-452 | splitting `os.path.join(d, n)` gives back `n`, and `d` when `d` has no trailing '/' |
| FileTable.EditRule | src/windows/models/files_model.py:244-273 | an edit saves exactly when the value differs, the file has a non-empty id and the column has a data key. It writes `{key: value}` on that id, and signals exactly the tag cell for a tags edit, else columns 0 to the last of that row. An unchanged value returns True without saving; a missing id or key returns False |
| FileTable.FirstWithId | src/windows/models/files_model.py:258 | `File.get(id=...)` finds the first file with that id, and none before it has it |
| FileTable.SaveChange | src/windows/models/files_model.py:258-262 | saving a change updates the key of the first file with the id, and no other file |
| FileTable.EditableIffKeyed | src/windows/models/files_model.py:178-180 | a cell's flags say editable exactly when its column has a data key (columns 1 and 2) |
| FileTable.SavedEditsAreEditable | src/windows/models/files_model.py:231-254 | every edit that saves is on a cell the flags mark editable |
| FileTable.TagsEditRoundTrip | src/windows/models/files_model.py:214-215 | a saved tags edit shows in column 2, the same edit made again saves nothing, and the first one signals only its own cell |
| FileTable.NameEditNotShown | src/windows/models/files_model.py:204-213 | a name edit on a file with a title never shows in column 1; making it again saves again and signals the whole row |
| FileTable.TextColumnsAgreeWithRoles | src/windows/models/files_model.py:216-229 | legacy columns 3 to 5 answer what the media-type, path and id roles answer |
| FileTable.HeaderNamesKey | src/windows/models/files_model.py:135-139 | the header labels of columns 0 to 2 name, up to case, the keys their edits write |
| FileTable.RowHeaderRoundTrip | src/windows/models/files_model.py:185-186 | a vertical header reads "Row " followed by the row number, for every role |
| FilesModels.CachedAfter | src/windows/models/files_model.py:275-290 | after a thumbnail lookup the file's id is cached, other cached ids keep their paths, and no other id is added |
| FilesModels.ThumbRequestUrl | src/windows/models/files_model.py:285-286 | the lookup always asks for a cache-clearing URL ending in "/path/no-cache/" |
| FilesModels.LookupIsCachedOnce | src/windows/models/files_model.py:277 | a second lookup of the same file leaves the cache as it is |
| FilesModels.FailureIsCached | src/windows/models/files_model.py:311-315 | a failed request is cached as '' and is not repeated until a reset |
| FilesModels.FilesModel.constructor | src/windows/models/files_model.py:141-146 | a new table holds the project's files (none without a project) and no thumbnails |
| FilesModels.FilesModel.ResetModel | src/windows/models/files_model.py:148-154 | reset takes the project's list when there is a project, and empties the thumbnail cache |
| FilesModels.FilesModel.LookupThumb | src/windows/models/files_model.py:275-290 | the server is asked, for the cache-clearing URL, exactly when the id is not cached. The answer is the cached path |
| FilesModels.FilesModel.Data | src/windows/models/files_model.py:195-242 | an invalid index answers nothing. Only the decoration role of columns 0 and 1 touches the cache; every other query answers the cell's value |
| FilesModels.FilesModel.SetData | src/windows/models/files_model.py:244-273 | `setData` returns and signals what the edit rule decides, and saves its change to the first file with the row's id |
| FilterProxy.FilterRowMeaning | src/windows/models/files_model.py:83-110 | with a non-empty group a row passes exactly when its media type is in the group and the filter text occurs in its title, ignoring case |
| FilterProxy.FilterIgnoresTags | src/windows/models/files_model.py:102-110 | changing a file's tags never changes whether it passes |
| FilterProxy.EmptyTextFiltersByType | src/windows/models/files_model.py:95-100 | with empty text the rows shown are exactly those of the group's media types |
| FilterProxy.FilterIgnoresCase | src/windows/models/files_model.py:652 | lower-casing the filter text does not change the verdict |
| FilterProxy.FileFilterProxy.constructor | src/windows/models/files_model.py:122-125 | a new proxy shows all three media types and has no text |
| FilterProxy.FileFilterProxy.UpdateFilterGroup | src/windows/models/files_model.py:112-120 | a selected type becomes the only group, and no selection gives all three; the group is never empty |
| FilterProxy.FileFilterProxy.SetFilterFixedString | src/windows/models/files_model.py:665 | setting the text keeps the group |
| FilterProxy.FileFilterProxy.NeverRaises | src/windows/models/files_model.py:85-87 | a proxy whose group is set only through its own slots never reaches the misspelt `filterRegexp` call |
| FrameNames.FoldsToSlice | src/windows/models/files_model.py:516 | the case-insensitive comparison of an extension is lower-casing the slice |
| FrameNames.ExtensionFromSound | src/windows/models/files_model.py:515-516 | an extension found at a position is one of the six and is spelled there, ignoring case |
| FrameNames.TailAtSound | src/windows/models/files_model.py:516 | a tail found at a position is zeros, digits, '.', an extension, spelled there |
| FrameNames.GroupedMatchSound | src/windows/models/files_model.py:516 | the greedy base group ends in a non-digit on the first line and is followed by a tail |
| FrameNames.SearchFromSound | src/windows/models/files_model.py:516-520 | a match found by the search is well formed and occurs in the name at or after the start |
| FrameNames.ParseFrameNameSound | src/windows/models/files_model.py:516-527 | every recognised name has base, zeros, numeral and one of the six extensions, and they match the name |
| FrameNames.ParseFrameNameComplete | src/windows/models/files_model.py:516-520 | every name that the pattern matches from its start is recognised |
| FrameNames.GroupedMatchFinds | src/windows/models/files_model.py:516 | the base group is found whenever some end before a tail is a non-digit |
| FrameNames.GroupedMatchSkips | src/windows/models/files_model.py:516 | ends that cannot close the base group are skipped by the greedy search |
| FrameNames.ExampleZeroPaddedFrame | src/windows/models/files_model.py:523-527 | "img001.png" splits into base "img", zeros "00", numeral "1", extension "png" |
| ImageSequences.DetectSequence | src/windows/models/files_model.py:505-565 | a detection records at most its own directory, and never one already skipped. Details come only from an accepted prompt on a recognised name, and point at the file's directory |
| ImageSequences.DetectedDetails | src/windows/models/files_model.py:523-544 | accepted details carry the name's base and extension and the count of zeros plus digits. The width decision is the sibling heuristic, and another frame of the window exists |
| ImageSequences.DeclineStillIgnoresDirectory | src/windows/models/files_model.py:546-555 | declining the prompt still records the directory, and gives no details |
| ImageSequences.UnrecognisedNameIsNoSequence | src/windows/models/files_model.py:518-520 | a name the regex does not match is never a sequence, and records nothing |
| ImageSequences.HighFrameNumbersNeverDetected | src/windows/models/files_model.py:538 | frame numbers from 50100 up leave an empty scan window and are never detected |
| ImageSequences.OnePromptPerDirectory | src/windows/models/files_model.py:511-513 | once a detection records a directory, every later file of it is skipped |
| ImageSequences.NumberWrittenBack | src/windows/models/files_model.py:524-540 | the scan spells a frame number as the name spelled it: padded to the same width, or plain when there were no zeros |
| ImageSequences.OwnFramePath | src/windows/models/files_model.py:538-540 | the scan's path for the file's own number is the file's own path, which is why it is excluded |
| ImageSequences.FindNeighbourFrame | src/windows/models/files_model.py:537-544 | the loop finds a frame exactly when some other number of the window has an existing path |
| ImportBatch.MediaTypeOf | src/windows/models/files_model.py:408-417 | the media type is always audio, image or video |
| ImportBatch.MediaTypeCases | src/windows/models/files_model.py:408-417 | image exactly for video that is an image, audio exactly for audio without video, video otherwise |
| ImportBatch.FormatZeroPattern | src/windows/models/files_model.py:434-437 | the `%d` / `%0Nd` directive writes frame numbers as the detector spelled them |
| ImportBatch.PatternNamesFrames | src/windows/models/files_model.py:440-452 | the sequence path expanded for a frame is the path the detector checked for that frame |
| ImportBatch.Glob | src/windows/models/files_model.py:461-463 | the glob lists exactly the listed paths that match the removal pattern |
| ImportBatch.FramesMatchRemovalGlob | src/windows/models/files_model.py:461-463 | every frame the detector can find is caught by the removal glob |
| ImportBatch.RemoveFirst | src/windows/models/files_model.py:466 | `list.remove(x)` takes out one occurrence of x when there is one: the multiset of paths loses exactly one x |
| ImportBatch.RemoveFrames | src/windows/models/files_model.py:463-466 | the removal loop never lengthens the list and never removes the current file |
| ImportBatch.RemoveFramesDistinct | src/windows/models/files_model.py:463-466 | with no repeated path the removal takes out exactly the hits other than the current file, in any glob order |
| ImportBatch.DropHitDistinct | src/windows/models/files_model.py:465-466 | one turn of the removal loop on a list without repeats removes the hit unless it is the current file, and keeps the list free of repeats |
| ImportBatch.WithoutTwice | src/windows/models/files_model.py:463-466 | removing two hit lists one after the other is removing their concatenation |
| ImportBatch.RemoveFramesKeeps | src/windows/models/files_model.py:463-466 | a path that is not a hit keeps its number of occurrences |
| ImportBatch.Step | src/windows/models/files_model.py:389-495 | one turn advances the position by one, never lengthens the list, and adds at most one file to the project |
| ImportBatch.RunAppendsOnly | src/windows/models/files_model.py:389-495 | the loop only appends to the project's files, at most one per remaining position |
| ImportBatch.StepTypesEntry | src/windows/models/files_model.py:408-453 | every file a turn saves has a media type of audio, image or video |
| ImportBatch.RunTypesEntries | src/windows/models/files_model.py:389-495 | the whole loop keeps every saved file typed |
| ImportBatch.CataloguedPathSkipped | src/windows/models/files_model.py:392-398 | a path already in the project is skipped with nothing changed |
| ImportBatch.FailedProbeContinues | src/windows/models/files_model.py:489-495 | a file that fails to open is reported unless quiet, and the loop goes on |
| ImportBatch.PlainStepSaves | src/windows/models/files_model.py:419-487 | a file that is not a sequence appends exactly one entry at its own path, holding only its probed media type and the next id. The file list and the failures stay, the directory is remembered, and the import path becomes the file's directory |
| ImportBatch.SequenceStepSaves | src/windows/models/files_model.py:426-473 | an accepted sequence saves one video file at the pattern path, named after the folder exactly when there is no base name |
| ImportBatch.PatternProbeFails | src/windows/models/files_model.py:449-495 | when the sequence pattern fails to open, nothing is saved: the catalog, the file list and the import path stay, only the directory is remembered, and the file's name is reported unless the import is quiet |
| ImportBatch.SequenceEntryFields | src/windows/models/files_model.py:440-453 | the sequence entry's path is the pattern in the folder, its type is video, and it has a name exactly when the base is empty |
| ImportBatch.SequenceEntryExtension | src/windows/models/files_model.py:440-452 | the sequence path ends in the sequence's extension |
| ImportBatch.SequenceStepRemovesFrames | src/windows/models/files_model.py:460-466 | after a sequence import the current file stays in the list. With no repeated path, none of the other globbed frames does |
| ImportBatch.RunCountsNewFiles | src/windows/models/files_model.py:389-473 | with no sequences and every probe succeeding, the loop saves one file per listed path not yet in the project |
| ImportBatch.ExampleGlob | src/windows/models/files_model.py:461-463 | in "d" holding img001.png, img002.png and clip.mp4, the removal glob for "img" lists exactly the two frames |
| ImportBatch.ExampleRemoval | src/windows/models/files_model.py:463-466 | removing both frames while importing img002.png leaves img002.png and clip.mp4 |
| ImportBatch.EarlierFrameRemovalSkipsNextFile | src/windows/models/files_model.py:389-466 | with img001.png already imported, importing the sequence from img002.png removes img001.png, and clip.mp4 is never imported |
| ImportBatch.LaterFramesRemovalKeepsUnvisited | src/windows/models/files_model.py:463-466 | with removal confined to positions not yet visited, the visited part is unchanged. Every unvisited non-frame file is still ahead, and nothing new appears |
| ImportBatch.ExampleLaterRemoval | src/windows/models/files_model.py:463-466 | with that removal, clip.mp4 stays at the position the loop reads next |
| FilesManagers.ClearsOnlyOnReload | src/windows/models/files_model.py:349-365 | rows are reloaded only for a load or an unknown change of the files; inserts, deletes and updates keep them |
| FilesManagers.OtherKeysKeepRows | src/windows/models/files_model.py:352 | changes to anything but the files leave the table alone, unless they load a project |
| FilesManagers.RemoveSiblingFrames | src/windows/models/files_model.py:463-466 | the removal loop computes the removal function |
| FilesManagers.FilesManager.constructor | src/windows/models/files_model.py:633-666 | a new manager has a fresh table over the project's files, a proxy showing all types, and no skipped directories |
| FilesManagers.FilesManager.UpdateModel | src/windows/models/files_model.py:367-371 | only a clearing update reloads the table; the result is always True |
| FilesManagers.FilesManager.Changed | src/windows/models/files_model.py:349-365 | the table is reloaded exactly when the change's effect is a reload, and otherwise left as it was |
| FilesManagers.FilesManager.GetImageSequenceDetails | src/windows/models/files_model.py:505-565 | the skipped directories and the returned details are those of the detection |
| FilesManagers.FilesManager.CheckFrame | src/windows/models/files_model.py:529-565 | once a name is recognised, the directory is recorded and details are returned (if accepted) exactly when a neighbour frame exists |
| FilesManagers.FilesManager.DetectFor | src/windows/models/files_model.py:424 | the sequence details are the passed `image_seq_details` when given, else the detector's answer |
| FilesManagers.FilesManager.SaveFile | src/windows/models/files_model.py:472-487 | saving appends the file to the project and sets "import_path" to its directory when that differs |
| FilesManagers.FilesManager.ImportFile | src/windows/models/files_model.py:389-495 | one turn of the loop changes the list, the project, the skipped directories, the import path and the failures exactly as `Step` does |
| FilesManagers.FilesManager.ImportProbedFile | src/windows/models/files_model.py:419-487 | for a new file that opens, the turn is `Step` |
| FilesManagers.FilesManager.ImportSequence | src/windows/models/files_model.py:426-487 | for sequence details, the turn opens the pattern, removes the other frames and saves the pattern, as `Step` does |
| FilesManagers.FilesManager.AddFiles | src/windows/models/files_model.py:373-498 | the project's files, the import path and the failures after the loop are those of `Run`, and the skipped directories are reset |
| MimeExport.Dedup | src/windows/models/files_model.py:332 | `list(set(ids))` holds every id once and nothing else |
| MimeExport.SelectedIds | src/windows/models/files_model.py:327-330 | the ids read are exactly those of the rows of the valid indexes |
| MimeExport.MimeUris | src/windows/models/files_model.py:323-336 | the URIs are exactly `openshot://file/<id>` for the ids of the valid selected rows |
| MimeExport.UrisDistinct | src/windows/models/files_model.py:330-336 | when every selected row has an id, no URI appears twice |
| Thumbnails.ThumbUrlPieces | src/windows/models/files_model.py:298-309 | the thumbnail URL is its parts joined by '/' |
| Thumbnails.SplitUrl | src/windows/models/files_model.py:304-309 | splitting a routable request's URL at '/' gives back its parts |
| Thumbnails.SplitAddress | src/windows/models/files_model.py:304-306 | the "host:port" part splits back into host and port |
| Thumbnails.ParseThumbUrlRoundTrip | src/windows/models/files_model.py:292-309 | the URL determines the file id, frame, address and cache flag it was built from: `ParseThumbUrl`, the inverse of `ThumbUrl`, gives the request back, so distinct routable requests give distinct URLs |
| Thumbnails.ThumbPathOnlyFromOk | src/windows/models/files_model.py:310-315 | the thumbnail path is the reply text when the reply is OK, and '' otherwise |
| Info.WebsiteLanguageCases | openshot_qt/classes/info.py:76-85 | zh_CN gives "zh-hans/", zh_TW "zh-hant/", en_US "", any other code its lower-cased text before the first '_' and '/' |
| Info.WebsiteLanguageShape | openshot_qt/classes/info.py:76-85 | only en_US has the empty prefix; every other prefix ends in '/' and holds no '_' |
| Info.RegionDoesNotMatter | openshot_qt/classes/info.py:85 | codes that agree before their first '_' share a prefix, apart from the three special codes |
| Info.LanguageField | openshot_qt/classes/info.py:73 | `split('.')[1]` exists for every listed name and holds no '.' |
| Info.BuildSupportedLanguages | openshot_qt/classes/info.py:58-73 | the list is 'en_US' followed by one field per listed name, in listing order |
| Info.AsWrittenFieldIsExtension | openshot_qt/classes/info.py:73 | for `OpenShot_<code>.qm` with no '.' in the code, the field taken is "qm" |
| Info.AsWrittenListRepeatsExtension | openshot_qt/classes/info.py:58-73 | such a directory gives 'en_US' followed by "qm" once per file, and no language code |
| Info.LanguageCode | openshot_qt/classes/info.py:70 | the code of a translation file rebuilds its name between "OpenShot_" and ".qm" |
| Info.IntendedLanguagesRoundTrip | openshot_qt/classes/info.py:58-73 | the intended list is 'en_US' followed by each file's code, in order. Each code rebuilds its file's name, and distinct files give distinct codes |
| Info.LanguageCodeOfName | openshot_qt/classes/info.py:70 | the code read from `OpenShot_<code>.qm` is the code |

## Left out

- **Qt signals and views.** `beginResetModel`, `beginInsertRows`/`endInsertRows`, `dataChanged.emit` (only its region is modelled), `invalidateFilter`, `roleNames`, `columnCount` (the constant 6), and the model testers. These are notifications to views, outside the data model.
- **Icons and MIME image data.** `QIcon` is modelled as the thumbnail path it wraps. The drag icon of `mimeData` is not modelled.
- **Status bar, logging, `processEvents` and translation.** Messages are not modelled, including the "Imported %(count)d files" count that uses `len(files) - 1`. Header labels are the untranslated strings.
- **Probe metadata.** The media probe reports only has_video, has_audio and is_image. The JSON reader data, `duration` and `video_length` of a sequence are not modelled.
- **Thumbnail frame.** The frame offset from "start" and "fps" in `lookup_thumb` is floating-point arithmetic. It is taken as a precomputed `startFrame`.
- **HTTP.** `get` is the `fetch` parameter. Connection errors, which the code does not catch, are not modelled. The server address is a `Server` value.
- **Project updates.** The update manager and `File.save()` are modelled as direct changes to the shared "files" list. `update_model`'s `delete_file_id` is ignored, as in the code.
- **Text case.** Case folding (`lower()`, `re.I`, Qt's case-insensitive filter) and `\d` are modelled for ASCII only.
- **Globs.** They are modelled for the two pattern shapes the code builds. Glob magic characters inside base names are taken literally, and hidden-file rules are not modelled.
- **Input shape.** `add_files` takes a list of paths. Its wrapping of a single path into a list is not modelled.
- **Unmodelled FilesManager helpers.** `process_urls`, `update_file_thumbnail` (empty), `selected_file_ids`, `selected_files`, `current_file_id` and `current_file` are selection and drop helpers outside the import and table logic.
- **Translation directory listing.** The `OpenShot_*.qm` filter and name sort of `entryList` are taken as given: the entry list is a parameter whose names already match. `Info.QmName` matches the prefix and suffix case-sensitively here, while Qt, called without `QDir.CaseSensitive`, ignores case, so names such as `openshot_de.QM` that Qt could list are not covered.
- MimeExport.MimeUris: states which URIs appear and that none repeats, but not their order, because `list(set(ids))` has no specified order in Python.
- Thumbnails.ParseThumbUrlRoundTrip: proved only for routable requests. These are hosts without '/' or ':' and file ids without '/'. For other requests the separators inside a part make the URL ambiguous. The thumbnail server's own URL parser is not part of this model.

## Findings

| source | as written | input that shows it | evidently intended | confidence | as-written member | corrected member |
|---|---|---|---|---|---|---|
| openshot_qt/classes/info.py:73 | `trpath.split('.')[1]` takes the text after the first '.', which for `OpenShot_<code>.qm` is the extension | a directory with `OpenShot_de.qm` and `OpenShot_fr.qm` gives `['en_US', 'qm', 'qm']` | the language code between `OpenShot_` and `.qm`, giving `['en_US', 'de', 'fr']` | medium, not executed | Info.AsWrittenListRepeatsExtension | Info.IntendedLanguagesRoundTrip |
| src/windows/models/files_model.py:463-466 | frames are removed from the list being iterated, including frames before the current position. The list shifts left and the iterator skips the next unvisited file | files `d/img001.png`, `d/img002.png`, `d/clip.mp4` with `d/img001.png` already in the project and sequence details given: `d/clip.mp4` is never imported | every listed file that is not a frame of the sequence is still visited | medium, not executed | ImportBatch.EarlierFrameRemovalSkipsNextFile | ImportBatch.LaterFramesRemovalKeepsUnvisited |
