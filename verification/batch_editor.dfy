/** The list state of the Create Image Batch editor in the browser
    (`ImageBatchEditor`): the entries, the selected cell, the first-load flag and
    the hidden `image_data` widget the entries are written back to.

    An entry is None where the JavaScript array has a hole (`undefined`), which
    writing past the end of the array leaves behind. */
module BatchEditor {
  import opened Wrappers
  import opened ItemSpecs
  import opened Reconcile

  type Entry = Option<ItemSpec>

  /** `selectedIndex`: -1 for no selection, otherwise a grid cell index. */
  datatype Selection = NoSelection | Selected(index: nat)

  /** What `JSON.parse` makes of the widget's string. */
  datatype Stored = Unparseable | NotAnArray | ArrayValue(entries: seq<Entry>)

  datatype Editor = Editor(imageData: seq<Entry>, selection: Selection, initialized: bool, widget: Stored)

  /** Outcome of `api.uploadImage`: a response with its `name` field (None when
      absent), or a thrown error. */
  datatype Upload = Response(name: Option<string>) | UploadFailed

  /** The padding entry. */
  const Pad: Entry := Some(DefaultItem)

  /** The editor as its constructor leaves it, given the stored widget value. */
  function Fresh(widget: Stored): (r: Editor)
    ensures r.selection == NoSelection && !r.initialized
    ensures Source(r) == if widget.ArrayValue? then widget.entries else []
  {
    Editor([], NoSelection, false, widget)
  }

  /** The list `updateAndRedraw` reconciles: the stored array on the first call
      when it parses to an array, the current list otherwise. */
  function Source(e: Editor): (r: seq<Entry>)
    ensures e.initialized || !e.widget.ArrayValue? ==> r == e.imageData
    ensures !e.initialized && e.widget.ArrayValue? ==> r == e.widget.entries
  {
    if !e.initialized && e.widget.ArrayValue? then e.widget.entries else e.imageData
  }

  /** `arr[i] = x`: replaces entry i, or extends the array to i + 1 entries with
      holes between the old end and i. */
  function Store(xs: seq<Entry>, i: nat, x: ItemSpec): (r: seq<Entry>)
    ensures |r| == if i < |xs| then |xs| else i + 1
    ensures r[i] == Some(x)
    ensures forall k :: 0 <= k < |xs| && k != i ==> r[k] == xs[k]
    ensures forall k :: |xs| <= k < i ==> r[k] == None
  {
    if i < |xs| then xs[i := Some(x)] else xs + seq(i - |xs|, _ => None) + [Some(x)]
  }

  /** The state part of `updateAndRedraw`: load the stored value once, bring the
      list to `batchSize` entries, write it back to the widget. Drawing is not modelled. */
  function Update(e: Editor, batchSize: nat): (r: Editor)
    ensures |r.imageData| == batchSize
    ensures r.initialized && r.selection == e.selection
    ensures r.widget == ArrayValue(r.imageData)
    ensures forall k :: 0 <= k < batchSize && k < |Source(e)| ==> r.imageData[k] == Source(e)[k]
    ensures forall k :: |Source(e)| <= k < batchSize ==> r.imageData[k] == Pad
  {
    var data := Fit(Source(e), batchSize, Pad);
    Editor(data, e.selection, true, ArrayValue(data))
  }

  /** `selectImage`: remember the cell, then update. */
  function SelectImage(e: Editor, index: nat, batchSize: nat): (r: Editor)
    ensures r.selection == Selected(index)
    ensures r.imageData == Update(e, batchSize).imageData
  {
    Update(e.(selection := Selected(index)), batchSize)
  }

  /** `setColor`: without a selection nothing happens (not even an update);
      otherwise the selected entry becomes a colour entry and the editor updates. */
  function SetColor(e: Editor, colour: string, batchSize: nat): (r: Editor)
    ensures r.selection == e.selection
    ensures e.selection.NoSelection? ==> r == e
    ensures e.selection.Selected? ==> Synced(r, batchSize)
    ensures e.selection.Selected? && e.initialized && e.selection.index < batchSize ==>
              r.imageData[e.selection.index] == Some(ColorItem(Some(colour)))
    ensures e.selection.Selected? && e.initialized ==>
              forall k :: 0 <= k < batchSize && k < |e.imageData| && k != e.selection.index ==>
                r.imageData[k] == e.imageData[k]
  {
    match e.selection
    case NoSelection => e
    case Selected(i) => Update(e.(imageData := Store(e.imageData, i, ColorItem(Some(colour)))), batchSize)
  }

  /** `uploadFile`: a no-op without a selection or a file; a response with a
      non-empty name turns the selected entry into a file entry; an empty name
      or a failed upload changes nothing. */
  function UploadFile(e: Editor, hasFile: bool, upload: Upload, batchSize: nat): (r: Editor)
    ensures r.selection == e.selection
    ensures e.selection.NoSelection? || !hasFile || upload.UploadFailed? ==> r == e
    ensures upload.Response? && NameMissing(upload.name) ==> r == e
    ensures e.selection.Selected? && hasFile && upload.Response? && !NameMissing(upload.name) ==>
              Synced(r, batchSize)
    ensures e.selection.Selected? && hasFile && upload.Response? && !NameMissing(upload.name)
            && e.initialized && e.selection.index < batchSize ==>
              r.imageData[e.selection.index] == Some(FileItem(upload.name))
    ensures e.selection.Selected? && hasFile && upload.Response? && e.initialized ==>
              forall k :: 0 <= k < batchSize && k < |e.imageData| && k != e.selection.index ==>
                r.imageData[k] == e.imageData[k]
  {
    if e.selection.NoSelection? || !hasFile then e
    else
      match upload
      case UploadFailed => e
      case Response(name) =>
        if NameMissing(name) then e
        else Update(e.(imageData := Store(e.imageData, e.selection.index, FileItem(name))), batchSize)
  }

  /** The state every update leaves: loaded, of the requested length, written back. */
  predicate Synced(e: Editor, batchSize: nat) {
    e.initialized && |e.imageData| == batchSize && e.widget == ArrayValue(e.imageData)
  }

  /** The stored value is read on the first update only; later updates start
      from the current list. A stored value that does not parse to an array
      leaves the list as it was. */
  lemma UpdateReadsWidgetOnce(e: Editor, batchSize: nat)
    ensures e.initialized ==> Update(e, batchSize).imageData == Fit(e.imageData, batchSize, Pad)
    ensures !e.initialized && e.widget.ArrayValue? ==>
              Update(e, batchSize).imageData == Fit(e.widget.entries, batchSize, Pad)
    ensures !e.widget.ArrayValue? ==> Update(e, batchSize).imageData == Fit(e.imageData, batchSize, Pad)
  {
  }

  /** A second update with the same batch size changes nothing. */
  lemma UpdateIdempotent(e: Editor, batchSize: nat)
    ensures Update(Update(e, batchSize), batchSize) == Update(e, batchSize)
  {
  }

  /** An editor that is already in sync is a fixed point of update. */
  lemma SyncedIsFixed(e: Editor, batchSize: nat)
    requires Synced(e, batchSize)
    ensures Update(e, batchSize) == e
  {
  }

  /** Every operation leaves a synced editor in sync with the same batch size. */
  lemma OperationsKeepSync(e: Editor, batchSize: nat, index: nat, colour: string, hasFile: bool, upload: Upload)
    requires Synced(e, batchSize)
    ensures Synced(SelectImage(e, index, batchSize), batchSize)
    ensures Synced(SetColor(e, colour, batchSize), batchSize)
    ensures Synced(UploadFile(e, hasFile, upload, batchSize), batchSize)
  {
  }

  /** Selecting a cell of a synced editor changes the selection only. */
  lemma SelectImageKeepsEntries(e: Editor, index: nat, batchSize: nat)
    requires Synced(e, batchSize)
    ensures SelectImage(e, index, batchSize) == e.(selection := Selected(index))
  {
  }

  /** Set Color on a synced editor replaces exactly the selected entry when the
      selection is inside the list, and changes nothing without a selection. */
  lemma SetColorReplacesSelected(e: Editor, colour: string, batchSize: nat)
    requires Synced(e, batchSize)
    ensures e.selection.NoSelection? ==> SetColor(e, colour, batchSize) == e
    ensures e.selection.Selected? && e.selection.index < batchSize ==>
              SetColor(e, colour, batchSize).imageData
                == e.imageData[e.selection.index := Some(ColorItem(Some(colour)))]
  {
  }

  /** A selection left past the end of the list by an earlier shrink makes Set
      Color write past the end; the update then cuts the write away again. */
  lemma SetColorStaleSelection(e: Editor, colour: string, batchSize: nat)
    requires Synced(e, batchSize)
    requires e.selection.Selected? && e.selection.index >= batchSize
    ensures SetColor(e, colour, batchSize) == e
  {
  }

  /** Upload on a synced editor: with a selection inside the list, a file and a
      named response, only the selected entry changes, to a file entry of that
      name; in every other case nothing changes. */
  lemma UploadReplacesSelected(e: Editor, hasFile: bool, upload: Upload, batchSize: nat)
    requires Synced(e, batchSize)
    ensures var r := UploadFile(e, hasFile, upload, batchSize);
            if e.selection.Selected? && hasFile && upload.Response? && !NameMissing(upload.name) then
              e.selection.index < batchSize ==>
                r.imageData == e.imageData[e.selection.index := Some(FileItem(upload.name))]
            else
              r == e
  {
  }

  /** A named upload with a selection past the end of a synced list is written
      past the end and then cut away again: the list stays as it was. */
  lemma UploadStaleSelection(e: Editor, name: string, batchSize: nat)
    requires Synced(e, batchSize) && name != ""
    requires e.selection.Selected? && e.selection.index >= batchSize
    ensures UploadFile(e, true, Response(Some(name)), batchSize) == e
  {
  }

  /** Shrinking the batch does not reset the selection: after selecting cell
      `index` of a synced list of `m` entries and updating to `n <= index`
      entries, the selection points past the end of the list. */
  lemma ShrinkLeavesStaleSelection(e: Editor, m: nat, index: nat, n: nat)
    requires Synced(e, m) && index < m && n <= index
    ensures var s := Update(SelectImage(e, index, m), n);
            s.selection == Selected(index) && s.selection.index >= |s.imageData|
  {
  }

  /** The first update of a new editor starts from the stored array, or from an
      empty list (all black after padding) when the stored value is not an array. */
  lemma FreshFirstUpdate(widget: Stored, batchSize: nat)
    ensures Update(Fresh(widget), batchSize).imageData
            == Fit(if widget.ArrayValue? then widget.entries else [], batchSize, Pad)
    ensures !widget.ArrayValue? ==> forall k :: 0 <= k < batchSize ==> Update(Fresh(widget), batchSize).imageData[k] == Pad
  {
  }
}
