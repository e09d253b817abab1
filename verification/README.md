# Image batch utility nodes — Dafny model

A model of four pieces of batch logic from a set of plugin nodes for a node-graph
image-generation host:

- **Trim Image Batch** (`ImageBatchTrim.trim`): clamps a start/end pair to the
  batch and returns the contiguous slice, or a zero-length batch of the same
  per-item shape (`trim.dfy`, module `BatchTrim`).
- **Select Image Batch by Mask** (`ImageBatchSelectByMask.select`): over the
  common prefix of batches A, B and a mask batch, reduces each mask to its mean
  luminance and picks A's item below the threshold, B's otherwise
  (`select_by_mask.dfy`, module `SelectByMask`).
- **Create Image Batch** (`CreateImageBatch.create_batch`): parses a list of
  item specs, pads or truncates it to the batch size with a black colour
  entry, and turns each entry into an image by a total dispatch on its type
  (`create_batch.dfy`, module `CreateBatch`; specs in `item_specs.dfy`).
- **The batch editor's list state** (`ImageBatchEditor` in the browser
  extension): the entry list, the selected cell, the one-time load of the
  stored widget value, and the updates by `updateAndRedraw`, `selectImage`,
  `setColor` and `uploadFile` (`batch_editor.dfy`, module `BatchEditor`).

Pad-or-truncate is one concept shared by the node and the editor:
`Reconcile.Fit` in `reconcile.dfy`. The editor's push loop,
`Reconcile.PadOrTruncate`, is proved to compute the same list. A batch
(`batches.dfy`) is a sequence of items beside the per-item shape
(`Dims`), so that an empty batch keeps its shape. Images are opaque (a type
parameter) except masks. A mask is a grid of pixels with exact `real` channel
values.

External collaborators become parameters:
- JSON parsing in the node is an `Option<seq<ItemSpec>>`, with None for a parse error.
- The editor's stored widget value is a `Stored` value: unparseable, not an array, or an array.
- Painting a solid colour is a function `paint: string -> Img`.
- Resolving, opening and fitting a file is a function `load: string -> Option<Img>`, with None when loading raises.
- The upload call is an `Upload` value: a response with an optional `name`, or a failure.

The model follows the code where it departs from the behaviour its comments and messages suggest:
- An A/B shape mismatch is announced as a warning only. In the code the final
  `torch.cat` raises when items of both shapes were picked
  (select_by_mask_node.py:51-53, 74). `SelectByMask.Select` returns
  `Err(ShapeMismatch)` in exactly that case.
- An all-white mask selects B for thresholds below one, and because of the
  code's strict `<` (select_by_mask_node.py:67) also selects B at a threshold
  of exactly one. `WhiteMaskPicksB` states the `<= 1` form.
- The creator's output has `batch_size` items only when the spec string
  parses. On a parse error the code returns an empty batch (create_batch_node.py:32-36), and
  `Create` says so.
- A mask without pixels has a NaN mean in the tensor library. NaN compares
  false, so that item comes from B. `MeanLuma` is None there.

## Model

| member | source | states |
|---|---|---|
| BatchTrim.Trim | trim_batch_node.py:32-44 | for every index pair, with no error: shape kept, length `max(0, min(L,end) - max(0,start))`, item k is input item `max(0,start)+k`, and every input item with index in [start, end) is kept at that offset |
| BatchTrim.TrimEmptyIff | trim_batch_node.py:33-40 | the result is empty exactly when the clamped start is not below the clamped end |
| BatchTrim.TrimWhole | trim_batch_node.py:33-42 | start <= 0 and end >= L return the batch unchanged |
| BatchTrim.TrimTrim | trim_batch_node.py:33-42 | trimming twice is one trim with offsets added and ends intersected |
| BatchTrim.TrimTenToFour | trim_batch_node.py:42 | ten items trimmed to [3, 7) are items 3..6, four of them |
| SelectByMask.Select | select_by_mask_node.py:34-78 | an empty common prefix gives an empty batch of A's shape. Otherwise the output has `min(|A|,|B|,|M|)` items, and item i is A[i] exactly when mask i's mean luminance is below the threshold, else B[i]. The output has the shape of the side picked first. Mismatched lengths never fail; the result is an error exactly when A and B differ in shape and both sides were picked |
| SelectByMask.MeanLuma | select_by_mask_node.py:60-65 | the spatial mean is undefined (NaN) exactly when the mask has no pixels |
| SelectByMask.PicksA | select_by_mask_node.py:65-70 | A is picked only for a mask with pixels, since a NaN mean compares false |
| SelectByMask.LumaInUnit | select_by_mask_node.py:60-63 | for a pixel with values in [0, 1], both the weighted RGB luminance and the channel-0 fallback lie in [0, 1] |
| SelectByMask.RowSumBounds | select_by_mask_node.py:60-65 | a row of pixels in [0, 1] has a luminance sum between 0 and its pixel count |
| SelectByMask.GridSumBounds | select_by_mask_node.py:60-65 | a mask in [0, 1] has a luminance sum between 0 and its pixel count |
| SelectByMask.MeanInUnit | select_by_mask_node.py:60-65 | a mask with pixels and values in [0, 1] has a mean luminance in [0, 1] |
| SelectByMask.UnitMaskThresholds | select_by_mask_node.py:60-70 | for masks in [0, 1], a zero threshold never selects A, and a threshold above one always selects A when the mask has pixels |
| SelectByMask.LumaOfUniformPixel | select_by_mask_node.py:60-63 | the 0.299/0.587/0.114 weighting and the channel-0 fallback both give `x` for a pixel whose channels all hold `x` |
| SelectByMask.RowSumUniform | select_by_mask_node.py:60-65 | the luminance sum of a row of uniform pixels is `x` once per pixel |
| SelectByMask.GridSumUniform | select_by_mask_node.py:60-65 | the luminance sum of a uniform H x W mask is `x` added W times per row, H rows |
| SelectByMask.MeanOfUniform | select_by_mask_node.py:60-65 | a non-empty mask whose every value is `x` has mean luminance exactly `x` |
| SelectByMask.BlackMaskPicksA | select_by_mask_node.py:60-70 | an all-zero non-empty mask with threshold > 0 selects A |
| SelectByMask.WhiteMaskPicksB | select_by_mask_node.py:60-70 | an all-one mask with threshold <= 1 selects B |
| SelectByMask.EmptyMaskPicksB | select_by_mask_node.py:65-70 | a mask with no pixels selects B at every threshold |
| SelectByMask.ThresholdMonotone | select_by_mask_node.py:67 | raising the threshold never turns an A-selection into a B-selection |
| Reconcile.Fit | create_batch_node.py:40-44 | the result has exactly n entries, keeps the first `min(len, n)` entries, and every appended entry is the pad |
| Reconcile.FitIdempotent | create_batch_node.py:40-44 | the list is untouched exactly when it already has n entries, so fitting twice is fitting once |
| Reconcile.FitFit | js/create_batch_node.js:98-104 | fitting to m and then to n equals fitting to n whenever the first step cut nothing the second keeps |
| Reconcile.PadOrTruncate | js/create_batch_node.js:98-104 | the truncate-or-push loop yields n entries, the same list as the node's pad-then-slice |
| CreateBatch.Effective | create_batch_node.py:40-44 | the effective spec list has batch_size entries, equals the parsed list when lengths match, keeps its prefix and pads with `{color, "#000000"}` |
| CreateBatch.Create | create_batch_node.py:31-78 | shape (height, width, 3); a parse error gives an empty batch; otherwise batch_size items, item i resolved from parsed spec i, padded items black |
| CreateBatch.Resolve | create_batch_node.py:46-65 | every item image is black, magenta, red, the entry's own colour, or the image loaded for a file entry's non-empty name |
| CreateBatch.ResolveCases | create_batch_node.py:46-65 | colour entry gives its colour, or black without one; file entry without a name gives magenta; a failed load gives red; a successful load gives the loaded image; any other type gives black |
| CreateBatch.ResolveLoadsOnlyNamedFile | create_batch_node.py:46-65 | loading is attempted only for a file entry with a non-empty name, and only for that name |
| CreateBatch.LoadFailureIsLocal | create_batch_node.py:46-75 | two loaders differing on one file name give batches of the same length that agree at every entry not naming that file |
| CreateBatch.EmptyOnlyWithoutSpecs | create_batch_node.py:71-73 | the result is empty exactly on a parse error or batch_size 0, so the fallback is unreachable for batch_size >= 1 |
| BatchEditor.Store | js/create_batch_node.js:171 | writing entry i replaces it, or extends the array to i+1 entries with holes; every other entry is kept |
| BatchEditor.Fresh | js/create_batch_node.js:15-19 | a new editor has no selection, is not yet loaded, and its first update starts from the stored array, or from an empty list when the stored value is not an array |
| BatchEditor.Source | js/create_batch_node.js:85-95 | the list to reconcile is the current one once loaded or when the stored value is not an array, and the stored array before the first load when it is one |
| BatchEditor.FreshFirstUpdate | js/create_batch_node.js:15-19 | the first update of a new editor fits the stored array to the batch size, or gives an all-black list when the stored value is not an array |
| BatchEditor.Update | js/create_batch_node.js:84-106 | afterwards the list has batchSize entries, keeps its source's prefix, pads with the black colour entry, and is written back to the widget; the selection is unchanged |
| BatchEditor.UpdateReadsWidgetOnce | js/create_batch_node.js:85-95 | the stored value is used only before the first update; a value that is not an array leaves the list as it was |
| BatchEditor.UpdateIdempotent | js/create_batch_node.js:84-106 | a second update with the same batch size changes nothing |
| BatchEditor.SyncedIsFixed | js/create_batch_node.js:96-106 | an editor already loaded, of the right length and written back is a fixed point of update |
| BatchEditor.SelectImage | js/create_batch_node.js:164-167 | the selection becomes the clicked index and the list is only reconciled |
| BatchEditor.SelectImageKeepsEntries | js/create_batch_node.js:164-167 | on a synced editor selecting changes the selection only |
| BatchEditor.SetColor | js/create_batch_node.js:169-173 | no selection changes nothing. With a selection the editor ends synced. Once loaded, the selected entry (when inside the list) becomes a colour entry and every other entry is kept |
| BatchEditor.SetColorReplacesSelected | js/create_batch_node.js:169-173 | on a synced editor the list becomes the old list with only the selected entry replaced |
| BatchEditor.UploadStaleSelection | js/create_batch_node.js:175-188 | a named upload with a selection past the end of a synced list is cut away again by the truncation and leaves the editor unchanged |
| BatchEditor.SetColorStaleSelection | js/create_batch_node.js:98-99 | with a selection past the end of a synced list, Set Color's write is cut away again and nothing changes |
| BatchEditor.UploadFile | js/create_batch_node.js:175-190 | no selection, no file, a failed upload or a response without a name change nothing. Once loaded, a named response makes the selected entry a file entry of that name and keeps every other entry |
| BatchEditor.UploadReplacesSelected | js/create_batch_node.js:175-190 | on a synced editor a named upload replaces only the selected entry; every other case leaves the editor as it was |
| BatchEditor.OperationsKeepSync | js/create_batch_node.js:164-188 | select, set colour and upload all leave a synced editor synced with the same batch size |
| BatchEditor.ShrinkLeavesStaleSelection | js/create_batch_node.js:96-104 | for every synced editor, selecting cell i and then shrinking to at most i entries keeps the selection, which then points past the end of the list |

## Left out

- Logging: the warnings printed by the three nodes and the editor's `console.error`/`alert` are side effects only.
- Drawing: the grid, the canvas previews, the editor panel, the styles and the widget callbacks (js/create_batch_node.js:27-82, 108-162, 193-245) are presentation. The same goes for `drawEditor`. While the selection is at or past the end of the list (`ShrinkLeavesStaleSelection`), its read of `currentData.type` (js/create_batch_node.js:155-156) throws a TypeError in each `updateAndRedraw`. This stops once the batch grows past the selected index. The throw comes after the list and the widget have been updated, so the modelled state is unaffected. In `uploadFile` the throw happens exactly when the selection is past the end. By then the truncation (js/create_batch_node.js:98-99) has already cut away the entry written at js/create_batch_node.js:183, so the list is unchanged (`UploadStaleSelection`). The catch at js/create_batch_node.js:186-188 then reports "File upload failed" although the server upload succeeded.
- Pixel content of created images: colour parsing, PIL image creation, decoding, `ImageOps.fit` with LANCZOS, and the `/255.0` float32 conversion are library calls. They are the `paint` and `load` parameters.
- CreateBatch.Create: in the source `folder_paths.get_annotated_filepath` sits outside the `try` (create_batch_node.py:56), so a resolution error would abort the node. The model folds resolution into `load` and treats any failure as a failed load.
- CreateBatch.Create: an invalid colour string makes PIL raise, which aborts the node. `paint` is total here.
- CreateBatch.Create: a document that parses to something other than a list of objects aborts the node. `len` raises for a number, a boolean or null (create_batch_node.py:40). The padding concatenation raises for an object or a string whose length differs from batch_size (create_batch_node.py:44). `.get` raises in every other case (create_batch_node.py:47). The parse result is a list of specs or nothing.
- CreateBatch.Resolve: a file entry whose `value` is truthy but not a string (a number, `true`, a non-empty list) passes the missing-name test and goes on to path resolution and loading (create_batch_node.py:53-60). The model's file names are strings, so it does not represent such a value.
- ItemSpecs.ItemSpec: a colour entry whose `value` is present but null is not distinguished from an absent one.
- ItemSpecs.ItemSpec: a colour entry whose `value` is not a string (a number, a list) is passed straight to `Image.new` (create_batch_node.py:48-49), which either uses it as a colour or raises. `ColorItem` holds only strings, so the model does not represent such a value.
- SelectByMask.Select: when the common prefix is non-empty, a mask with zero channels makes channel indexing raise, so `Select` requires well-shaped masks only in that case. With an empty prefix the source returns before any indexing, and the model accepts any masks.
- SelectByMask.Select: the threshold's default of 0.5 (select_by_mask_node.py:34) is not modelled. Callers always pass the threshold.
- Float32 arithmetic: luminance and its mean are exact reals, so the white-mask property is stated for reals.
- Device and dtype handling of the tensors is not modelled.
- Concurrency: `uploadFile` awaits the upload. The model applies the response to the editor state current when it arrives, and does not model interleavings.
- Input schemas and host registration (`INPUT_TYPES`, `__init__.py`): the model accepts every value, including the batch size 0 and thresholds outside [0, 1] that the schemas rule out. Only the mask lemmas that need it bound the threshold (`BlackMaskPicksA`, `WhiteMaskPicksB`).
