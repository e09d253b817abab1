/** The per-item specs stored in the Create Image Batch node's `image_data` string. */
module ItemSpecs {
  import opened Wrappers

  const Black: string := "#000000"
  const Magenta: string := "#FF00FF"
  const Red: string := "#FF0000"

  /** One entry of the spec list, dispatched on its `type` key. */
  datatype ItemSpec =
    | ColorItem(value: Option<string>)  // `{"type": "color"}`; None when "value" is absent
    | FileItem(name: Option<string>)    // `{"type": "file"}`; None when "value" is absent or falsy (null, "", 0, false, [], {})
    | OtherItem                         // any other `type`, or none

  /** The entry both the node and the editor pad with. */
  const DefaultItem: ItemSpec := ColorItem(Some(Black))

  /** A file entry whose name Python would treat as false: absent or empty. */
  predicate NameMissing(name: Option<string>) {
    name.None? || name.value == ""
  }
}
