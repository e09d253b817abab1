/** The Create Image Batch node (`CreateImageBatch.create_batch`).

    The image library is not modelled: `paint(c)` stands for a solid
    width-by-height RGB image of hex colour `c`, and `load(name)` for resolving,
    opening, converting and fitting the named file to width by height, with
    None when any of that raises. */
module CreateBatch {
  import opened Wrappers
  import opened Batches
  import opened ItemSpecs
  import opened Reconcile

  /** The spec list after reconciliation with the requested batch size. */
  function Effective(data: seq<ItemSpec>, batchSize: nat): (r: seq<ItemSpec>)
    ensures |r| == batchSize
    ensures |data| == batchSize ==> r == data
    ensures forall k :: 0 <= k < batchSize && k < |data| ==> r[k] == data[k]
    ensures forall k :: |data| <= k < batchSize ==> r[k] == DefaultItem
  {
    Fit(data, batchSize, DefaultItem)
  }

  /** The image one spec turns into: its colour (black when none is given), a
      magenta placeholder for a file entry without a name, the loaded file, or
      a red placeholder when loading fails; black for any other type. */
  function Resolve<Img>(spec: ItemSpec, paint: string -> Img, load: string -> Option<Img>): (r: Img)
    ensures || r == paint(Black) || r == paint(Magenta) || r == paint(Red)
            || (spec.ColorItem? && spec.value.Some? && r == paint(spec.value.value))
            || (spec.FileItem? && !NameMissing(spec.name) && load(spec.name.value) == Some(r))
  {
    match spec
    case ColorItem(v) => paint(if v.Some? then v.value else Black)
    case FileItem(name) =>
      if NameMissing(name) then paint(Magenta)
      else
        (match load(name.value)
         case Some(img) => img
         case None => paint(Red))
    case OtherItem => paint(Black)
  }

  /** The whole node: None for `parsed` is a spec string that failed to parse. */
  function Create<Img>(width: nat, height: nat, batchSize: nat, parsed: Option<seq<ItemSpec>>,
                       paint: string -> Img, load: string -> Option<Img>): (r: Batch<Img>)
    ensures r.dims == Dims(height, width, 3)
    ensures parsed.None? ==> r.items == []
    ensures parsed.Some? ==> |r.items| == batchSize
    ensures parsed.Some? ==> forall i :: 0 <= i < batchSize && i < |parsed.value| ==>
              r.items[i] == Resolve(parsed.value[i], paint, load)
    ensures parsed.Some? ==> forall i :: |parsed.value| <= i < batchSize ==>
              r.items[i] == paint(Black)
  {
    match parsed
    case None => Batch(Dims(height, width, 3), [])
    case Some(data) =>
      var specs := Effective(data, batchSize);
      var images := seq(|specs|, i requires 0 <= i < |specs| => Resolve(specs[i], paint, load));
      Batch(Dims(height, width, 3), images)
  }

  /** The five outcomes of the per-item dispatch. */
  lemma ResolveCases<Img>(spec: ItemSpec, paint: string -> Img, load: string -> Option<Img>)
    ensures spec.ColorItem? && spec.value.Some? ==> Resolve(spec, paint, load) == paint(spec.value.value)
    ensures spec == ColorItem(None) || spec == OtherItem ==> Resolve(spec, paint, load) == paint(Black)
    ensures spec.FileItem? && NameMissing(spec.name) ==> Resolve(spec, paint, load) == paint(Magenta)
    ensures spec.FileItem? && !NameMissing(spec.name) && load(spec.name.value).None? ==>
              Resolve(spec, paint, load) == paint(Red)
    ensures spec.FileItem? && !NameMissing(spec.name) && load(spec.name.value).Some? ==>
              Resolve(spec, paint, load) == load(spec.name.value).value
  {
  }

  /** The loader is consulted only for a file entry with a name, and only for that name. */
  lemma ResolveLoadsOnlyNamedFile<Img>(spec: ItemSpec, paint: string -> Img,
                                       load1: string -> Option<Img>, load2: string -> Option<Img>)
    requires !spec.FileItem? || NameMissing(spec.name) || load1(spec.name.value) == load2(spec.name.value)
    ensures Resolve(spec, paint, load1) == Resolve(spec, paint, load2)
  {
  }

  /** A failing file does not abort the batch: two loaders that differ only on
      `bad` produce the same batch except at entries naming `bad`, and the batch
      keeps its length. */
  lemma LoadFailureIsLocal<Img>(width: nat, height: nat, batchSize: nat, data: seq<ItemSpec>,
                                paint: string -> Img, load1: string -> Option<Img>,
                                load2: string -> Option<Img>, bad: string)
    requires forall name :: name != bad ==> load1(name) == load2(name)
    ensures var r1 := Create(width, height, batchSize, Some(data), paint, load1);
            var r2 := Create(width, height, batchSize, Some(data), paint, load2);
            && |r1.items| == |r2.items| == batchSize
            && forall i :: 0 <= i < batchSize && (i >= |data| || data[i] != FileItem(Some(bad))) ==>
                 r1.items[i] == r2.items[i]
  {
  }

  /** The empty-batch fallback after the loop is reached only for an empty
      effective list, so with a batch size of at least one a parsed document
      always yields a non-empty batch. */
  lemma EmptyOnlyWithoutSpecs<Img>(width: nat, height: nat, batchSize: nat, parsed: Option<seq<ItemSpec>>,
                                   paint: string -> Img, load: string -> Option<Img>)
    ensures Create(width, height, batchSize, parsed, paint, load).items == [] <==>
            parsed.None? || batchSize == 0
  {
  }
}
