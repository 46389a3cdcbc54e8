/** The tag-list editing of frontend/src/composables/useDreamForm.ts. */
module DreamForm {
  import opened Options
  import opened Seqs
  import opened Text

  /** `qualityInput` and the reactive `dreamForm`; `quality_names` is optional in the type. */
  datatype Form = Form(qualityInput: string, description: string, qualityNames: Option<seq<string>>)

  /** `dreamForm.quality_names ?? []`, as the code reads it. */
  function Names(f: Form): seq<string> {
    if f.qualityNames.Some? then f.qualityNames.value else []
  }

  /** The normalised tag `addQuality` works with. */
  function Normalise(input: string): string {
    Lower(Trim(input))
  }

  /**
   * `addQuality`: a non-empty normalised tag not yet in the list is appended
   * and the input cleared; otherwise nothing changes.
   */
  function AddQuality(f: Form): (r: Form)
    ensures var q := Normalise(f.qualityInput);
      if q != [] && q !in Names(f) then
        r.qualityNames == Some(Names(f) + [q]) && r.qualityInput == [] && r.description == f.description
      else r == f
  {
    var q := Normalise(f.qualityInput);
    if q != [] && !(f.qualityNames.Some? && q in f.qualityNames.value) then
      f.(qualityNames := Some(Names(f) + [q]), qualityInput := [])
    else f
  }

  /** A tag is stored only in normal form: no surrounding whitespace, no capitals. */
  lemma {:induction false} AddedTagNormalised(f: Form)
    requires Normalise(f.qualityInput) != [] && Normalise(f.qualityInput) !in Names(f)
    ensures var q := Names(AddQuality(f))[|Names(f)|];
      q == Normalise(f.qualityInput) && NoUpper(q) && q != [] && !IsSpace(q[0]) && !IsSpace(q[|q| - 1])
  {
    var t := Trim(f.qualityInput);
    var q := Lower(t);
    assert |t| > 0;
    assert q[0] == LowerChar(t[0]);
    assert q[|q| - 1] == LowerChar(t[|t| - 1]);
  }

  /** `addQuality` keeps the list free of duplicates. */
  lemma {:induction false} AddQualityDistinct(f: Form)
    requires Distinct(Names(f))
    ensures Distinct(Names(AddQuality(f)))
  {
    var q := Normalise(f.qualityInput);
    if q != [] && q !in Names(f) {
      DistinctSnoc(Names(f), q);
    }
  }

  /** `splice(index, 1)`: a negative index counts from the end; out of range removes nothing. */
  function Splice(s: seq<string>, index: int): (r: seq<string>)
    ensures 0 <= index < |s| ==> r == s[..index] + s[index + 1..]
    ensures index >= |s| ==> r == s
    ensures -|s| <= index < 0 ==> r == s[..|s| + index] + s[|s| + index + 1..]
    ensures index < -|s| && |s| > 0 ==> r == s[1..]
  {
    var start := if index < 0 then (if |s| + index < 0 then 0 else |s| + index) else index;
    if start < |s| then s[..start] + s[start + 1..] else s
  }

  /** `removeQuality`: only the list changes, and only when it exists. */
  function RemoveQuality(f: Form, index: int): (r: Form)
    ensures f.qualityNames.None? ==> r == f
    ensures f.qualityNames.Some? ==> r == f.(qualityNames := Some(Splice(f.qualityNames.value, index)))
  {
    if f.qualityNames.Some? then f.(qualityNames := Some(Splice(f.qualityNames.value, index))) else f
  }

  /** Removing at an index in range drops exactly that tag and keeps the others in order. */
  lemma {:induction false} RemoveQualityInRange(f: Form, index: int)
    requires 0 <= index < |Names(f)| && f.qualityNames.Some?
    ensures var n := Names(RemoveQuality(f, index));
      |n| == |Names(f)| - 1 &&
      (forall k :: 0 <= k < index ==> n[k] == Names(f)[k]) &&
      (forall k :: index <= k < |n| ==> n[k] == Names(f)[k + 1])
  {
  }

  /** Adding a tag and then removing the last one gives the list back. */
  lemma {:induction false} AddThenRemoveLast(f: Form)
    requires Normalise(f.qualityInput) != [] && Normalise(f.qualityInput) !in Names(f)
    ensures Names(RemoveQuality(AddQuality(f), |Names(f)|)) == Names(f)
  {
    var n := Names(f) + [Normalise(f.qualityInput)];
    assert n[..|Names(f)|] == Names(f);
  }

  /** `resetForm`. */
  function ResetForm(f: Form): (r: Form)
    ensures r.description == [] && Names(r) == [] && r.qualityNames.Some? && r.qualityInput == []
  {
    Form([], [], Some([]))
  }

  /** `populateForm`: copies the description and the list (an absent list becomes empty); the input is kept. */
  function PopulateForm(f: Form, description: string, qualityNames: Option<seq<string>>): (r: Form)
    ensures r.description == description && r.qualityInput == f.qualityInput
    ensures r.qualityNames == Some(if qualityNames.Some? then qualityNames.value else [])
  {
    f.(description := description, qualityNames := Some(if qualityNames.Some? then qualityNames.value else []))
  }

  /** Populating a reset form restores the data it was given. */
  lemma {:induction false} PopulateAfterReset(f: Form, description: string, names: seq<string>)
    ensures var r := PopulateForm(ResetForm(f), description, Some(names));
      r.description == description && Names(r) == names && r.qualityInput == []
  {
  }
}

/** The image list of frontend/src/composables/useDreamImages.ts. */
module DreamImages {
  import opened Options
  import opened Sorting

  datatype ImageStatus = Pending | Generating | Completed | Failed

  /** An image; `created` is its creation time in milliseconds, as `getTime()` gives it. */
  datatype Image = Image(id: int, status: ImageStatus, created: int)

  /** `findIndex` by id: the first image with that id. */
  function FindIndex(images: seq<Image>, id: int): (r: Option<nat>)
    ensures r.Some? ==> (r.value < |images| && images[r.value].id == id &&
      forall k :: 0 <= k < r.value ==> images[k].id != id)
    ensures r.None? ==> forall k :: 0 <= k < |images| ==> images[k].id != id
  {
    if |images| == 0 then None
    else if images[0].id == id then Some(0)
    else
      match FindIndex(images[1..], id)
      case None => None
      case Some(k) => Some(k + 1)
  }

  /** `updateImage`: replace the first image with the same id, or append a new one. */
  function UpdateImage(images: seq<Image>, image: Image): (r: seq<Image>)
    ensures FindIndex(images, image.id).Some? ==>
      var i := FindIndex(images, image.id).value;
      |r| == |images| && r[i] == image && forall k :: 0 <= k < |r| && k != i ==> r[k] == images[k]
    ensures FindIndex(images, image.id).None? ==> r == images + [image]
  {
    match FindIndex(images, image.id)
    case Some(i) => images[i := image]
    case None => images + [image]
  }

  /** After an update the image is in the list under its id, and the list grew only for a new id. */
  lemma {:induction false} UpdateImageFindable(images: seq<Image>, image: Image)
    ensures var r := UpdateImage(images, image);
      FindIndex(r, image.id).Some? && r[FindIndex(r, image.id).value] == image &&
      |r| == |images| + (if FindIndex(images, image.id).None? then 1 else 0)
  {
    var r := UpdateImage(images, image);
    match FindIndex(images, image.id)
    case Some(i) =>
      assert r[i] == image;
    case None =>
      assert r[|images|] == image;
  }

  function Created(img: Image): int {
    img.created
  }

  /** `filter` on status completed. */
  function CompletedImages(images: seq<Image>): (r: seq<Image>)
    ensures forall k :: 0 <= k < |r| ==> r[k].status == Completed && r[k] in images
    ensures forall k :: 0 <= k < |images| && images[k].status == Completed ==> images[k] in r
    ensures r == [] <==> forall k :: 0 <= k < |images| ==> images[k].status != Completed
  {
    if |images| == 0 then []
    else
      var rest := CompletedImages(images[1..]);
      assert forall k :: 1 <= k < |images| ==> images[k] == images[1..][k - 1];
      if images[0].status == Completed then [images[0]] + rest else rest
  }

  /** The filter of one image: the image itself when completed, nothing otherwise. */
  lemma {:induction false} CompletedImagesSingle(img: Image)
    ensures CompletedImages([img]) == if img.status == Completed then [img] else []
  {
    assert [img][1..] == [];
  }

  /** The filter works piece by piece: the kept images of a concatenation come in input order. */
  lemma {:induction false} CompletedImagesAppend(a: seq<Image>, b: seq<Image>)
    ensures CompletedImages(a + b) == CompletedImages(a) + CompletedImages(b)
  {
    if |a| == 0 {
      assert a + b == b;
    } else {
      assert (a + b)[0] == a[0] && (a + b)[1..] == a[1..] + b;
      CompletedImagesAppend(a[1..], b);
    }
  }

  /** `latestCompletedImage`: the head of the completed images sorted newest first (a stable sort). */
  function LatestCompleted(images: seq<Image>): (r: Option<Image>)
    ensures r.None? <==> forall k :: 0 <= k < |images| ==> images[k].status != Completed
    ensures r.Some? ==> (r.value in images && r.value.status == Completed &&
      forall k :: 0 <= k < |images| && images[k].status == Completed ==> images[k].created <= r.value.created)
  {
    var completed := CompletedImages(images);
    var sorted := StableSortDesc(completed, Created);
    if |sorted| > 0 then
      SortMembers(completed, Created);
      assert sorted[0] in completed;
      forall k | 0 <= k < |images| && images[k].status == Completed
        ensures images[k].created <= sorted[0].created
      {
        var m :| 0 <= m < |completed| && completed[m] == images[k];
        assert completed[m] in sorted;
      }
      Some(sorted[0])
    else None
  }

  /** Among equally new completed images the one listed first wins, as the stable sort keeps ties in order. */
  lemma {:induction false} LatestIsFirstNewest(images: seq<Image>)
    requires LatestCompleted(images).Some?
    ensures var latest := LatestCompleted(images).value;
      var completed := CompletedImages(images);
      WithKey(completed, Created, latest.created) != [] &&
      latest == WithKey(completed, Created, latest.created)[0]
  {
    var completed := CompletedImages(images);
    var sorted := StableSortDesc(completed, Created);
    var latest := sorted[0];
    WithKeyNonEmpty(sorted, Created);
    assert WithKey(sorted, Created, latest.created)[0] == latest;
  }
}
