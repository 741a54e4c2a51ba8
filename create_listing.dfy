/** The photo list of the create/edit listing form and the form defaults.
    The form keeps two parallel lists: `images`, what it shows (hosted URLs
    of a listing being edited, then a preview per newly chosen file), and
    `files`, the chosen files still to upload. */
module CreateListing {
  import opened Rental
  import opened Text
  import Seqs

  /** A file chosen in the file picker; `content` stands for its bytes as
      they appear base64-encoded in a data URL. */
  datatype File = File(name: string, mimeType: string, content: string)

  /** `file.type.startsWith('image/')`. */
  predicate IsImageFile(f: File) {
    StartsWith(f.mimeType, "image/")
  }

  function ImageFile(): File -> bool {
    (f: File) => IsImageFile(f)
  }

  /** An entry of the shown list: a URL stored with the listing, or the
      preview of a chosen file. The preview is the data URL the file reader
      produces, `data:<type>;base64,<content>`; the model keeps the file it
      was read from instead of that text. */
  datatype Image = Url(url: string) | Preview(file: File)

  /** The entries the `http` test keeps: stored URLs starting with `http`.
      A data URL starts with `data:`, so no preview passes. */
  predicate IsHosted(img: Image) {
    img.Url? && StartsWith(img.url, "http")
  }

  function Hosted(): Image -> bool {
    (img: Image) => IsHosted(img)
  }

  /** The previews of a list of files, one per file, in order. */
  function Previews(fs: seq<File>): (r: seq<Image>)
    ensures |r| == |fs|
  {
    seq(|fs|, k requires 0 <= k < |fs| => Preview(fs[k]))
  }

  lemma PreviewsSnoc(fs: seq<File>, f: File)
    ensures Previews(fs + [f]) == Previews(fs) + [Preview(f)]
  {
    assert forall k :: 0 <= k < |fs| + 1 ==> Previews(fs + [f])[k] == (Previews(fs) + [Preview(f)])[k];
  }

  /** The previews of a concatenation are the concatenated previews. */
  lemma PreviewsAppend(a: seq<File>, b: seq<File>)
    ensures Previews(a + b) == Previews(a) + Previews(b)
  {
    assert forall k :: 0 <= k < |a| + |b| ==> Previews(a + b)[k] == (Previews(a) + Previews(b))[k];
  }

  /** `s.filter((_, i) => i !== index)`: drops the element at `index`, if
      there is one, and keeps the rest in order. */
  function RemoveIndex<T>(s: seq<T>, index: int): (r: seq<T>)
    ensures 0 <= index < |s| ==> r == s[..index] + s[index + 1..]
    ensures !(0 <= index < |s|) ==> r == s
  {
    if s == [] then []
    else
      var rest := RemoveIndex(s[1..], index - 1);
      assert s == [s[0]] + s[1..];
      if index == 0 then rest else [s[0]] + rest
  }

  datatype Photos = Photos(images: seq<Image>, files: seq<File>)

  /** The two lists agree: `images` is some hosted URLs followed by exactly
      one preview per pending file, in the same order. */
  predicate Aligned(p: Photos) {
    && |p.files| <= |p.images|
    && (forall k :: 0 <= k < |p.images| - |p.files| ==> IsHosted(p.images[k]))
    && p.images[|p.images| - |p.files|..] == Previews(p.files)
  }

  /** How many hosted URLs lead the list. */
  function HostedCount(p: Photos): int {
    |p.images| - |p.files|
  }

  /** `handleImageChange`: of the chosen files, those of an image type are
      appended to the pending files, and their previews to the shown
      images, in the order chosen; other files are ignored. Aligned lists
      stay aligned. */
  method HandleImageChange(p: Photos, selected: seq<File>) returns (r: Photos)
    ensures r.files == p.files + Seqs.Filter(selected, ImageFile())
    ensures r.images == p.images + Previews(Seqs.Filter(selected, ImageFile()))
    ensures Aligned(p) ==> Aligned(r)
  {
    var newImages, newFiles := AppendImages(p.images, p.files, selected);
    ImagesAmongIsFilter(selected);
    r := Photos(newImages, newFiles);
    if Aligned(p) {
      AppendKeepsAligned(p, Seqs.Filter(selected, ImageFile()));
    }
  }

  /** The `forEach` of `handleImageChange` over copies of both lists: the
      image files among the chosen ones and their previews are pushed. */
  method AppendImages(images: seq<Image>, files: seq<File>, selected: seq<File>)
    returns (newImages: seq<Image>, newFiles: seq<File>)
    ensures newFiles == files + ImagesAmong(selected)
    ensures newImages == images + Previews(ImagesAmong(selected))
  {
    newFiles := files;
    newImages := images;
    var i := 0;
    while i < |selected|
      invariant 0 <= i <= |selected|
      invariant newFiles == files + ImagesAmong(selected[..i])
      invariant newImages == images + Previews(ImagesAmong(selected[..i]))
    {
      var file := selected[i];
      var kept := ImagesAmong(selected[..i]);
      assert selected[..i + 1][..i] == selected[..i];
      if IsImageFile(file) {
        assert ImagesAmong(selected[..i + 1]) == kept + [file];
        PreviewsSnoc(kept, file);
        assert (images + Previews(kept)) + [Preview(file)] == images + (Previews(kept) + [Preview(file)]);
        assert (files + kept) + [file] == files + (kept + [file]);
        newFiles := newFiles + [file];
        newImages := newImages + [Preview(file)];
      } else {
        assert ImagesAmong(selected[..i + 1]) == kept;
      }
      i := i + 1;
    }
    assert selected[..i] == selected;
  }

  /** The image files among `fs`, accumulated from the front as the loop
      does. */
  function ImagesAmong(fs: seq<File>): seq<File> {
    if fs == [] then []
    else
      var last := fs[|fs| - 1];
      ImagesAmong(fs[..|fs| - 1]) + if IsImageFile(last) then [last] else []
  }

  /** The accumulation is `selected.filter(isImage)`. */
  lemma {:induction false} ImagesAmongIsFilter(fs: seq<File>)
    ensures ImagesAmong(fs) == Seqs.Filter(fs, ImageFile())
  {
    if fs != [] {
      var init := fs[..|fs| - 1];
      ImagesAmongIsFilter(init);
      assert fs == init + [fs[|fs| - 1]];
      Seqs.FilterSnoc(init, fs[|fs| - 1], ImageFile());
    }
  }

  /** Appending files together with their previews keeps the lists
      aligned. */
  lemma AppendKeepsAligned(p: Photos, added: seq<File>)
    requires Aligned(p)
    ensures Aligned(Photos(p.images + Previews(added), p.files + added))
  {
    var h := HostedCount(p);
    var shown := p.images + Previews(added);
    PreviewsAppend(p.files, added);
    assert |shown| - |p.files + added| == h;
    assert shown[h..] == p.images[h..] + Previews(added);
    assert shown[..h] == p.images[..h];
  }

  /** `removeImage` as written: the same index is dropped from both lists.
      Each list loses exactly the element at that position, if it has one. */
  function RemoveImage(p: Photos, index: int): (r: Photos)
    ensures 0 <= index < |p.images| ==> r.images == p.images[..index] + p.images[index + 1..]
    ensures 0 <= index < |p.files| ==> r.files == p.files[..index] + p.files[index + 1..]
    ensures !(0 <= index < |p.files|) ==> r.files == p.files
  {
    Photos(RemoveIndex(p.images, index), RemoveIndex(p.files, index))
  }

  /** The removal the form needs: position `index` of the shown list is a
      hosted URL or the preview of pending file `index - HostedCount(p)`,
      and only that one entry goes from each list. */
  function RemoveImageAligned(p: Photos, index: int): (r: Photos)
    ensures 0 <= index < |p.images| ==> r.images == p.images[..index] + p.images[index + 1..]
    ensures Aligned(p) ==> Aligned(r)
  {
    var hosted := HostedCount(p);
    var r := if index < hosted then Photos(RemoveIndex(p.images, index), p.files)
             else Photos(RemoveIndex(p.images, index), RemoveIndex(p.files, index - hosted));
    if Aligned(p) && 0 <= index < |p.images| then
      if index < hosted then
        RemoveHostedKeepsAligned(p, index);
        r
      else
        RemovePreviewKeepsAligned(p, index);
        r
    else
      r
  }

  lemma RemoveHostedKeepsAligned(p: Photos, index: int)
    requires Aligned(p) && 0 <= index < HostedCount(p)
    ensures Aligned(Photos(RemoveIndex(p.images, index), p.files))
  {
    var r := Photos(RemoveIndex(p.images, index), p.files);
    assert r.images[|r.images| - |r.files|..] == p.images[|p.images| - |p.files|..];
  }

  lemma RemovePreviewKeepsAligned(p: Photos, index: int)
    requires Aligned(p) && HostedCount(p) <= index < |p.images|
    ensures Aligned(Photos(RemoveIndex(p.images, index), RemoveIndex(p.files, index - HostedCount(p))))
  {
    var h := HostedCount(p);
    var j := index - h;
    var lead, tail := p.images[..h], Previews(p.files);
    assert p.images == lead + tail;
    var kept := RemoveIndex(p.images, index);
    assert kept == lead + (tail[..j] + tail[j + 1..]) by {
      assert p.images[..index] == lead + tail[..j];
      assert p.images[index + 1..] == tail[j + 1..];
    }
    PreviewsRemove(p.files, j);
    assert kept[..h] == lead;
    assert kept[h..] == Previews(RemoveIndex(p.files, j));
  }

  /** Dropping one file drops its preview and nothing else. */
  lemma PreviewsRemove(fs: seq<File>, j: int)
    requires 0 <= j < |fs|
    ensures Previews(fs)[..j] + Previews(fs)[j + 1..] == Previews(fs[..j] + fs[j + 1..])
  {
    var shown, left := Previews(fs), fs[..j] + fs[j + 1..];
    assert forall k :: 0 <= k < |left| ==> (shown[..j] + shown[j + 1..])[k] == Previews(left)[k];
  }

  /** On a new listing nothing is hosted, and then the two removals agree:
      the defect below needs an edited listing. */
  lemma RemovalsAgreeWithoutHosted(p: Photos, index: int)
    requires |p.images| == |p.files|
    ensures RemoveImageAligned(p, index) == RemoveImage(p, index)
  {
  }

  /** The stored URLs among `outcomes`, the result of each upload: the
      public URL on success, nothing on failure. */
  function Successes(outcomes: seq<Option<string>>): (r: seq<Image>)
    ensures |r| <= |outcomes|
  {
    if outcomes == [] then []
    else
      var init := outcomes[..|outcomes| - 1];
      var last := outcomes[|outcomes| - 1];
      Successes(init) + (if last.Some? then [Url(last.value)] else [])
  }

  lemma SuccessesSnoc(outcomes: seq<Option<string>>, o: Option<string>)
    ensures Successes(outcomes + [o]) == Successes(outcomes) + (if o.Some? then [Url(o.value)] else [])
  {
    assert (outcomes + [o])[..|outcomes|] == outcomes;
  }

  /** The collected URLs are exactly the URLs of the successful uploads. */
  lemma {:induction false} SuccessesMembers(outcomes: seq<Option<string>>)
    ensures forall img :: img in Successes(outcomes) <==> img.Url? && Some(img.url) in outcomes
  {
    if outcomes != [] {
      var init := outcomes[..|outcomes| - 1];
      SuccessesMembers(init);
      assert outcomes == init + [outcomes[|outcomes| - 1]];
    }
  }

  /** When every upload succeeds, no photo is lost. */
  lemma {:induction false} AllUploadedAllKept(outcomes: seq<Option<string>>)
    requires forall k :: 0 <= k < |outcomes| ==> outcomes[k].Some?
    ensures |Successes(outcomes)| == |outcomes|
  {
    if outcomes != [] {
      AllUploadedAllKept(outcomes[..|outcomes| - 1]);
    }
  }

  /** `uploadImages`: the hosted URLs of the shown list, in order, then the
      public URL of each pending file whose upload succeeded, in order. */
  method UploadImages(images: seq<Image>, files: seq<File>, outcomes: seq<Option<string>>) returns (urls: seq<Image>)
    requires |outcomes| == |files|
    ensures urls == Seqs.Filter(images, Hosted()) + Successes(outcomes)
  {
    urls := Seqs.Filter(images, Hosted());
    urls := PushUploaded(urls, outcomes);
  }

  /** The upload loop of `uploadImages`: each file's public URL is pushed
      after the URLs already collected, and a failed upload pushes
      nothing. */
  method PushUploaded(collected: seq<Image>, outcomes: seq<Option<string>>) returns (urls: seq<Image>)
    ensures urls == collected + Successes(outcomes)
  {
    urls := collected;
    var i := 0;
    while i < |outcomes|
      invariant 0 <= i <= |outcomes|
      invariant urls == collected + Successes(outcomes[..i])
    {
      assert outcomes[..i + 1] == outcomes[..i] + [outcomes[i]];
      SuccessesSnoc(outcomes[..i], outcomes[i]);
      if outcomes[i].Some? {
        urls := urls + [Url(outcomes[i].value)];
      }
      i := i + 1;
    }
    assert outcomes[..i] == outcomes;
  }

  /** The `images` value `handleSubmit` saves: the shown list as it is when
      no file is pending, the upload result otherwise. */
  function Saved(p: Photos, outcomes: seq<Option<string>>): (r: seq<Image>)
    requires |outcomes| == |p.files|
    ensures p.files == [] ==> r == p.images
    ensures p.files != [] ==> forall img :: img in r ==> IsHosted(img) || (img.Url? && Some(img.url) in outcomes)
  {
    SuccessesMembers(outcomes);
    if p.files == [] then p.images else Seqs.Filter(p.images, Hosted()) + Successes(outcomes)
  }

  /** While the lists are aligned, the listing is saved with the hosted
      URLs shown, in order, followed by the uploaded photos; when every
      upload succeeds, it keeps exactly as many photos as were shown. */
  lemma SavedMatchesShown(p: Photos, outcomes: seq<Option<string>>)
    requires Aligned(p) && |outcomes| == |p.files|
    ensures p.files != [] ==> Saved(p, outcomes) == p.images[..HostedCount(p)] + Successes(outcomes)
    ensures (forall k :: 0 <= k < |outcomes| ==> outcomes[k].Some?) ==> |Saved(p, outcomes)| == |p.images|
  {
    HostedPrefix(p);
    if forall k :: 0 <= k < |outcomes| ==> outcomes[k].Some? {
      AllUploadedAllKept(outcomes);
    }
  }

  /** Of aligned lists, exactly the leading hosted URLs pass the `http`
      filter. */
  lemma HostedPrefix(p: Photos)
    requires Aligned(p)
    ensures Seqs.Filter(p.images, Hosted()) == p.images[..HostedCount(p)]
  {
    var h := HostedCount(p);
    assert p.images == p.images[..h] + Previews(p.files);
    Seqs.FilterAppend(p.images[..h], Previews(p.files), Hosted());
    Seqs.FilterKeepsAll(p.images[..h], Hosted());
    NoPreviewIsHosted(p.files);
  }

  lemma NoPreviewIsHosted(fs: seq<File>)
    ensures Seqs.Filter(Previews(fs), Hosted()) == []
  {
    Seqs.FilterKeepsNone(Previews(fs), Hosted());
  }

  /** The defect of `removeImage` on an edited listing: with one hosted
      photo and one new file, removing the new file's preview leaves the
      file pending (its index is past the end of the file list), and the
      photo the user removed is uploaded and saved anyway. */
  lemma RemovedPhotoStillSaved(f: File, url: string)
    ensures var before := Photos([Url("http://host/a.jpg"), Preview(f)], [f]);
      && Aligned(before)
      && RemoveImage(before, 1).images == [Url("http://host/a.jpg")]
      && RemoveImage(before, 1).files == [f]
      && !Aligned(RemoveImage(before, 1))
      && Saved(RemoveImage(before, 1), [Some(url)]) == [Url("http://host/a.jpg"), Url(url)]
      && Saved(RemoveImageAligned(before, 1), []) == [Url("http://host/a.jpg")]
  {
    var hosted := Url("http://host/a.jpg");
    var before := Photos([hosted, Preview(f)], [f]);
    assert before.images[1..] == Previews([f]);
    var after := RemoveImage(before, 1);
    assert IsHosted(hosted);
    assert Seqs.Filter([hosted], Hosted()) == [hosted] by {
      Seqs.FilterKeepsAll([hosted], Hosted());
    }
    assert Successes([Some(url)]) == [Url(url)] by {
      assert [Some(url)][..0] == [];
    }
    assert Previews(after.files)[0] == Preview(f);
  }

  /** The reverse case: removing the hosted photo at index 0 drops the new
      file from the pending list instead. Its preview stays shown, nothing
      is uploaded because no file is pending, and the preview itself is
      saved as a photo of the listing. */
  lemma RemovedStoredUrlSavesPreview(f: File)
    ensures var before := Photos([Url("http://host/a.jpg"), Preview(f)], [f]);
      && RemoveImage(before, 0).images == [Preview(f)]
      && RemoveImage(before, 0).files == []
      && !Aligned(RemoveImage(before, 0))
      && Saved(RemoveImage(before, 0), []) == [Preview(f)]
      && !IsHosted(Saved(RemoveImage(before, 0), [])[0])
      && RemoveImageAligned(before, 0).files == [f]
  {
    var hosted := Url("http://host/a.jpg");
    var before := Photos([hosted, Preview(f)], [f]);
    assert IsHosted(hosted);
    var after := RemoveImage(before, 0);
    assert after.images == [Preview(f)] && after.files == [];
    assert !IsHosted(after.images[0]);
    assert Previews([f]) == [Preview(f)];
  }

  /** A row of the listings table as the edit form loads it; absent
      columns are `None`. */
  datatype ListingRow = ListingRow(
    title: string, description: Option<string>, category: string, price: int,
    priceUnit: Option<string>, location: Option<string>,
    availableFrom: Option<string>, availableTo: Option<string>, images: Option<seq<string>>)

  /** The form fields; the price box is `None` while empty. */
  datatype Form = Form(
    title: string, description: string, category: string, price: Option<int>,
    priceUnit: string, location: string, availableFrom: string, availableTo: string)

  /** The form a new listing starts from. */
  const BlankForm := Form("", "", "electronics", None, "day", "", "", "")

  /** `value || fallback` on a string column: an absent or empty value
      gives the fallback. */
  function OrElse(value: Option<string>, fallback: string): (r: string)
    ensures value.Some? && value.value != "" ==> r == value.value
    ensures value.None? || value.value == "" ==> r == fallback
  {
    if value.Some? && value.value != "" then value.value else fallback
  }

  /** `fetchListing`'s form: the row's values, with each absent optional
      column taking the blank form's value, so the price unit is never
      empty. */
  function LoadForm(row: ListingRow): (f: Form)
    ensures f.title == row.title && f.category == row.category && f.price == Some(row.price)
    ensures f.priceUnit != ""
    ensures row.priceUnit.Some? && row.priceUnit.value != "" ==> f.priceUnit == row.priceUnit.value
    ensures row.description.Some? && row.description.value != "" ==> f.description == row.description.value
    ensures row.location.Some? && row.location.value != "" ==> f.location == row.location.value
    ensures row.availableFrom.Some? && row.availableFrom.value != "" ==> f.availableFrom == row.availableFrom.value
    ensures row.availableTo.Some? && row.availableTo.value != "" ==> f.availableTo == row.availableTo.value
    ensures row.description.None? ==> f.description == BlankForm.description
    ensures row.priceUnit.None? ==> f.priceUnit == BlankForm.priceUnit
    ensures row.location.None? ==> f.location == BlankForm.location
    ensures row.availableFrom.None? ==> f.availableFrom == BlankForm.availableFrom
    ensures row.availableTo.None? ==> f.availableTo == BlankForm.availableTo
  {
    Form(row.title, OrElse(row.description, ""), row.category, Some(row.price),
         OrElse(row.priceUnit, "day"), OrElse(row.location, ""),
         OrElse(row.availableFrom, ""), OrElse(row.availableTo, ""))
  }

  /** The photos of a loaded listing: its stored URLs, or none; nothing is
      pending upload. */
  function LoadPhotos(row: ListingRow): (p: Photos)
    ensures p.files == []
    ensures row.images.None? ==> p.images == []
    ensures row.images.Some? ==> |p.images| == |row.images.value|
    ensures row.images.Some? ==> forall k :: 0 <= k < |p.images| ==> p.images[k] == Url(row.images.value[k])
  {
    match row.images
    case None => Photos([], [])
    case Some(urls) => Photos(seq(|urls|, k requires 0 <= k < |urls| => Url(urls[k])), [])
  }

  /** The upload control is offered only while fewer than five photos are
      shown: it appears exactly while there is room for another photo under
      the five-photo label. */
  predicate UploadControlShown(p: Photos): (r: bool)
    ensures r ==> |p.images| + 1 <= 5
    ensures !r ==> |p.images| >= 5
  {
    |p.images| < 5
  }

  /** With five photos shown the control is hidden, and removing any one
      of them brings it back. */
  lemma ControlReturnsAfterRemoval(p: Photos, index: int)
    requires |p.images| == 5 && 0 <= index < 5
    ensures !UploadControlShown(p)
    ensures UploadControlShown(RemoveImage(p, index))
    ensures UploadControlShown(RemoveImageAligned(p, index))
  {
  }

  /** A loaded listing whose stored URLs are all hosted starts aligned. */
  lemma LoadedPhotosAligned(row: ListingRow)
    requires row.images.Some? ==> forall k :: 0 <= k < |row.images.value| ==> StartsWith(row.images.value[k], "http")
    ensures Aligned(LoadPhotos(row))
  {
  }
}
