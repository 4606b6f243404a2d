/** The two request handlers: `process_image` (upload, colorize with both models,
    store two artifacts) and `apply_filter` (load an artifact, apply one filter,
    store the result, confirm it exists). Each is a pure function from the folder
    state and the request to the response and the new folder state, and a method
    that performs the same steps one by one against an ArtifactStore. */
module Handlers {
  import opened Imaging
  import opened Naming
  import opened Filters
  import opened Store

  datatype Response =
    | Colorized(original: string, eccv16: string, siggraph17: string)
    | Filtered(filtered: string)
    | Fail(status: int, message: string)
      /** An exception reached the handler's catch-all: status 500 with its text. */
    | Crash

  function Status(r: Response): int {
    match r
    case Colorized(_, _, _) => 200
    case Filtered(_) => 200
    case Fail(status, _) => status
    case Crash => 500
  }

  datatype Outcome = Outcome(response: Response, state: Folders)

  /** The `file` part of a multipart upload. */
  datatype FilePart = FilePart(filename: string, payload: Payload)

  /** Loading, preprocessing, one colorization network and postprocessing, from
      the decoded upload to the colorized image; None when any step raises. */
  type Colorizer = Image -> Option<Image>

  const NoFileUploaded := "No file uploaded"
  const NoSelectedFile := "No selected file"
  const MissingParameter := "Missing image or filter parameter"
  const NotLoaded := "Image could not be loaded"
  const InvalidFilter := "Invalid filter type"
  const NotSaved := "Filtered image not saved correctly"

  // ---------------------------------------------------------------------------
  // process_image

  function ProcessRequest(s: Folders, file: Option<FilePart>, eccv16: Colorizer, siggraph17: Colorizer): (r: Outcome)
    // 400 exactly for a missing file part or an empty file name, and then nothing is saved
    ensures Status(r.response) == 400 <==> file.None? || file.value.filename == []
    ensures Status(r.response) == 400 ==> r.state == s
    ensures file.None? ==> r.response == Fail(400, NoFileUploaded)
    ensures file.Some? && file.value.filename == [] ==> r.response == Fail(400, NoSelectedFile)
    // every exception after the checks is answered by the catch-all
    ensures file.Some? && file.value.filename != [] && !r.response.Colorized? ==> r.response == Crash
    // any accepted upload is saved under its name, whatever happens next
    ensures file.Some? && file.value.filename != [] ==>
              r.state.uploads == s.uploads[file.value.filename := file.value.payload]
    // success exactly when the upload decodes and both models succeed
    ensures r.response.Colorized? <==>
              && file.Some? && file.value.filename != [] && file.value.payload.Picture?
              && eccv16(file.value.payload.img).Some? && siggraph17(file.value.payload.img).Some?
    // on success both artifacts are stored under their model-tagged names
    ensures r.response.Colorized? ==>
              var f, img := file.value.filename, file.value.payload.img;
              && r.response == Colorized(f, EccvName(f), SiggraphName(f))
              && r.state.processed == s.processed[EccvName(f) := Picture(eccv16(img).value)][SiggraphName(f) := Picture(siggraph17(img).value)]
    // on every failure no artifact is written
    ensures !r.response.Colorized? ==> r.state.processed == s.processed
    ensures Status(r.response) in {200, 400, 500}
  {
    if file.None? then Outcome(Fail(400, NoFileUploaded), s)
    else if file.value.filename == [] then Outcome(Fail(400, NoSelectedFile), s)
    else
      var f := file.value.filename;
      var saved := s.(uploads := s.uploads[f := file.value.payload]);
      match Load(saved.uploads, f)
      case None => Outcome(Crash, saved)
      case Some(img) =>
        var a := eccv16(img);
        if a.None? then Outcome(Crash, saved)
        else
          var b := siggraph17(img);
          if b.None? then Outcome(Crash, saved)
          else
            Outcome(Colorized(f, EccvName(f), SiggraphName(f)),
                    saved.(processed := saved.processed[EccvName(f) := Picture(a.value)][SiggraphName(f) := Picture(b.value)]))
  }

  method ProcessImage(store: ArtifactStore, file: Option<FilePart>, eccv16: Colorizer, siggraph17: Colorizer)
    returns (resp: Response)
    requires store.Valid()
    modifies store
    ensures store.Valid()
    ensures Outcome(resp, store.State()) == ProcessRequest(old(store.State()), file, eccv16, siggraph17)
  {
    if file.None? {
      return Fail(400, NoFileUploaded);
    }
    var part := file.value;
    if part.filename == [] {
      return Fail(400, NoSelectedFile);
    }
    var filename := part.filename;
    store.SaveUpload(filename, part.payload);
    var img := store.LoadUpload(filename);
    if img.None? {
      return Crash;
    }
    var outEccv := eccv16(img.value);
    if outEccv.None? {
      return Crash;
    }
    var outSiggraph := siggraph17(img.value);
    if outSiggraph.None? {
      return Crash;
    }
    var eccvName, siggraphName := EccvName(filename), SiggraphName(filename);
    ColorizedNames(filename);
    PngNameIsFileName(eccvName);
    PngNameIsFileName(siggraphName);
    store.Write(eccvName, outEccv.value, true);
    store.Write(siggraphName, outSiggraph.value, true);
    return Colorized(filename, eccvName, siggraphName);
  }

  // ---------------------------------------------------------------------------
  // apply_filter

  /** Both query parameters are present and non-empty. */
  predicate HasParameters(image: Option<string>, filter: Option<string>) {
    image.Some? && image.value != [] && filter.Some? && filter.value != []
  }

  /** The artifact the request names (its basename) exists in the processed folder
      and decodes as a picture. */
  predicate Loadable(s: Folders, image: Option<string>)
    requires image.Some?
  {
    Basename(image.value) in s.processed && s.processed[Basename(image.value)].Picture?
  }

  function FilterRequest(s: Folders, image: Option<string>, filter: Option<string>,
                         jet: Image -> Image, tone: Image -> Image, accepted: bool): (r: Outcome)
    ensures r.state.uploads == s.uploads
    // the checks, in order: parameters (400), then loading (500), then the filter name (400)
    ensures !HasParameters(image, filter) ==> r == Outcome(Fail(400, MissingParameter), s)
    ensures HasParameters(image, filter) && !Loadable(s, image) ==> r == Outcome(Fail(500, NotLoaded), s)
    ensures HasParameters(image, filter) && Loadable(s, image) && Parse(filter.value).None? ==>
              r == Outcome(Fail(400, InvalidFilter), s)
    ensures Status(r.response) == 400 <==>
              !HasParameters(image, filter) || (Loadable(s, image) && Parse(filter.value).None?)
    // a refused write of a name not already present fails the existence check
    ensures HasParameters(image, filter) && Loadable(s, image) && Parse(filter.value).Some? &&
            !accepted && FilteredName(image.value, filter.value) !in s.processed ==>
              r == Outcome(Fail(500, NotSaved), s)
    // no error writes anything
    ensures !r.response.Filtered? ==> r.state == s
    // success exactly when the request is well formed and the name exists after the write
    ensures r.response.Filtered? <==>
              && HasParameters(image, filter) && Loadable(s, image) && Parse(filter.value).Some?
              && (accepted || FilteredName(image.value, filter.value) in s.processed)
    ensures r.response.Filtered? ==> r.response.filtered == FilteredName(image.value, filter.value)
    // on success the filtered source is stored under the filtered name, if the write was accepted
    ensures r.response.Filtered? ==>
              r.state.processed ==
                if accepted then s.processed[FilteredName(image.value, filter.value) :=
                                   Picture(Apply(Parse(filter.value).value, s.processed[Basename(image.value)].img, jet, tone))]
                else s.processed
  {
    if !HasParameters(image, filter) then Outcome(Fail(400, MissingParameter), s)
    else
      match Load(s.processed, Basename(image.value))
      case None => Outcome(Fail(500, NotLoaded), s)
      case Some(img) =>
        match Parse(filter.value)
        case None => Outcome(Fail(400, InvalidFilter), s)
        case Some(f) =>
          var name := FilteredName(image.value, filter.value);
          var after := if accepted then s.(processed := s.processed[name := Picture(Apply(f, img, jet, tone))]) else s;
          if name in after.processed then Outcome(Filtered(name), after)
          else Outcome(Fail(500, NotSaved), after)
  }

  method ApplyFilter(store: ArtifactStore, image: Option<string>, filter: Option<string>,
                     jet: Image -> Image, tone: Image -> Image, accepted: bool)
    returns (resp: Response)
    requires store.Valid()
    modifies store
    ensures store.Valid()
    ensures Outcome(resp, store.State()) == FilterRequest(old(store.State()), image, filter, jet, tone, accepted)
  {
    if image.None? || image.value == [] || filter.None? || filter.value == [] {
      return Fail(400, MissingParameter);
    }
    var loaded := store.Read(Basename(image.value));
    if loaded.None? {
      return Fail(500, NotLoaded);
    }
    var f := Parse(filter.value);
    if f.None? {
      return Fail(400, InvalidFilter);
    }
    var filtered := Apply(f.value, loaded.value, jet, tone);
    var name := FilteredName(image.value, filter.value);
    AcceptedNamesArePlain(filter.value);
    FilteredNameShape(image.value, filter.value);
    PngNameIsFileName(name);
    store.Write(name, filtered, accepted);
    var saved := store.Exists(name);
    if !saved {
      return Fail(500, NotSaved);
    }
    return Filtered(name);
  }

  // ---------------------------------------------------------------------------
  // Properties across requests

  /** Filtering never overwrites the artifact it reads: the filtered name is never
      the basename it was derived from. */
  lemma FilteredNameIsNotSource(image: string, filter: string)
    ensures FilteredName(image, filter) != Basename(image)
  {
    var b := Basename(image);
    var stem := Stem(b);
    var n := FilteredName(image, filter);
    StemIsTextBeforeFirstDot(b);
    assert n[|stem|] == '_';
    if |stem| < |b| {
      assert b[|stem|] == '.';
    } else {
      assert |n| > |b|;
    }
  }

  /** A filter request depends on the `image` parameter only through the artifact
      it loads and the name it writes. */
  lemma SameNamesSameOutcome(s: Folders, image: string, other: string, filter: Option<string>,
                             jet: Image -> Image, tone: Image -> Image, accepted: bool)
    requires image != [] && other != [] && Basename(image) == Basename(other)
    ensures FilterRequest(s, Some(image), filter, jet, tone, accepted)
         == FilterRequest(s, Some(other), filter, jet, tone, accepted)
  {
  }

  /** A directory prefix in the `image` parameter changes neither the artifact
      loaded nor the artifact written. */
  lemma DirectoryPrefixIgnored(s: Folders, dir: string, image: string, filter: Option<string>,
                               jet: Image -> Image, tone: Image -> Image, accepted: bool)
    requires image != []
    ensures FilterRequest(s, Some(dir + "/" + image), filter, jet, tone, accepted)
         == FilterRequest(s, Some(image), filter, jet, tone, accepted)
  {
    BasenameIgnoresDirectory(dir, image);
    if filter.Some? {
      FilteredNameIgnoresDirectory(dir, image, filter.value);
    }
    SameNamesSameOutcome(s, dir + "/" + image, image, filter, jet, tone, accepted);
  }

  /** An `image` parameter whose basename names a folder ("x/", "x/.", "..") cannot
      be loaded: cv2.imread of a folder fails, and the request is answered 500. */
  lemma FolderImageNotLoaded(s: Folders, image: string, filter: string,
                             jet: Image -> Image, tone: Image -> Image, accepted: bool)
    requires FoldersDoNotDecode(s.processed)
    requires HasParameters(Some(image), Some(filter)) && IsFolderName(Basename(image))
    ensures FilterRequest(s, Some(image), Some(filter), jet, tone, accepted) == Outcome(Fail(500, NotLoaded), s)
  {
    assert !Loadable(s, Some(image));
  }

  /** An entry that exists but does not decode (a file of another kind, a subfolder)
      is answered 500 "Image could not be loaded", and nothing is written. */
  lemma UndecodableArtifactNotLoaded(s: Folders, image: string, filter: string,
                                     jet: Image -> Image, tone: Image -> Image, accepted: bool)
    requires HasParameters(Some(image), Some(filter))
    requires Basename(image) in s.processed && s.processed[Basename(image)].Unreadable?
    ensures FilterRequest(s, Some(image), Some(filter), jet, tone, accepted) == Outcome(Fail(500, NotLoaded), s)
  {
  }

  /** When the write is refused but a file of the same name is already there, the
      existence check passes: the request reports success and the folder keeps the
      earlier image. */
  lemma StaleArtifactMasksRefusedWrite(s: Folders, image: string, filter: string,
                                       jet: Image -> Image, tone: Image -> Image)
    requires HasParameters(Some(image), Some(filter)) && Loadable(s, Some(image)) && Parse(filter).Some?
    requires FilteredName(image, filter) in s.processed
    ensures FilterRequest(s, Some(image), Some(filter), jet, tone, false)
         == Outcome(Filtered(FilteredName(image, filter)), s)
  {
  }

  /** An accepted write of a well-formed request: the outcome in one equation. */
  lemma AcceptedFilterRequest(s: Folders, image: string, filter: string, jet: Image -> Image, tone: Image -> Image)
    requires HasParameters(Some(image), Some(filter)) && Loadable(s, Some(image)) && Parse(filter).Some?
    ensures FilterRequest(s, Some(image), Some(filter), jet, tone, true)
         == Outcome(Filtered(FilteredName(image, filter)),
                    s.(processed := s.processed[FilteredName(image, filter) :=
                                      Picture(Apply(Parse(filter).value, s.processed[Basename(image)].img, jet, tone))]))
  {
  }

  /** Last writer wins: two accepted filter requests whose artifacts share a derived
      name both succeed, and the name ends up holding the second result only. */
  lemma LastFilterWins(s: Folders, a: string, b: string, filter: string,
                       jet: Image -> Image, tone: Image -> Image)
    requires HasParameters(Some(a), Some(filter)) && HasParameters(Some(b), Some(filter))
    requires Loadable(s, Some(a)) && Loadable(s, Some(b)) && Parse(filter).Some?
    requires FilteredName(a, filter) == FilteredName(b, filter)
    ensures var first := FilterRequest(s, Some(a), Some(filter), jet, tone, true);
            var second := FilterRequest(first.state, Some(b), Some(filter), jet, tone, true);
            && first.response == Filtered(FilteredName(a, filter))
            && second.response == Filtered(FilteredName(a, filter))
            && second.state.processed == s.processed[FilteredName(a, filter) :=
                 Picture(Apply(Parse(filter).value, s.processed[Basename(b)].img, jet, tone))]
  {
    var n, f := FilteredName(a, filter), Parse(filter).value;
    var first := FilterRequest(s, Some(a), Some(filter), jet, tone, true);
    var stored := s.processed[n := Picture(Apply(f, s.processed[Basename(a)].img, jet, tone))];
    assert first == Outcome(Filtered(n), s.(processed := stored)) by {
      AcceptedFilterRequest(s, a, filter, jet, tone);
    }
    var second := FilterRequest(first.state, Some(b), Some(filter), jet, tone, true);
    assert second == Outcome(Filtered(n), first.state.(processed := stored[n := Picture(Apply(f, s.processed[Basename(b)].img, jet, tone))])) by {
      FilteredNameIsNotSource(b, filter);
      assert stored[Basename(b)] == s.processed[Basename(b)];
      AcceptedFilterRequest(first.state, b, filter, jet, tone);
    }
  }

  /** A successful upload: the outcome in one equation. */
  lemma ColorizedRequest(s: Folders, filename: string, img: Image, eccv16: Colorizer, siggraph17: Colorizer)
    requires filename != [] && eccv16(img).Some? && siggraph17(img).Some?
    ensures ProcessRequest(s, Some(FilePart(filename, Picture(img))), eccv16, siggraph17)
         == Outcome(Colorized(filename, EccvName(filename), SiggraphName(filename)),
                    Folders(s.uploads[filename := Picture(img)],
                            s.processed[EccvName(filename) := Picture(eccv16(img).value)][SiggraphName(filename) := Picture(siggraph17(img).value)]))
  {
  }

  /** For an upload name without '/' but with a '.', both colorized artifacts are
      their own basenames and filter to the name built from the text before the '.'. */
  lemma ColorizedNamesFilterAlike(filename: string, filter: string)
    requires '/' !in filename && '.' in filename
    ensures Basename(EccvName(filename)) == EccvName(filename)
    ensures Basename(SiggraphName(filename)) == SiggraphName(filename)
    ensures FilteredName(EccvName(filename), filter) == Stem(filename) + "_" + filter + Png
    ensures FilteredName(SiggraphName(filename), filter) == Stem(filename) + "_" + filter + Png
  {
    SuffixesArePlain();
    PlainNameIsBasename(filename);
    assert Basename(EccvName(filename)) == EccvName(filename) by {
      BasenameAppend(filename, EccvSuffix);
    }
    assert Basename(SiggraphName(filename)) == SiggraphName(filename) by {
      BasenameAppend(filename, SiggraphSuffix);
    }
    FilteringDropsModelTag(filename, filter);
  }

  /** Upload `x.jpg`, then filter both colorized artifacts with the same filter:
      both requests succeed under the one name `x_<filter>.png`, which keeps only
      the image filtered from the second model's output. */
  lemma ColorizeThenFilterBoth(s: Folders, filename: string, img: Image, eccv16: Colorizer, siggraph17: Colorizer,
                               filter: string, jet: Image -> Image, tone: Image -> Image)
    requires '/' !in filename && '.' in filename
    requires eccv16(img).Some? && siggraph17(img).Some? && Parse(filter).Some?
    ensures var colorized := ProcessRequest(s, Some(FilePart(filename, Picture(img))), eccv16, siggraph17);
            var first := FilterRequest(colorized.state, Some(EccvName(filename)), Some(filter), jet, tone, true);
            var second := FilterRequest(first.state, Some(SiggraphName(filename)), Some(filter), jet, tone, true);
            var name := Stem(filename) + "_" + filter + Png;
            && colorized.response.Colorized?
            && first.response == Filtered(name) && second.response == Filtered(name)
            && second.state.processed[name] == Picture(Apply(Parse(filter).value, siggraph17(img).value, jet, tone))
  {
    var e, g := EccvName(filename), SiggraphName(filename);
    var c := Folders(s.uploads[filename := Picture(img)], s.processed[e := Picture(eccv16(img).value)][g := Picture(siggraph17(img).value)]);
    assert ProcessRequest(s, Some(FilePart(filename, Picture(img))), eccv16, siggraph17) == Outcome(Colorized(filename, e, g), c) by {
      ColorizedRequest(s, filename, img, eccv16, siggraph17);
    }
    ColorizedNamesFilterAlike(filename, filter);
    assert e in c.processed && g in c.processed;
    LastFilterWins(c, e, g, filter, jet, tone);
  }

  /** When both models keep the upload's dimensions, so do both stored artifacts. */
  lemma ArtifactsKeepDimensions(s: Folders, filename: string, img: Image, eccv16: Colorizer, siggraph17: Colorizer)
    requires filename != [] && eccv16(img).Some? && siggraph17(img).Some?
    requires SameDims(eccv16(img).value, img) && SameDims(siggraph17(img).value, img)
    ensures var r := ProcessRequest(s, Some(FilePart(filename, Picture(img))), eccv16, siggraph17);
            && SameDims(r.state.processed[EccvName(filename)].img, img)
            && SameDims(r.state.processed[SiggraphName(filename)].img, img)
  {
    ColorizedNames(filename);
  }

  lemma FilteredArtifactKeepsDimensions(s: Folders, image: string, filter: string,
                                        jet: Image -> Image, tone: Image -> Image)
    requires HasParameters(Some(image), Some(filter)) && Loadable(s, Some(image))
    requires filter == "light" || filter == "effect"
    ensures var r := FilterRequest(s, Some(image), Some(filter), jet, tone, true);
            && r.response == Filtered(FilteredName(image, filter))
            && SameDims(r.state.processed[FilteredName(image, filter)].img, s.processed[Basename(image)].img)
  {
  }
}
