# Black-and-white image colorizer: request handlers, naming and filters

This project models the Flask server `colorization-master/demo_release.py`, which
has two endpoints:

- `POST /process` saves an uploaded picture into the `uploads` folder. It then
  colorizes the picture with the two pretrained networks, ECCV16 and SIGGRAPH17,
  and stores the results in the `static` (processed) folder as
  `<upload>_eccv16.png` and `<upload>_siggraph17.png`.
- `GET /apply_filter?image=…&filter=…` loads a processed artifact by the basename
  of `image`. It applies one of four filters, `light`, `effect`, `magic` or
  `color_toning`, and writes the result as
  `<basename before its first '.'>_<filter>.png`. It then confirms that the
  file exists.

The model has five modules:

- `Imaging`: 8-bit, 3-channel raster images and their total intensity.
- `Naming`: artifact names, POSIX `os.path.basename`, and Python's
  `split('.')[0]`.
- `Filters`: the filter names and the two pixel rules whose constants the
  handler fixes. `light` is `convertScaleAbs(alpha=1.2, beta=30)`. `effect` is a
  3×3 sharpen `filter2D` with OpenCV's default reflect-101 border. Filters also
  holds the dispatch from a name to its filter.
- `Store`: the two folders as maps, and the `ArtifactStore` class whose methods
  save, load, write and test for existence.
- `Handlers`: each endpoint twice. Once as a pure function from the folder state
  and the request to the response and the new state. Once as a method that performs
  the handler's steps against an `ArtifactStore` and is proved equal to that
  function.

Behaviours the model makes explicit:

- **`light` rounding.** `light` computes `min(255, (6v + 152) div 5)`. This is
  the exact round-to-nearest of `1.2v + 30`, whose fractional part is always a
  multiple of 1/5 and never 1/2.
- **`light` does not always brighten.** It strictly raises the total (and so
  the mean) intensity of an image exactly when some channel value is below 255.
  An all-white image comes back unchanged (`BrightenRaisesTotal`).
- **`effect` border.** `filter2D` is called without a border argument, so
  OpenCV's default reflect-101 applies: a missing neighbour is read from the
  mirror position one step inside the image (`Reflect101`, `SharpenTopRow`).
- **Both artifacts of an upload share one filtered name.** Filtering cuts the
  name at the first `.`. When the upload's basename contains a `.`, the eccv16 and
  siggraph17 artifacts therefore filter to the same name, and the second request
  overwrites the first (`FilteringDropsModelTag`, `ColorizeThenFilterBoth`).
- **A refused write can report success.** The existence check comes after
  `imwrite`. If the write is refused while an older file of the same name
  exists, the check passes and the old image stays
  (`StaleArtifactMasksRefusedWrite`).

## Model

The functions that define the model have no rows of their own. Their rows are the
lemmas that characterise them at the same lines:
- `Naming.Basename` (line 84) is characterised by `BasenameIsLastComponent`.
- `Naming.Stem` and `Naming.FilteredName` (line 111) are characterised by
  `StemIsTextBeforeFirstDot` and `FilteredNameShape`.
- `Naming.EccvName` and `Naming.SiggraphName` (lines 56-57) are characterised by
  `ColorizedNames`.
- The request checks `Handlers.HasParameters` (line 80) and `Handlers.Loadable`
  (lines 84-88) are characterised by `FilterRequest`'s contract.
- `Filters.Sample` and `Filters.Correlate` (line 95) are characterised by
  `SharpenInterior`, `SharpenTopRow` and `UnitKernelFixesUniform`.

| member | source | states |
|---|---|---|
| Naming.BasenameIsLastComponent | colorization-master/demo_release.py:84 | the basename is the suffix of the path after its last '/', holds no '/', and is the whole path when there is no '/' |
| Naming.BasenameIgnoresDirectory | colorization-master/demo_release.py:84 | a directory prefix `dir/` never changes the basename |
| Naming.BasenameAppend | colorization-master/demo_release.py:84 | appending text without '/' extends the basename by exactly that text |
| Naming.PlainNameIsBasename | colorization-master/demo_release.py:84 | a name without '/' is its own basename |
| Naming.StemIsTextBeforeFirstDot | colorization-master/demo_release.py:111 | `split('.')[0]` is the longest '.'-free prefix, followed in the name by a '.' whenever it is shorter than the name |
| Naming.StemAtFirstDot | colorization-master/demo_release.py:111 | the stem is the prefix ending at the first '.' |
| Naming.StemAppend | colorization-master/demo_release.py:111 | the stem of a concatenation is the first part's stem if it holds a '.', else the first part followed by the second's stem |
| Naming.ColorizedNames | colorization-master/demo_release.py:56-57 | both colorized names start with the whole upload name, end in ".png", and differ |
| Naming.ColorizedNamesNeverCollide | colorization-master/demo_release.py:56-57 | no eccv16 name of any upload equals a siggraph17 name of any upload |
| Naming.ColorizedNamesInjective | colorization-master/demo_release.py:56-57 | two uploads get the same colorized name if and only if they have the same name |
| Naming.SuffixesArePlain | colorization-master/demo_release.py:56-57 | neither model suffix holds a '/', so colorized names stay inside the processed folder |
| Naming.ModelTagStems | colorization-master/demo_release.py:56-57 | cut at their first '.', the two suffixes leave the tags `_eccv16` and `_siggraph17` |
| Naming.ModelTaggedNamesDiffer | colorization-master/demo_release.py:111 | filtered names that keep different model tags differ |
| Naming.FilteredNameIgnoresDirectory | colorization-master/demo_release.py:111 | the filtered name ignores any directory prefix of the `image` parameter |
| Naming.FilteredNameShape | colorization-master/demo_release.py:111-113 | for a filter name without '.' or '/', the filtered name has no '/', ends in ".png", and has no '.' before that ending |
| Naming.FilteredColorizedNameWithDot | colorization-master/demo_release.py:111 | when the upload's basename holds a '.', a colorized artifact filters to the name built from the text before that '.' |
| Naming.FilteredColorizedNameWithoutDot | colorization-master/demo_release.py:111 | when the upload's basename holds no '.', the filtered name keeps the whole basename and the model tag |
| Naming.FilteringDropsModelTag | colorization-master/demo_release.py:111 | the two colorized artifacts of one upload filter to the same name if and only if the upload's basename holds a '.' |
| Filters.Parse | colorization-master/demo_release.py:91-105 | a filter is selected exactly for the four accepted names, compared case-sensitively, and the name selects the filter it names |
| Filters.ParseName | colorization-master/demo_release.py:91-98 | each filter is selected by its own name |
| Filters.AcceptedNamesArePlain | colorization-master/demo_release.py:91-98 | no accepted filter name holds '.' or '/' |
| Filters.Saturate | colorization-master/demo_release.py:92-95 | an 8-bit saturating cast: in-range values are kept, negatives become 0, values above 255 become 255 |
| Filters.Brighten | colorization-master/demo_release.py:92 | the result is the integer nearest 1.2v+30, or 255 when that exceeds 255, and is never below v or below 30 |
| Filters.BrightenMonotone | colorization-master/demo_release.py:92 | `light` preserves the order of channel values |
| Filters.BrightenSaturatesFrom188 | colorization-master/demo_release.py:92 | `light` yields 255 exactly for values 188 and above |
| Filters.BrightenStrictlyRaises | colorization-master/demo_release.py:92 | `light` raises a value strictly exactly when the value is below 255 |
| Filters.BrightenImage | colorization-master/demo_release.py:92 | the output has the input's dimensions, and each channel value is `light` of the input value |
| Filters.BrightenImageNeverDarkens | colorization-master/demo_release.py:92 | no channel value decreases, every value becomes at least 30, and the dimensions are kept |
| Filters.BrightenRaisesTotal | colorization-master/demo_release.py:92 | total (hence mean) intensity never falls, and rises strictly if and only if some channel value is below 255 |
| Filters.Reflect101 | colorization-master/demo_release.py:95 | the border index is in range, positions inside are kept, and one step outside reflects onto the second element (a one-element axis reads index 0) |
| Filters.SharpenImage | colorization-master/demo_release.py:94-95 | the sharpened image has the input's dimensions |
| Filters.SharpenKernelIsUnit | colorization-master/demo_release.py:94 | the sharpen weights sum to 1 |
| Filters.UnitKernelFixesUniform | colorization-master/demo_release.py:94-95 | a 3×3 kernel whose weights sum to 1 returns a uniform image's value at every position, borders included |
| Filters.SharpenFixesUniform | colorization-master/demo_release.py:94-95 | `effect` returns a uniform image unchanged |
| Filters.SharpenInterior | colorization-master/demo_release.py:94-95 | away from the border, `effect` is five times the centre minus its four edge neighbours, saturated |
| Filters.SharpenTopRow | colorization-master/demo_release.py:94-95 | on the top row, the missing upper neighbour is read from the second row |
| Filters.Apply | colorization-master/demo_release.py:91-103 | `light` returns BrightenImage of the input and `effect` SharpenImage of it, both of the input's dimensions; `magic` and `color_toning` return the colormap and toning transforms of the input |
| Store.Load | colorization-master/demo_release.py:84-85 | `cv2.imread` of an artifact (and `load_img` of an upload, line 50) yields an image exactly when the entry exists and decodes as a picture, and then yields that picture |
| Store.ArtifactStore.constructor | colorization-master/demo_release.py:23-24 | the folders start with whatever entries they already hold (`exist_ok=True`), decodable or not, and the store starts valid |
| Store.ArtifactStore.SaveUpload | colorization-master/demo_release.py:48 | the upload is stored under its name, replacing any earlier file; the processed folder is unchanged |
| Store.ArtifactStore.LoadUpload | colorization-master/demo_release.py:50 | the result is the decoded upload of that name |
| Store.ArtifactStore.Write | colorization-master/demo_release.py:62-113 | `plt.imsave` of the colorized artifacts (lines 62-63, always accepted) and `cv2.imwrite` of a filtered one (line 113): an accepted write stores the image as a decodable picture under the name, replacing any entry; a refused one changes nothing; uploads are unchanged; a write under a file name (not "", "." or "..") keeps the store valid |
| Store.ArtifactStore.Exists | colorization-master/demo_release.py:115 | true exactly when the name is in the processed folder, whether or not that entry decodes |
| Store.ArtifactStore.Read | colorization-master/demo_release.py:85 | the result is the processed entry of that name if it exists and decodes, and None otherwise |
| Naming.PngNameIsFileName | colorization-master/demo_release.py:111-113 | a name ending in ".png" is never a folder name "", "." or ".." |
| Handlers.FolderImageNotLoaded | colorization-master/demo_release.py:84-88 | an `image` parameter whose basename is "", "." or ".." (such as `x/`) cannot be loaded and is answered 500 "Image could not be loaded", with nothing written |
| Handlers.UndecodableArtifactNotLoaded | colorization-master/demo_release.py:84-88 | an entry that exists but does not decode (another kind of file, a subfolder) is answered 500 "Image could not be loaded", with nothing written |
| Handlers.ProcessRequest | colorization-master/demo_release.py:37-72 | status 400 exactly for a missing file part ("No file uploaded") or an empty name ("No selected file"), with nothing saved; otherwise the upload is saved; success exactly when it decodes and both models succeed; on success both artifacts are stored under their names; every other failure is the catch-all 500 and writes no artifact; the status is 200, 400 or 500 |
| Handlers.ProcessImage | colorization-master/demo_release.py:37-72 | the handler's steps on the store produce exactly the response and the new folders that ProcessRequest gives, and keep folder names out of the processed folder |
| Handlers.ColorizedRequest | colorization-master/demo_release.py:46-69 | a decodable upload whose two colorizations succeed yields the three names and the two stored artifacts |
| Handlers.FilterRequest | colorization-master/demo_release.py:75-121 | uploads are never touched; the checks come in order (missing parameter 400; artifact absent or undecodable 500; invalid filter 400); a refused write of a name not already present is answered 500 "Filtered image not saved correctly"; no error writes; success exactly when the request is well formed and the filtered name exists after the write; on success the filtered name is reported and holds the filtered source if the write was accepted |
| Handlers.ApplyFilter | colorization-master/demo_release.py:75-121 | the handler's steps on the store produce exactly the response and the new folders that FilterRequest gives, and keep folder names out of the processed folder |
| Handlers.AcceptedFilterRequest | colorization-master/demo_release.py:80-118 | a well-formed request whose write is accepted reports the filtered name and stores the filtered source there |
| Handlers.FilteredNameIsNotSource | colorization-master/demo_release.py:111 | the filtered name never equals the basename it was read from, so filtering never overwrites its source |
| Handlers.SameNamesSameOutcome | colorization-master/demo_release.py:84-113 | two `image` parameters with the same basename give the same outcome |
| Handlers.DirectoryPrefixIgnored | colorization-master/demo_release.py:84-113 | prefixing the `image` parameter with a directory does not change the outcome |
| Handlers.StaleArtifactMasksRefusedWrite | colorization-master/demo_release.py:113-116 | a refused write whose name already exists, as any entry, decodable or not, reports success and leaves the folders unchanged |
| Handlers.LastFilterWins | colorization-master/demo_release.py:111-113 | two accepted requests whose filtered names coincide both succeed, and the name holds the second result only |
| Handlers.ColorizedNamesFilterAlike | colorization-master/demo_release.py:111 | for an upload name with a '.' and no '/', both colorized artifacts are their own basenames and filter to `<text before '.'>_<filter>.png` |
| Handlers.ColorizeThenFilterBoth | colorization-master/demo_release.py:56-113 | after uploading `x.jpg`, filtering both artifacts with one filter reports the same name twice, and that name holds only the image filtered from the siggraph17 output |
| Handlers.ArtifactsKeepDimensions | colorization-master/demo_release.py:53-63 | when both colorizations keep the upload's dimensions, so do both stored artifacts |
| Handlers.FilteredArtifactKeepsDimensions | colorization-master/demo_release.py:91-95 | an accepted `light` or `effect` request stores an image with the source artifact's dimensions |

## Left out

- HTTP, Flask routing, CORS, the socket host lookup, and the URL strings in the JSON bodies are not modelled. A response carries the artifact names, not the URLs.
- The `print` of the filtered image's shape (line 108) and the static-file routes are not modelled.
- The colorization networks are opaque parameters `Image -> Option<Image>`, where `None` stands for an exception. Each stands for everything between the decoded upload and the image a later filter request reads back: `preprocess_img`, the ECCV16/SIGGRAPH17 forward pass, `postprocess_tens`, the float-to-8-bit PNG encoding of `plt.imsave` (lines 62-63) and the BGR decoding of `cv2.imread` (line 85). Their float arithmetic is outside the model. `load_img` (line 50) is `Store.Load` on the upload folder.
- Model loading at start-up (lines 29-34) is not modelled. The handlers assume both models are loaded.
- `magic` (`applyColorMap` with the JET table) and `color_toning` (LAB conversion and histogram equalisation of L) are opaque parameters `jet` and `tone`. Their colour arithmetic is inside OpenCV.
- `light` uses exact integer arithmetic in place of OpenCV's single-precision `1.2v + 30`. The exact value is never within 1/10 of a half-integer, so float error cannot change the rounding; this is argued, not modelled.
- The file system is two maps. Whether `cv2.imwrite` succeeds is the parameter `accepted`. `file.save` and `plt.imsave` are taken to always succeed, and their failure (an exception, status 500) is not modelled.
- Store.ArtifactStore.Write: a write under ProcessImage is always accepted, because `plt.imsave` raises rather than failing silently.
- Store.Load: decoding is a property of the stored entry (`Picture` or `Unreadable`). The image format and its pixel decoding are not modelled.
- `secure_filename` (line 46) is not modelled; the upload name is used as sent. Windows path separators are not modelled; `os.path.basename` is POSIX.
- Handlers.ProcessRequest: an exception's message text is not modelled. Every exception is the single response `Crash` with status 500.
- Handlers.FilterRequest: a basename of "", "." or ".." names a folder, which `cv2.imread` cannot read. The model makes such names undecodable by the store's invariant (`Handlers.FolderImageNotLoaded`), not inside FilterRequest.
- Handlers.FilterRequest: `apply_filter`'s catch-all (lines 120-121) is not modelled. `cv2.imread`, the four filters and `cv2.imwrite` are taken not to raise. `imwrite`'s silent refusal is the parameter `accepted`.
- Store.ArtifactStore.constructor: the folders' contents at start-up are parameters, and each entry may or may not decode. This covers Flask's own static assets, other files and subfolders: they exist for `os.path.exists` but do not load. The model assumes only that the names "", "." and ".." never decode as a picture. The handler methods assume the store invariant rather than an empty start.
- Concurrent requests are not modelled. Requests are handled one after another against the folder state.
