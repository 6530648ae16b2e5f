# sensor-mcp tool server: a verified model of its logic

sensor-mcp is an MCP tool server around an auto-labelling pipeline. A user
fetches photos from Unsplash or imports a folder of images. The user then
defines an ontology (prompt -> class name) and picks a base model (GroundedSAM)
and a target model (YOLOv8). The base model labels the images and the target
model is trained on the labels. Almost all of the heavy work is done by
libraries. What this project models is the logic the repository itself
contains:

- `ImageUtils` (`src/image_utils.py`):
  - the image-file filter over a directory listing;
  - the Unsplash parameter validator;
  - the paginated search loop: page budget, first-bad-page abort, early stop, truncation;
  - the batch download loop: per-item isolation, count, `<id>.jpg` writes that overwrite.
- `Models` (`src/models.py`):
  - the object-list parser;
  - the insertion-ordered prompt -> class dictionary;
  - the base and target model name guards, with their check order;
  - the guards of training and the `STATE` writes of each.
- `Server` (`src/server.py`): the guard sequences of the four tool handlers,
  `import_images_from_folder`, `label_images`, `train_model` and
  `fetch_unsplash_images`, and the `STATE` updates each makes on its success
  path only. It also covers the newest-`.pt` selection at the end of `train_model`.
- `AppState` (`src/state.py`):
  - the constants;
  - the `STATE` table, as a class whose fields the handlers assign;
  - the part of the filesystem the tools write, as a class holding a set of
    directories and a map from path to bytes.
- `Text`: the Python `str` operations the code relies on (`strip`, `lower`,
  `replace`, `split`, `endswith`), with `split`/`join` proved inverse.
- `Wrappers`: `Option`, standing for Python's `None`.

Everything the operating system, the network or a library answers is a
parameter:

| source of the answer | parameter |
|---|---|
| a directory listing | `seq<DirEntry>` |
| the search pages | `respond: int -> PageOutcome` |
| per-item downloads | `net: nat -> Fetch` and `ioFails: nat -> bool` |
| folder creation | `mkdirError` |
| copies | `copyError` |
| model loading | `LoadOutcome` |
| training | `TrainOutcome` |
| labelling | `labelError` and `yamlAfter` |
| `.pt` files with modification times | `seq<WeightFile>` |

The loops (search, download, copy, newest file) are methods with loop
invariants. Each is proved against a specification function, and the
properties of the source are proved as lemmas about those functions.

Two handlers are modelled as the code is written, not as their docstrings
suggest:

- `train_model` passes an `output_dir` keyword that `train_target_model` does
  not accept. Past its two guards it therefore raises `TypeError`, which no
  handler catches. `Server.TrainModel` says so, and it never trains or records
  weights. The `.pt` selection that follows the call in the source is modelled
  on its own (`Server.RecordNewestWeights`); as written it is unreachable.
- `import_images_from_folder` hands bare file names to `shutil.copy2`, so what
  is copied depends on the working directory. The model records only which
  copies completed and the first failure, not where files end up.

## Model

| member | source | states |
|---|---|---|
| `Text.Strip` | src/models.py:39 | `strip()` yields "" exactly when the input is all Python whitespace, and otherwise neither end of the result is whitespace |
| `Text.StripIsSlice` | src/models.py:39 | `strip()` is a slice of its input with only whitespace cut off before and after it |
| `Text.JoinSplit` | src/models.py:39 | splitting on the comma loses nothing: joining the pieces with commas gives back the input |
| `Text.SplitJoin` | src/models.py:39 | comma-free pieces are recovered by splitting their comma-join |
| `AppState.State.constructor` | src/state.py:30-41 | the initial `STATE`: no models, no ontology, no trained path; folders under `data/`; the API key from the environment |
| `ImageUtils.EndsWithAnySpec` | src/image_utils.py:33 | `any(... endswith(ext) for ext in ...)` holds exactly when some listed extension ends the name |
| `ImageUtils.IsImageFileSpec` | src/image_utils.py:32-33 | an entry is an image file exactly when it is a regular file and its lower-cased name ends with a supported extension |
| `ImageUtils.IsImageFileIgnoresCase` | src/image_utils.py:33 | a name and its lower-cased form are classified alike |
| `ImageUtils.GetImageFiles` | src/image_utils.py:30-34 | the filter returns at most as many names as the listing has |
| `ImageUtils.GetImageFilesMembers` | src/image_utils.py:30-34 | a name is returned exactly when some listed entry of that name is a regular file whose lower-cased name ends in a supported extension |
| `ImageUtils.GetImageFilesAppend` | src/image_utils.py:30-34 | listing order is kept: the scan of a concatenation is the concatenation of the scans |
| `ImageUtils.ExampleEntriesClassified` | src/image_utils.py:33 | `a.jpg` and `d.bmp` are image files |
| `ImageUtils.TextFileRejected` | src/image_utils.py:33 | `b.txt` is not an image file |
| `ImageUtils.UpperCaseExtensionMatches` | src/image_utils.py:33 | the extension match ignores case: `C.PNG` is kept |
| `ImageUtils.GetImageFilesExample` | src/image_utils.py:30-34 | the listing `a.jpg, b.txt, C.PNG, d.bmp` gives `a.jpg, C.PNG, d.bmp` as bare names |
| `ImageUtils.ValidateUnsplashParams` | src/image_utils.py:37-65 | an empty key is refused whatever the folder, and nothing is created; with a key, no folder gives the working directory, an existing folder is returned unchanged, and a missing one is created and returned unless creation raises, which is refused with that error |
| `ImageUtils.PagesNeeded` | src/image_utils.py:79-80 | the page budget is the ceiling of `max_images / 30`: enough pages of 30 for `max_images` records, one fewer is not |
| `ImageUtils.SliceTo` | src/image_utils.py:120 | for a non-negative bound, `[:n]` is the first `n` records, or all of them when there are fewer |
| `ImageUtils.Search` | src/image_utils.py:79-124 | the reference answer of the search: a success holds between 1 and `max_images` records; any failure other than "no images" is the error of the last page requested |
| `ImageUtils.StopPageBounds` | src/image_utils.py:83-110 | the stopping page lies in the budget; every page before it was good, full and left the search short; stopping early means that page did not continue |
| `ImageUtils.PagesRequestedSpec` | src/image_utils.py:79-106 | pages 1..k are requested, with k within the budget and zero exactly for a non-positive count; each page before the last continued the search; stopping before the budget means the last page was bad, short, or reached the count |
| `ImageUtils.SearchFailsOnFirstBadPage` | src/image_utils.py:92-117 | the first bad page (non-200, no `results`, a raised exception) ends the search with its error, and no later page is requested |
| `ImageUtils.SearchFoundSpec` | src/image_utils.py:119-124 | a success is a non-empty prefix of the concatenated page results, at most `max_images` long |
| `ImageUtils.CollectedFullPages` | src/image_utils.py:101-102 | full good pages accumulate thirty records each, in page order |
| `ImageUtils.SearchFullPagesYieldMax` | src/image_utils.py:79-124 | when the server has full pages, the search returns exactly `max_images` records |
| `ImageUtils.SearchUnsplashImages` | src/image_utils.py:68-124 | the loop answers what the search specification says, and performs the requests `Get(1)..Get(k)` with a pause between consecutive requests only |
| `ImageUtils.ItemWriteSpec` | src/image_utils.py:139-153 | the contract of `ItemWrite`: an item is written exactly when it has a URL, its GET answered 200, it has an id and the write did not fail, into `<full_path>/<id>.jpg` with the response body |
| `ImageUtils.WritesUpTo` | src/image_utils.py:137-163 | the first k items produce at most k writes |
| `ImageUtils.ApplyWritesStep` | src/image_utils.py:147-149 | one more saved item adds one write and overwrites its path; a skipped one changes nothing |
| `ImageUtils.DownloadOne` | src/image_utils.py:138-151 | one loop iteration saves the item and writes its file exactly when the item write exists, and otherwise leaves the files alone |
| `ImageUtils.DownloadImages` | src/image_utils.py:127-163 | the count is the number of writes, at most the batch size, and the files are the old files with the writes performed in item order |
| `ImageUtils.WritesUpToNamed` | src/image_utils.py:147-149 | every write among the first k items is `<full_path>/<id>.jpg` of one of them whose GET answered 200 |
| `ImageUtils.SavedWritesNamed` | src/image_utils.py:147-149 | every written file is `<full_path>/<id>.jpg` of an item whose GET answered 200, holding that response's body |
| `ImageUtils.WritesUpToNone` | src/image_utils.py:137-163 | among the first k items, nothing is written exactly when every item is skipped |
| `ImageUtils.WritesUpToAll` | src/image_utils.py:137-163 | among the first k items, k files are written exactly when no item is skipped |
| `ImageUtils.DownloadCountExtremes` | src/image_utils.py:137-163 | the count is 0 exactly when every item fails, and the batch size exactly when none does |
| `ImageUtils.SavedWritesComplete` | src/image_utils.py:137-163 | every item that is not skipped has its write saved, whatever happened to the items before it: a failure never stops later items |
| `ImageUtils.SavedWritesCount` | src/image_utils.py:137-163 | the returned count is exactly the number of items that are not skipped |
| `ImageUtils.WritesUpToComplete` | src/image_utils.py:137-163 | among the first `k` items, each one not skipped has its write in the list |
| `ImageUtils.WritesUpToCount` | src/image_utils.py:137-163 | among the first `k` items, the number of writes is the number of items not skipped |
| `ImageUtils.ApplyWritesOverlay` | src/image_utils.py:147-149 | writing files overlays the existing ones |
| `ImageUtils.ApplyWritesLastWins` | src/image_utils.py:147-149 | the last write to a path decides its content: later files overwrite earlier ones |
| `ImageUtils.ApplyWritesUntouched` | src/image_utils.py:147-149 | a path no item writes keeps its content or stays absent |
| `ImageUtils.DownloadIdempotent` | src/image_utils.py:127-163 | repeating a download with the same answers over its own result leaves the same files |
| `Models.StrippedPieces` | src/models.py:39 | the parsed objects are no more than the pieces, each non-empty and without whitespace at either end |
| `Models.StrippedPiecesMembers` | src/models.py:39 | an object is kept exactly when it is the non-empty stripped form of some piece |
| `Models.StrippedPiecesAppend` | src/models.py:39 | the objects keep the order of the pieces: parsing distributes over concatenation |
| `Models.SplitPiecesBlank` | src/models.py:39 | the pieces of `split(",")` are all blank exactly when the input holds only commas and whitespace |
| `Models.ParseObjectsSpec` | src/models.py:39-42 | every parsed object is trimmed and comma-free, and the object list is empty (so refused) exactly when the input holds only commas and whitespace |
| `Models.StrippedPiecesEmpty` | src/models.py:39-42 | the object list is empty exactly when every comma-separated piece is whitespace only |
| `Models.ClassName` | src/models.py:47 | a class name has the prompt's length; each character is the prompt's, with a space turned into `_`, then lower-cased; so no spaces and no upper-case ASCII letter remain |
| `Models.BuildOntology` | src/models.py:47 | the dictionary has at most one entry per object |
| `Models.InsertPresent` | src/models.py:47 | a repeated prompt leaves the dictionary as it was |
| `Models.InsertAbsent` | src/models.py:47 | a new prompt is appended after all earlier first occurrences, with its class name |
| `Models.BuildOntologySpec` | src/models.py:47 | the dictionary has the distinct objects as keys in first-occurrence order, each mapped to its spaces-to-underscores, lower-cased class name |
| `Models.OntologyClassCount` | src/models.py:47-52 | the reported class count is the number of distinct objects |
| `Models.CaseVariantsCollide` | src/models.py:47-51 | `Cat, cat` gives two entries whose class list is `cat, cat` |
| `Models.CreateOntology` | src/models.py:28-54 | an empty object list is refused and `STATE["ontology"]` is left alone; otherwise it becomes the built dictionary and the reply carries its size and class list |
| `Models.NormalizeBaseName` | src/models.py:66 | the normalised name has the input's length; each character is the input's lower-cased, with a `-` then turned into `_`; so no `-` and no upper-case ASCII letter remain |
| `Models.GroundedSamAccepted` | src/models.py:66-73 | `Grounded-SAM` normalises to `grounded_sam`, which is supported |
| `Models.InitializeBaseModel` | src/models.py:57-85 | the missing-ontology check comes before the name check; only a successful load sets `STATE["base_model"]`; a missing package names `grounded-sam`; any other load error is reported as `Error initializing base model: {e}` |
| `Models.TargetNamesAreExact` | src/models.py:97 | target names are matched exactly: `YOLOv8n.pt` is refused, `yolov8n.pt` accepted |
| `Models.InitializeTargetModel` | src/models.py:88-112 | an unsupported name is refused and leaves `STATE["target_model"]` as it was; only a successful load sets it; a missing package and any other load error get their own replies |
| `Models.TrainTargetModel` | src/models.py:115-144 | non-positive epochs are refused before `data.yaml` is looked for; a missing `data.yaml` next; only a completed training records `runs/detect` under the working directory; past both checks a missing target model and a raising `train` are both reported as `Error during training: {e}` |
| `Server.MakeDirsError` | src/server.py:118 | `makedirs(..., exist_ok=True)`: an existing folder is never an error, an existing regular file always is |
| `Server.FirstFailure` | src/server.py:77-81 | the position of the first copy that raises: every copy before it succeeds |
| `Server.CopyFiles` | src/server.py:77-81 | the copy loop stops at the first failure, reporting its position, after copying exactly the files before it |
| `Server.ImportImagesFromFolder` | src/server.py:67-84 | a non-directory, then an empty image list, then the first copy failure are reported in that order; only a complete import reports the file count and sets `STATE["input_folder"]` |
| `Server.LabelImages` | src/server.py:107-128 | no base model, then no images, are refused without touching anything; after that, any error is a labelling error, and otherwise the reply depends only on whether `data.yaml` exists |
| `Server.TrainModel` | src/server.py:133-146 | no target model, then a missing labelled folder, are refused; past both guards the call raises `TypeError`, so no weights are recorded |
| `Server.FirstNewestUnique` | src/server.py:150 | `max` by modification time picks one file: the first newest is unique |
| `Server.NewestWeights` | src/server.py:149-150 | no file gives none; otherwise the first file with the greatest modification time |
| `Server.RecordNewestWeights` | src/server.py:148-157 | the first newest `.pt` file, when its path is non-empty, becomes `STATE["trained_model_path"]` and is reported; with none (or an empty path) a warning is reported and the path is left alone |
| `Server.SubdirName` | src/server.py:176 | the download folder name is the query with every space turned into `_`, followed by `_images` |
| `Server.SearchAndDownload` | src/server.py:179-185 | a failed search is reported without writing anything; otherwise the downloads are written, and a zero count is reported as a failure |
| `Server.FetchedInto` | src/server.py:176-185 | after validation: a failed creation of the download folder is re-raised with nothing else changed; otherwise the folder exists, a failed search is reported with its error and no file written, and a successful one performs the downloads and reports their count, or a failure when none saved; a reported count is positive and at most `max_images` |
| `Server.FetchIntoSubdir` | src/server.py:176-185 | the folder creation, search and downloads performed on the folders and files are those of `FetchedInto` |
| `Server.Fetched` | src/server.py:162-188 | the checks run in order (query, count, key and folder, download folder, search, download); a refused query, count, key or folder ends the fetch with that refusal and nothing changed, and an accepted one continues as `FetchedInto`, after creating a missing raw-images folder; files change only by downloads; a reported count is positive and at most `max_images`, into `RAW_IMAGES_DIR/<query with "_" for spaces>_images` |
| `Server.FetchUnsplashImages` | src/server.py:162-188 | the handler's reply, folders and files are those of `Fetched`, and `STATE["input_folder"]` is set only when images were saved |

## Left out

- HTTP: URL construction, timeouts and the transport itself. Page and image responses are parameters.
- Pauses between search pages are recorded in the trace. Pauses between downloads are not modelled; they only affect timing.
- The real filesystem calls (`listdir`, `isfile`, `isdir`, `exists`, `makedirs`, `copy2`, `glob`, `getmtime`, `getcwd`) are replaced by parameters and by the `FileSystem` class.
- Intermediate folders that `os.makedirs` would also create are not modelled.
- Partially written files after an I/O error in the middle of a write are not modelled.
- The ML libraries (GroundedSAM, YOLOv8, `CaptionOntology`, `add_safe_globals`, the `torch.load` patch) are not modelled. Their outcomes are parameters.
- `Models.CreateOntology` does not model `CaptionOntology` raising, so the "Error defining ontology" branch is not modelled.
- MCP transport, the Starlette app, `list_available_models` and `src/zoo_mcp.py` are not part of this model.
- `define_ontology`, `set_base_model` and `set_target_model` only return the messages of the model functions, so they are not modelled separately.
- dotenv loading and the creation of the data folders at start-up are not modelled. The API key is a constructor parameter.
- `STATE["last_predictions"]` is never read or written by the modelled code, so it is not a field.
- Messages are constructors carrying their data, not formatted strings.
- A directory listing that raises is not modelled. `os.listdir` runs outside any `try` in `get_image_files`, so an unreadable folder at src/server.py:73, or a removed raw-images folder at :113, ends the handler with an exception. The model takes listings as plain sequences that always succeed.
- The tool defaults `max_images=20` (src/server.py:163) and `epochs=50, device=0` (src/server.py:134) are not modelled; every argument is passed explicitly.
- `Text.Lower`: lower-cases ASCII letters only. Python's `lower()` also maps other Unicode letters.
- `ImageUtils.PagesNeeded`: the ceiling is computed exactly on integers. Python divides in floating point, which can differ only for counts above 2^53.
- `ImageUtils.SearchUnsplashImages`: `Raised(JsonDecodeError)` stands for an undecodable body. Which `except` clause catches it depends on the `requests` version, so the response carries the exception class.
- `Server.ImportImagesFromFolder`: where copied files end up is not modelled, because the source passes bare names to `copy2`.
- `Server.NewestWeights`: modification times are reals; ties keep the first file, as `max` does.
