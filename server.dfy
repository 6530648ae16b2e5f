/**
 * The tool handlers of the server: each checks its preconditions in a fixed
 * order, returns at the first that fails, and writes the `STATE` table only
 * on its success path. The helpers they call are the models in `ImageUtils`
 * and `Models`; what the operating system and the libraries answer is given
 * as parameters.
 */
module Server {
  import opened Wrappers
  import opened Text
  import opened AppState
  import opened ImageUtils

  /** The replies of the tool handlers. */
  datatype Reply =
    // import_images_from_folder
    | NotADirectory(path: Path)
    | NoImageFiles(path: Path)
    | CopyFailed(file: string, reason: string)
    | Imported(count: nat, dir: Path)
    // label_images
    | BaseModelNotSet
    | NoImagesToLabel(dir: Path)
    | LabelingError(reason: string)
    | LabelsSaved(dir: Path)
    | LabelsWithoutYaml
    // train_model
    | TargetModelNotSet
    | LabeledDatasetMissing(dir: Path)
    | WeightsFound(trainMsg: string, path: Path)
    | NoWeights(trainMsg: string, dir: Path)
    // fetch_unsplash_images
    | EmptyQuery
    | MaxImagesNotPositive
    | ValidationFailed(error: ValidationError)
    | SearchFailed(searchError: SearchError)
    | DownloadFailed
    | Downloaded(count: nat, dir: Path)
    // an exception no handler catches; the tool call fails with it
    | Uncaught(exception: string)

  /**
   * What `os.makedirs(path, exist_ok=True)` raises, if anything: nothing for
   * a directory that is already there, "file exists" for a regular file, and
   * otherwise whatever the operating system reports (`mkdirError`).
   */
  function MakeDirsError(dirs: set<Path>, files: set<Path>, path: Path,
                         mkdirError: Path -> Option<string>): (err: Option<string>)
    ensures path in dirs ==> err.None?
    ensures path in files - dirs ==> err.Some?
  {
    if path in dirs then None
    else if path in files then Some("File exists: " + path)
    else mkdirError(path)
  }

  // ---------------------------------------------------------------------
  // import_images_from_folder
  // ---------------------------------------------------------------------

  /** The position of the first file whose copy fails, or `|files|` when none does. */
  function FirstFailure(files: seq<string>, copyError: string -> Option<string>): (k: nat)
    ensures k <= |files|
    ensures k < |files| ==> copyError(files[k]).Some?
    ensures forall j :: 0 <= j < k ==> copyError(files[j]).None?
  {
    if files == [] then 0
    else if copyError(files[0]).Some? then 0
    else 1 + FirstFailure(files[1..], copyError)
  }

  /**
   * The copy loop: copies `files` one at a time and stops at the first copy
   * that raises, whose position and error it returns. `copyError` is what
   * `shutil.copy2` raises for a name; `copied` are the names whose copy
   * completed, in order.
   */
  method CopyFiles(files: seq<string>, copyError: string -> Option<string>)
    returns (failed: Option<nat>, copied: seq<string>)
    ensures var k := FirstFailure(files, copyError);
            && copied == files[..k]
            && failed == if k < |files| then Some(k) else None
  {
    ghost var k := FirstFailure(files, copyError);
    copied := [];
    var i := 0;
    while i < |files|
      invariant 0 <= i <= |files| && i <= k
      invariant copied == files[..i]
    {
      if copyError(files[i]).Some? {
        return Some(i), copied;
      }
      copied := copied + [files[i]];
      i := i + 1;
    }
    return None, copied;
  }

  /**
   * `isDir` is `os.path.isdir(folderPath)` and `listing` is the folder's
   * listing. The import stops at the first copy that raises; only a complete
   * import points `STATE["input_folder"]` at the raw-images folder.
   */
  method ImportImagesFromFolder(st: State, folderPath: Path, isDir: bool, listing: seq<DirEntry>,
                                copyError: string -> Option<string>)
    returns (reply: Reply, copied: seq<string>)
    modifies st`inputFolder
    ensures !isDir ==> reply == NotADirectory(folderPath) && copied == []
    ensures isDir && GetImageFiles(listing) == [] ==> reply == NoImageFiles(folderPath) && copied == []
    ensures var files := GetImageFiles(listing);
            var k := FirstFailure(files, copyError);
            isDir && files != [] ==>
              && copied == files[..k]
              && reply == if k < |files| then CopyFailed(files[k], copyError(files[k]).value)
                          else Imported(|files|, st.rawImagesDir)
    ensures st.inputFolder == if reply.Imported? then st.rawImagesDir else old(st.inputFolder)
  {
    if !isDir {
      return NotADirectory(folderPath), [];
    }
    var files := GetImageFiles(listing);
    if files == [] {
      return NoImageFiles(folderPath), [];
    }
    var failed;
    failed, copied := CopyFiles(files, copyError);
    if failed.Some? {
      var f := files[failed.value];
      return CopyFailed(f, copyError(f).value), copied;
    }
    st.inputFolder := st.rawImagesDir;
    return Imported(|files|, st.rawImagesDir), copied;
  }

  // ---------------------------------------------------------------------
  // label_images
  // ---------------------------------------------------------------------

  /**
   * Runs the base model over the raw-images folder. `rawListing` is that
   * folder's listing, `labelError` is what the model's `label` call raises,
   * if anything, and `yamlAfter` is whether `data.yaml` exists once it
   * returns. The labelled folder is created just before labelling; every
   * exception from there on is reported as a labelling error.
   */
  method LabelImages(st: State, fs: FileSystem, rawListing: seq<DirEntry>, mkdirError: Path -> Option<string>,
                     labelError: Option<string>, yamlAfter: bool) returns (reply: Reply)
    modifies fs`dirs
    ensures st.baseModel.None? ==> reply == BaseModelNotSet && unchanged(fs)
    ensures st.baseModel.Some? && GetImageFiles(rawListing) == [] ==>
              reply == NoImagesToLabel(st.rawImagesDir) && unchanged(fs)
    ensures var mk := MakeDirsError(old(fs.dirs), fs.files.Keys, st.labeledImagesDir, mkdirError);
            st.baseModel.Some? && GetImageFiles(rawListing) != [] ==>
              && fs.dirs == (if mk.None? then old(fs.dirs) + {st.labeledImagesDir} else old(fs.dirs))
              && reply == if mk.Some? then LabelingError(mk.value)
                          else if labelError.Some? then LabelingError(labelError.value)
                          else if yamlAfter then LabelsSaved(st.labeledImagesDir)
                          else LabelsWithoutYaml
  {
    if st.baseModel.None? {
      return BaseModelNotSet;
    }
    var images := GetImageFiles(rawListing);
    if images == [] {
      return NoImagesToLabel(st.rawImagesDir);
    }
    var mk := MakeDirsError(fs.dirs, fs.files.Keys, st.labeledImagesDir, mkdirError);
    if mk.Some? {
      return LabelingError(mk.value);
    }
    fs.dirs := fs.dirs + {st.labeledImagesDir};
    if labelError.Some? {
      return LabelingError(labelError.value);
    }
    if yamlAfter {
      return LabelsSaved(st.labeledImagesDir);
    }
    return LabelsWithoutYaml;
  }

  // ---------------------------------------------------------------------
  // train_model
  // ---------------------------------------------------------------------

  /**
   * The exception the training call raises: it passes an `output_dir`
   * keyword that `train_target_model` does not accept.
   */
  const TRAIN_CALL_ERROR: string :=
    "TypeError: train_target_model() got an unexpected keyword argument 'output_dir'"

  /**
   * The guards of `train_model`, in order. `existing` is what
   * `os.path.exists` sees. Past both guards the call into the training
   * helper raises, so the handler never trains and never records weights.
   */
  method TrainModel(st: State, epochs: int, device: int, existing: set<Path>) returns (reply: Reply)
    ensures st.targetModel.None? ==> reply == TargetModelNotSet
    ensures st.targetModel.Some? && st.labeledImagesDir !in existing ==>
              reply == LabeledDatasetMissing(st.labeledImagesDir)
    ensures st.targetModel.Some? && st.labeledImagesDir in existing ==> reply == Uncaught(TRAIN_CALL_ERROR)
    ensures !reply.WeightsFound? && !reply.NoWeights?
  {
    if st.targetModel.None? {
      return TargetModelNotSet;
    }
    if st.labeledImagesDir !in existing {
      return LabeledDatasetMissing(st.labeledImagesDir);
    }
    return Uncaught(TRAIN_CALL_ERROR);
  }

  /** A `.pt` file in the models folder and its modification time. */
  datatype WeightFile = WeightFile(path: Path, mtime: real)

  /** `pts[i]` is the first of the files with the greatest modification time. */
  predicate IsFirstNewest(pts: seq<WeightFile>, i: int) {
    && 0 <= i < |pts|
    && (forall j :: 0 <= j < |pts| ==> pts[j].mtime <= pts[i].mtime)
    && (forall j :: 0 <= j < i ==> pts[j].mtime < pts[i].mtime)
  }

  /** There is only one first newest file. */
  lemma FirstNewestUnique(pts: seq<WeightFile>, i: int, j: int)
    requires IsFirstNewest(pts, i) && IsFirstNewest(pts, j)
    ensures i == j
  {
    var ti, tj := pts[i].mtime, pts[j].mtime;
    if i < j {
      assert false;
    } else if j < i {
      assert false;
    }
  }

  /** `max(pt_files, key=os.path.getmtime) if pt_files else None`. */
  method NewestWeights(pts: seq<WeightFile>) returns (latest: Option<Path>)
    ensures latest.None? <==> pts == []
    ensures latest.Some? ==> exists i :: IsFirstNewest(pts, i) && latest.value == pts[i].path
  {
    if pts == [] {
      return None;
    }
    var best := 0;
    var i := 1;
    while i < |pts|
      invariant 0 <= best < i <= |pts|
      invariant forall j :: 0 <= j < i ==> pts[j].mtime <= pts[best].mtime
      invariant forall j :: 0 <= j < best ==> pts[j].mtime < pts[best].mtime
    {
      if pts[i].mtime > pts[best].mtime {
        best := i;
      }
      i := i + 1;
    }
    assert IsFirstNewest(pts, best);
    return Some(pts[best].path);
  }

  /**
   * What the end of `train_model` does with the message of the training
   * call: the newest `.pt` file of the models folder becomes
   * `STATE["trained_model_path"]`; with none, a warning is appended and the
   * path is left as it was. `pts` is the result of the glob with the files'
   * modification times.
   */
  method RecordNewestWeights(st: State, trainMsg: string, pts: seq<WeightFile>) returns (reply: Reply)
    modifies st`trainedModelPath
    ensures reply.WeightsFound? ==>
              && reply.trainMsg == trainMsg
              && (exists i :: IsFirstNewest(pts, i) && reply.path == pts[i].path)
              && st.trainedModelPath == Some(reply.path)
    ensures pts == [] ==> reply == NoWeights(trainMsg, st.modelsDir)
    ensures reply.NoWeights? ==> reply == NoWeights(trainMsg, st.modelsDir) && unchanged(st)
    ensures reply.WeightsFound? || reply.NoWeights?
    ensures forall i :: IsFirstNewest(pts, i) && pts[i].path != "" ==>
              reply == WeightsFound(trainMsg, pts[i].path) && st.trainedModelPath == Some(pts[i].path)
    ensures forall i :: IsFirstNewest(pts, i) && pts[i].path == "" ==> reply == NoWeights(trainMsg, st.modelsDir)
  {
    var latest := NewestWeights(pts);
    forall i, j | IsFirstNewest(pts, i) && IsFirstNewest(pts, j) ensures i == j {
      FirstNewestUnique(pts, i, j);
    }
    if latest.Some? && latest.value != "" {
      st.trainedModelPath := latest;
      return WeightsFound(trainMsg, latest.value);
    }
    return NoWeights(trainMsg, st.modelsDir);
  }

  // ---------------------------------------------------------------------
  // fetch_unsplash_images
  // ---------------------------------------------------------------------

  /** The name of the download folder for a query: every space becomes `_`, then `_images`. */
  function SubdirName(query: string): (name: string)
    ensures |name| == |query| + 7 && EndsWith(name, "_images")
    ensures ' ' !in name
    ensures forall i :: 0 <= i < |query| ==> name[i] == (if query[i] == ' ' then '_' else query[i])
  {
    Replace(query, ' ', '_') + "_images"
  }

  /**
   * The last two steps of the fetch: the search, and the downloads into
   * `subdir` when the search found photos.
   */
  method SearchAndDownload(fs: FileSystem, query: string, maxImages: int, subdir: Path,
                           respond: int -> PageOutcome, net: nat -> Fetch, ioFails: nat -> bool)
    returns (reply: Reply)
    modifies fs`files
    ensures var s := Search(query, maxImages, respond);
            if s.Failed? then reply == SearchFailed(s.error) && fs.files == old(fs.files)
            else
              var ws := SavedWrites(s.photos, subdir, net, ioFails);
              && fs.files == ApplyWrites(old(fs.files), ws)
              && reply == if ws == [] then DownloadFailed else Downloaded(|ws|, subdir)
  {
    var searched, _ := SearchUnsplashImages(query, maxImages, respond);
    if searched.Failed? {
      return SearchFailed(searched.error);
    }
    var downloaded, files' := DownloadImages(searched.photos, subdir, net, ioFails, fs.files);
    fs.files := files';
    if downloaded == 0 {
      return DownloadFailed;
    }
    return Downloaded(downloaded, subdir);
  }

  /** The reply of a fetch and the folders and files it leaves behind. */
  datatype FetchEffect = FetchEffect(reply: Reply, dirs: set<Path>, files: map<Path, Bytes>)

  /**
   * The steps of the fetch after validation: the download folder
   * `<raw>/<query with "_" for spaces>_images` is created, then the search
   * and the downloads into it run, each only when the step before it
   * succeeded. Files change only by the downloads.
   */
  function FetchedInto(raw: Path, query: string, maxImages: int, dirs: set<Path>, files: map<Path, Bytes>,
                       mkdirError: Path -> Option<string>, respond: int -> PageOutcome,
                       net: nat -> Fetch, ioFails: nat -> bool): (e: FetchEffect)
    ensures dirs <= e.dirs <= dirs + {PathJoin(raw, SubdirName(query))}
    ensures e.files != files ==> e.reply.Downloaded?
    ensures e.reply.Downloaded? ==>
              && 0 < e.reply.count <= maxImages
              && e.reply.dir == PathJoin(raw, SubdirName(query))
              && Search(query, maxImages, respond).Found?
    ensures var subdir := PathJoin(raw, SubdirName(query));
            var mk := MakeDirsError(dirs, files.Keys, subdir, mkdirError);
            var s := Search(query, maxImages, respond);
            && (mk.Some? ==> e == FetchEffect(Uncaught(mk.value), dirs, files))
            && (mk.None? ==> e.dirs == dirs + {subdir})
            && (mk.None? && s.Failed? ==> e.reply == SearchFailed(s.error) && e.files == files)
            && (mk.None? && s.Found? ==>
                  var ws := SavedWrites(s.photos, subdir, net, ioFails);
                  && e.files == ApplyWrites(files, ws)
                  && e.reply == if ws == [] then DownloadFailed else Downloaded(|ws|, subdir))
  {
    var subdir := PathJoin(raw, SubdirName(query));
    var mk := MakeDirsError(dirs, files.Keys, subdir, mkdirError);
    if mk.Some? then FetchEffect(Uncaught(mk.value), dirs, files)
    else
      var s := Search(query, maxImages, respond);
      if s.Failed? then FetchEffect(SearchFailed(s.error), dirs + {subdir}, files)
      else
        var ws := SavedWrites(s.photos, subdir, net, ioFails);
        FetchEffect(if ws == [] then DownloadFailed else Downloaded(|ws|, subdir),
                    dirs + {subdir}, ApplyWrites(files, ws))
  }

  /** The fetch's steps after validation, performed on the folders and files. */
  method FetchIntoSubdir(fs: FileSystem, raw: Path, query: string, maxImages: int,
                         mkdirError: Path -> Option<string>, respond: int -> PageOutcome,
                         net: nat -> Fetch, ioFails: nat -> bool) returns (reply: Reply)
    modifies fs
    ensures FetchEffect(reply, fs.dirs, fs.files)
            == FetchedInto(raw, query, maxImages, old(fs.dirs), old(fs.files), mkdirError, respond, net, ioFails)
  {
    var subdir := PathJoin(raw, SubdirName(query));
    var mk := MakeDirsError(fs.dirs, fs.files.Keys, subdir, mkdirError);
    if mk.Some? {
      return Uncaught(mk.value);
    }
    fs.dirs := fs.dirs + {subdir};
    reply := SearchAndDownload(fs, query, maxImages, subdir, respond, net, ioFails);
  }

  /**
   * The fetch as a whole: query check, count check, key and folder
   * validation, the download folder, the search and the downloads, each
   * performed only when every step before it succeeded. Files change only
   * by the downloads, and a reported count is at most `maxImages`.
   */
  function Fetched(apiKey: string, raw: Path, query: string, maxImages: int, cwd: Path,
                   dirs: set<Path>, files: map<Path, Bytes>, mkdirError: Path -> Option<string>,
                   respond: int -> PageOutcome, net: nat -> Fetch, ioFails: nat -> bool): (e: FetchEffect)
    ensures AllSpace(query) ==> e == FetchEffect(EmptyQuery, dirs, files)
    ensures !AllSpace(query) && maxImages <= 0 ==> e == FetchEffect(MaxImagesNotPositive, dirs, files)
    ensures !AllSpace(query) && maxImages > 0 && apiKey == "" ==>
              e == FetchEffect(ValidationFailed(MissingApiKey), dirs, files)
    ensures dirs <= e.dirs <= dirs + {raw, PathJoin(raw, SubdirName(query))}
    ensures e.files != files ==> e.reply.Downloaded?
    ensures e.reply.Downloaded? ==>
              && 0 < e.reply.count <= maxImages
              && e.reply.dir == PathJoin(raw, SubdirName(query))
              && Search(query, maxImages, respond).Found?
    ensures var v := ValidateUnsplashParams(apiKey, Some(raw), cwd, dirs + files.Keys, mkdirError(raw));
            !AllSpace(query) && maxImages > 0 && v.outcome.Rejected? ==>
              e == FetchEffect(ValidationFailed(v.outcome.error), dirs, files)
    ensures var v := ValidateUnsplashParams(apiKey, Some(raw), cwd, dirs + files.Keys, mkdirError(raw));
            !AllSpace(query) && maxImages > 0 && v.outcome.Ready? ==>
              e == FetchedInto(raw, query, maxImages, if raw in dirs + files.Keys then dirs else dirs + {raw},
                               files, mkdirError, respond, net, ioFails)
  {
    if AllSpace(query) then FetchEffect(EmptyQuery, dirs, files)
    else if maxImages <= 0 then FetchEffect(MaxImagesNotPositive, dirs, files)
    else
      var v := ValidateUnsplashParams(apiKey, Some(raw), cwd, dirs + files.Keys, mkdirError(raw));
      var dirs1 := if v.created.Some? then dirs + {v.created.value} else dirs;
      if v.outcome.Rejected? then FetchEffect(ValidationFailed(v.outcome.error), dirs1, files)
      else FetchedInto(raw, query, maxImages, dirs1, files, mkdirError, respond, net, ioFails)
  }

  /**
   * The handler: it performs the steps of `Fetched` on the folders and
   * files, and only a run that saved at least one image points
   * `STATE["input_folder"]` at the raw-images folder. `cwd` is the working
   * directory, `mkdirError` what creating a folder raises, `respond` the
   * search pages and `net` / `ioFails` the per-image downloads.
   */
  method FetchUnsplashImages(st: State, fs: FileSystem, query: string, maxImages: int, cwd: Path,
                             mkdirError: Path -> Option<string>, respond: int -> PageOutcome,
                             net: nat -> Fetch, ioFails: nat -> bool) returns (reply: Reply)
    modifies st`inputFolder, fs
    ensures FetchEffect(reply, fs.dirs, fs.files)
            == Fetched(st.unsplashApiKey, st.rawImagesDir, query, maxImages, cwd, old(fs.dirs), old(fs.files),
                       mkdirError, respond, net, ioFails)
    ensures reply.Downloaded? ==> st.inputFolder == st.rawImagesDir
    ensures !reply.Downloaded? ==> st.inputFolder == old(st.inputFolder)
  {
    if Strip(query) == "" {
      return EmptyQuery;
    }
    assert !AllSpace(query);
    if maxImages <= 0 {
      return MaxImagesNotPositive;
    }
    var accessKey := st.unsplashApiKey;
    var v := ValidateUnsplashParams(accessKey, Some(st.rawImagesDir), cwd, fs.Existing(),
                                    mkdirError(st.rawImagesDir));
    if v.created.Some? {
      fs.dirs := fs.dirs + {v.created.value};
    }
    if v.outcome.Rejected? {
      return ValidationFailed(v.outcome.error);
    }
    reply := FetchIntoSubdir(fs, st.rawImagesDir, query, maxImages, mkdirError, respond, net, ioFails);
    if reply.Downloaded? {
      st.inputFolder := st.rawImagesDir;
    }
  }
}
