/**
 * The server's process-wide configuration: the fixed directory layout, the
 * constants shared by the tools, the mutable `STATE` table and the part of
 * the filesystem the tools write to.
 */
module AppState {
  import opened Wrappers

  type Path = string

  newtype byte = x: int | 0 <= x < 256
  type Bytes = seq<byte>

  /** `os.path.join(a, b)` on POSIX: an absolute `b` replaces `a`; no doubled separator. */
  function PathJoin(a: Path, b: Path): Path {
    if |b| > 0 && b[0] == '/' then b
    else if a == "" || a[|a| - 1] == '/' then a + b
    else a + "/" + b
  }

  const SUPPORTED_IMAGE_EXTENSIONS: seq<string> := [".jpg", ".jpeg", ".png", ".bmp", ".tiff"]
  const SUPPORTED_BASE_MODELS: seq<string> := ["grounded_sam"]
  const SUPPORTED_TARGET_MODELS: seq<string> :=
    ["yolov8n.pt", "yolov8s.pt", "yolov8m.pt", "yolov8l.pt", "yolov8x.pt"]
  const MAX_IMAGES_PER_PAGE: int := 30
  /** Pause between search pages, in seconds. */
  const MAX_WAIT_TIME: real := 1.0
  /** Pause between image downloads, in seconds. */
  const SHORT_WAIT_TIME: real := 0.2
  const HTTP_OK: int := 200

  /** One prompt of an ontology and the class name it is labelled with. */
  datatype Entry = Entry(prompt: string, cls: string)
  /** An insertion-ordered dictionary from prompt to class name (distinct prompts). */
  type Ontology = seq<Entry>

  /** The base (labelling) model; the only supported one is GroundedSAM. */
  datatype BaseModel = GroundedSam(ontology: Ontology)
  /** The target (trained) model: YOLOv8 with the named weight file. */
  datatype TargetModel = Yolov8(weights: string)

  /** The `STATE` table and the directory constants derived from the project root. */
  class State {
    const dataDir: Path
    const rawImagesDir: Path
    const labeledImagesDir: Path
    const modelsDir: Path

    var baseModel: Option<BaseModel>
    var targetModel: Option<TargetModel>
    var ontology: Option<Ontology>
    var inputFolder: Path
    var outputFolder: Path
    var labeledDataset: Path
    var modelOutputFolder: Path
    var trainedModelPath: Option<Path>
    var unsplashApiKey: string

    /**
     * The table as the server starts: no models and no ontology, the folders
     * pointing at the fixed layout under `baseDir`, and the API key read from
     * the environment (the empty string when it is not set).
     */
    constructor (baseDir: Path, apiKey: string)
      ensures dataDir == PathJoin(baseDir, "data")
      ensures rawImagesDir == PathJoin(dataDir, "raw_images")
      ensures labeledImagesDir == PathJoin(dataDir, "labeled_images")
      ensures modelsDir == PathJoin(dataDir, "models")
      ensures baseModel.None? && targetModel.None? && ontology.None?
      ensures inputFolder == rawImagesDir && outputFolder == labeledImagesDir
      ensures labeledDataset == labeledImagesDir && modelOutputFolder == modelsDir
      ensures trainedModelPath.None? && unsplashApiKey == apiKey
    {
      dataDir := PathJoin(baseDir, "data");
      rawImagesDir := PathJoin(PathJoin(baseDir, "data"), "raw_images");
      labeledImagesDir := PathJoin(PathJoin(baseDir, "data"), "labeled_images");
      modelsDir := PathJoin(PathJoin(baseDir, "data"), "models");
      baseModel, targetModel, ontology := None, None, None;
      inputFolder := PathJoin(PathJoin(baseDir, "data"), "raw_images");
      outputFolder := PathJoin(PathJoin(baseDir, "data"), "labeled_images");
      labeledDataset := PathJoin(PathJoin(baseDir, "data"), "labeled_images");
      modelOutputFolder := PathJoin(PathJoin(baseDir, "data"), "models");
      trainedModelPath := None;
      unsplashApiKey := apiKey;
    }
  }

  /** The directories and regular files the tools create and write. */
  class FileSystem {
    var dirs: set<Path>
    var files: map<Path, Bytes>

    constructor (dirs0: set<Path>, files0: map<Path, Bytes>)
      ensures dirs == dirs0 && files == files0
    {
      dirs, files := dirs0, files0;
    }

    /** The paths for which `os.path.exists` holds. */
    function Existing(): set<Path>
      reads this
    {
      dirs + files.Keys
    }
  }
}
