/**
 * Model management: parsing the object list into an ontology, choosing the
 * base and target models, and the guards in front of training. The model
 * libraries themselves are outside the model: loading a model and training
 * it are parameters that say whether the library call succeeded.
 */
module Models {
  import opened Wrappers
  import opened Text
  import opened AppState

  /** The messages of the model-management functions. */
  datatype Msg =
    | EmptyObjects
    | OntologyDefined(classCount: nat, classes: seq<string>)
    | OntologyMissing
    | UnsupportedBaseModel(choices: seq<string>)
    | BaseModuleMissing(package: string)
    | BaseModelError(reason: string)
    | BaseModelReady
    | UnsupportedTargetModel(choices: seq<string>)
    | TargetModuleMissing
    | TargetModelError(reason: string)
    | TargetModelReady(weights: string)
    | EpochsNotPositive
    | DataYamlMissing(path: Path)
    | TrainingError(reason: string)
    | TrainingDone(epochs: int, device: int, runsDir: Path)

  /** What importing and constructing a model's library class did. */
  datatype LoadOutcome = Loaded | ImportFailed | LoadFailed(reason: string)

  /** What the target model's `train` call did. */
  datatype TrainOutcome = TrainOk | TrainRaised(reason: string)

  // ---------------------------------------------------------------------
  // create_ontology: parsing
  // ---------------------------------------------------------------------

  /** A parsed object: non-empty, with no whitespace at either end. */
  predicate Trimmed(o: string) {
    o != "" && !IsSpace(o[0]) && !IsSpace(o[|o| - 1])
  }

  /** The stripped pieces, in order, with the empty ones dropped. */
  function StrippedPieces(pieces: seq<string>): (objects: seq<string>)
    ensures |objects| <= |pieces|
    ensures forall o :: o in objects ==> Trimmed(o)
  {
    if pieces == [] then []
    else
      var p := Strip(pieces[0]);
      var rest := StrippedPieces(pieces[1..]);
      if p != "" then [p] + rest else rest
  }

  /** `[obj.strip() for obj in objects_list.split(",") if obj.strip()]`. */
  function ParseObjects(objectsList: string): seq<string> {
    StrippedPieces(Split(objectsList, ','))
  }

  /** `o` is the non-empty stripped form of some piece. */
  predicate StrippedFromSome(pieces: seq<string>, o: string) {
    exists i :: 0 <= i < |pieces| && o == Strip(pieces[i]) && o != ""
  }

  lemma StrippedFromSomeCons(pieces: seq<string>, o: string)
    requires pieces != []
    ensures StrippedFromSome(pieces, o) <==>
              (o == Strip(pieces[0]) && o != "") || StrippedFromSome(pieces[1..], o)
  {
    if StrippedFromSome(pieces, o) {
      var i :| 0 <= i < |pieces| && o == Strip(pieces[i]) && o != "";
      if i > 0 {
        assert pieces[1..][i - 1] == pieces[i];
      }
    }
    if StrippedFromSome(pieces[1..], o) {
      var i :| 0 <= i < |pieces[1..]| && o == Strip(pieces[1..][i]) && o != "";
      assert pieces[i + 1] == pieces[1..][i];
    }
  }

  /** An object is kept exactly when it is the non-empty stripped form of some piece. */
  lemma {:induction false} StrippedPiecesMembers(pieces: seq<string>, o: string)
    ensures o in StrippedPieces(pieces) <==> StrippedFromSome(pieces, o)
  {
    if pieces != [] {
      StrippedPiecesMembers(pieces[1..], o);
      StrippedFromSomeCons(pieces, o);
    }
  }

  lemma ConsAppend<T>(a: seq<T>, b: seq<T>)
    requires a != []
    ensures (a + b)[0] == a[0] && (a + b)[1..] == a[1..] + b
  {
  }

  /** A character absent from `s` is absent from its stripped form. */
  lemma StripKeepsOut(s: string, c: char)
    requires c !in s
    ensures c !in Strip(s)
  {
    StripIsSlice(s);
    var a, b :| 0 <= a <= b <= |s| && Strip(s) == s[a..b] && AllSpace(s[..a]) && AllSpace(s[b..]);
    forall k | 0 <= k < b - a ensures s[a..b][k] != c {
      assert s[a..b][k] == s[a + k];
    }
  }

  /** The objects keep the order of the pieces: parsing distributes over concatenation. */
  lemma {:induction false} StrippedPiecesAppend(a: seq<string>, b: seq<string>)
    ensures StrippedPieces(a + b) == StrippedPieces(a) + StrippedPieces(b)
  {
    if a == [] {
      assert a + b == b;
    } else {
      var head := if Strip(a[0]) != "" then [Strip(a[0])] else [];
      assert StrippedPieces(a + b) == head + StrippedPieces(a[1..] + b) by {
        ConsAppend(a, b);
      }
      StrippedPiecesAppend(a[1..], b);
      assert head + (StrippedPieces(a[1..]) + StrippedPieces(b))
             == (head + StrippedPieces(a[1..])) + StrippedPieces(b);
    }
  }

  /** Every character of `s` is the separator or whitespace. */
  predicate SepOrSpace(s: string, sep: char) {
    forall k :: 0 <= k < |s| ==> s[k] == sep || IsSpace(s[k])
  }

  /** Every piece is whitespace only. */
  predicate AllBlank(pieces: seq<string>) {
    forall i :: 0 <= i < |pieces| ==> AllSpace(pieces[i])
  }

  lemma AllBlankCons(p: string, rest: seq<string>)
    ensures AllBlank([p] + rest) <==> AllSpace(p) && AllBlank(rest)
  {
    var ps := [p] + rest;
    if AllSpace(p) && AllBlank(rest) {
      forall i | 0 <= i < |ps| ensures AllSpace(ps[i]) {
        if i > 0 {
          assert ps[i] == rest[i - 1];
        }
      }
    }
    if AllBlank(ps) {
      assert AllSpace(ps[0]);
      forall i | 0 <= i < |rest| ensures AllSpace(rest[i]) {
        assert rest[i] == ps[i + 1];
      }
    }
  }

  lemma AllSpaceCons(c: char, t: string)
    ensures AllSpace([c] + t) <==> IsSpace(c) && AllSpace(t)
  {
    var u := [c] + t;
    if AllSpace(u) {
      assert IsSpace(u[0]);
      forall k | 0 <= k < |t| ensures IsSpace(t[k]) {
        assert t[k] == u[k + 1];
      }
    }
  }

  lemma SepOrSpaceCons(s: string, sep: char)
    requires s != []
    ensures SepOrSpace(s, sep) <==> (s[0] == sep || IsSpace(s[0])) && SepOrSpace(s[1..], sep)
  {
    if (s[0] == sep || IsSpace(s[0])) && SepOrSpace(s[1..], sep) {
      forall k | 0 <= k < |s| ensures s[k] == sep || IsSpace(s[k]) {
        if k > 0 {
          assert s[k] == s[1..][k - 1];
        }
      }
    }
    if SepOrSpace(s, sep) {
      forall k | 0 <= k < |s[1..]| ensures s[1..][k] == sep || IsSpace(s[1..][k]) {
        assert s[1..][k] == s[k + 1];
      }
    }
  }

  /** The pieces of a split are all blank exactly when the string holds only separators and whitespace. */
  lemma {:induction false} SplitPiecesBlank(s: string, sep: char)
    ensures AllBlank(Split(s, sep)) <==> SepOrSpace(s, sep)
  {
    if s == [] {
      assert AllSpace(Split(s, sep)[0]);
    } else {
      var rest := Split(s[1..], sep);
      SplitPiecesBlank(s[1..], sep);
      SepOrSpaceCons(s, sep);
      if s[0] == sep {
        AllBlankCons("", rest);
      } else {
        assert rest == [rest[0]] + rest[1..];
        AllBlankCons(rest[0], rest[1..]);
        AllBlankCons([s[0]] + rest[0], rest[1..]);
        AllSpaceCons(s[0], rest[0]);
      }
    }
  }

  /**
   * The parsed objects are trimmed and hold no comma, and the list is empty
   * exactly when the input holds only commas and whitespace.
   */
  lemma ParseObjectsSpec(objectsList: string)
    ensures forall o :: o in ParseObjects(objectsList) ==> Trimmed(o) && ',' !in o
    ensures ParseObjects(objectsList) == [] <==> SepOrSpace(objectsList, ',')
  {
    var pieces := Split(objectsList, ',');
    StrippedPiecesEmpty(pieces);
    SplitPiecesBlank(objectsList, ',');
    forall o | o in ParseObjects(objectsList) ensures ',' !in o {
      StrippedPiecesMembers(pieces, o);
      var i :| 0 <= i < |pieces| && o == Strip(pieces[i]) && o != "";
      StripKeepsOut(pieces[i], ',');
    }
  }

  /**
   * No object survives exactly when every piece is whitespace only, so with
   * `pieces := Split(objectsList, ',')` the inputs `""`, `" , ,"` and `","`
   * are all refused as an empty list.
   */
  lemma {:induction false} StrippedPiecesEmpty(pieces: seq<string>)
    ensures StrippedPieces(pieces) == [] <==> forall i :: 0 <= i < |pieces| ==> AllSpace(pieces[i])
  {
    if pieces != [] {
      StrippedPiecesEmpty(pieces[1..]);
      if forall i :: 0 <= i < |pieces| ==> AllSpace(pieces[i]) {
        assert AllSpace(pieces[0]);
        forall i | 0 <= i < |pieces[1..]| ensures AllSpace(pieces[1..][i]) {
          assert pieces[1..][i] == pieces[i + 1];
        }
      } else if AllSpace(pieces[0]) {
        var i :| 0 <= i < |pieces| && !AllSpace(pieces[i]);
        assert pieces[1..][i - 1] == pieces[i];
      }
    }
  }

  // ---------------------------------------------------------------------
  // create_ontology: the prompt -> class dictionary
  // ---------------------------------------------------------------------

  /** `prompt.replace(" ", "_").lower()`. */
  function ClassName(prompt: string): (c: string)
    ensures |c| == |prompt| && ' ' !in c
    ensures forall i :: 0 <= i < |c| ==> !('A' <= c[i] <= 'Z')
    ensures forall i :: 0 <= i < |prompt| ==> c[i] == LowerChar(if prompt[i] == ' ' then '_' else prompt[i])
  {
    Lower(Replace(prompt, ' ', '_'))
  }

  function Prompts(d: Ontology): seq<string> {
    seq(|d|, i requires 0 <= i < |d| => d[i].prompt)
  }

  /** `list(ontology_dict.values())`. */
  function Classes(d: Ontology): seq<string> {
    seq(|d|, i requires 0 <= i < |d| => d[i].cls)
  }

  predicate Distinct<T(==)>(s: seq<T>) {
    forall i, j :: 0 <= i < j < |s| ==> s[i] != s[j]
  }

  /** The first position of `x` in `s`, or `|s|` when it does not occur. */
  function IndexOf<T(==)>(s: seq<T>, x: T): (i: nat)
    ensures i <= |s|
    ensures i < |s| <==> x in s
    ensures i < |s| ==> s[i] == x
    ensures forall j :: 0 <= j < i ==> s[j] != x
  {
    if s == [] then 0
    else if s[0] == x then 0
    else 1 + IndexOf(s[1..], x)
  }

  /** `d[prompt] = cls` on an insertion-ordered dictionary. */
  function Insert(d: Ontology, prompt: string, cls: string): Ontology {
    var i := IndexOf(Prompts(d), prompt);
    if i < |d| then d[i := Entry(prompt, cls)] else d + [Entry(prompt, cls)]
  }

  /** `{obj: obj.replace(" ", "_").lower() for obj in objects}`. */
  function BuildOntology(objects: seq<string>): (d: Ontology)
    ensures |d| <= |objects|
    decreases |objects|
  {
    if objects == [] then []
    else
      var n := |objects| - 1;
      Insert(BuildOntology(objects[..n]), objects[n], ClassName(objects[n]))
  }

  lemma IndexOfExtend<T>(s: seq<T>, x: T, y: T)
    requires y in s
    ensures IndexOf(s + [x], y) == IndexOf(s, y)
  {
    var i1, i2 := IndexOf(s + [x], y), IndexOf(s, y);
    assert (s + [x])[i2] == y;
    assert i1 < |s| && s[i1] == (s + [x])[i1];
  }

  /**
   * `d` is the dictionary built from `objects`: its keys are the distinct
   * objects, in the order of their first occurrence, and each key maps to
   * its class name.
   */
  ghost predicate IsOntologyOf(objects: seq<string>, d: Ontology) {
    && Distinct(Prompts(d))
    && (forall x :: x in objects <==> x in Prompts(d))
    && (forall i :: 0 <= i < |d| ==> d[i].cls == ClassName(d[i].prompt))
    && (forall i, j :: 0 <= i < j < |d| ==> IndexOf(objects, d[i].prompt) < IndexOf(objects, d[j].prompt))
  }

  /** Inserting a prompt already present changes nothing. */
  lemma InsertPresent(init: seq<string>, d0: Ontology, x: string)
    requires IsOntologyOf(init, d0)
    requires x in init
    ensures Insert(d0, x, ClassName(x)) == d0
    ensures IsOntologyOf(init + [x], d0)
  {
    var k := IndexOf(Prompts(d0), x);
    assert d0[k].prompt == Prompts(d0)[k] == x;
    forall y | y in init ensures IndexOf(init + [x], y) == IndexOf(init, y) {
      IndexOfExtend(init, x, y);
    }
  }

  /** Inserting a new prompt appends it, after every earlier first occurrence. */
  lemma InsertAbsent(init: seq<string>, d0: Ontology, x: string)
    requires IsOntologyOf(init, d0)
    requires x !in init
    ensures IsOntologyOf(init + [x], Insert(d0, x, ClassName(x)))
  {
    var objects := init + [x];
    var d := Insert(d0, x, ClassName(x));
    var n := |init|;
    assert x !in Prompts(d0);
    assert d == d0 + [Entry(x, ClassName(x))];
    assert Prompts(d) == Prompts(d0) + [x];
    assert Distinct(Prompts(d));
    assert forall y :: y in objects <==> y in Prompts(d);
    assert forall i :: 0 <= i < |d| ==> d[i].cls == ClassName(d[i].prompt) by {
      forall i | 0 <= i < |d| ensures d[i].cls == ClassName(d[i].prompt) {
        if i < |d0| {
          assert d[i] == d0[i];
        }
      }
    }
    forall y | y in init ensures IndexOf(objects, y) == IndexOf(init, y) {
      IndexOfExtend(init, x, y);
    }
    assert IndexOf(objects, x) == n by {
      assert objects[n] == x;
      assert forall j :: 0 <= j < n ==> objects[j] == init[j];
    }
    forall i, j | 0 <= i < j < |d|
      ensures IndexOf(objects, d[i].prompt) < IndexOf(objects, d[j].prompt)
    {
      assert d[i] == d0[i] && d0[i].prompt == Prompts(d0)[i];
      assert d0[i].prompt in init;
      if j < |d0| {
        assert d[j] == d0[j] && d0[j].prompt == Prompts(d0)[j];
        assert d0[j].prompt in init;
      }
    }
  }

  /** The dictionary comprehension builds the ontology of its objects. */
  lemma {:induction false} BuildOntologySpec(objects: seq<string>)
    ensures IsOntologyOf(objects, BuildOntology(objects))
    decreases |objects|
  {
    if objects != [] {
      var n := |objects| - 1;
      var init, x := objects[..n], objects[n];
      assert objects == init + [x];
      BuildOntologySpec(init);
      var d0 := BuildOntology(init);
      if x in init {
        InsertPresent(init, d0, x);
      } else {
        InsertAbsent(init, d0, x);
      }
    }
  }

  lemma {:induction false} DistinctCardinality<T>(s: seq<T>)
    requires Distinct(s)
    ensures |set x | x in s| == |s|
  {
    if s != [] {
      var t := s[1..];
      assert Distinct(t) by {
        forall i, j | 0 <= i < j < |t| ensures t[i] != t[j] {
          assert t[i] == s[i + 1] && t[j] == s[j + 1];
        }
      }
      DistinctCardinality(t);
      assert s[0] !in t by {
        forall i | 0 <= i < |t| ensures t[i] != s[0] {
          assert t[i] == s[i + 1];
        }
      }
      assert (set x | x in s) == (set x | x in t) + {s[0]} by {
        assert s == [s[0]] + t;
      }
    }
  }

  /**
   * Repeated prompts collapse: the reported class count is the number of
   * distinct objects.
   */
  lemma OntologyClassCount(objects: seq<string>)
    ensures |BuildOntology(objects)| == |set x | x in objects|
  {
    var d := BuildOntology(objects);
    BuildOntologySpec(objects);
    DistinctCardinality(Prompts(d));
    assert (set x | x in Prompts(d)) == (set x | x in objects);
  }

  /** Prompts that differ only in case are two entries with the same class name. */
  lemma CaseVariantsCollide()
    ensures Classes(BuildOntology(["Cat", "cat"])) == ["cat", "cat"]
  {
    assert ["Cat", "cat"][..1] == ["Cat"];
    assert ClassName("Cat") == "cat" by {
      assert Replace("Cat", ' ', '_') == "Cat";
      assert LowerChar('C') == 'c';
    }
    assert ClassName("cat") == "cat" by {
      assert Replace("cat", ' ', '_') == "cat";
    }
    assert BuildOntology(["Cat"]) == [Entry("Cat", "cat")] by {
      assert ["Cat"][..0] == [];
    }
    assert IndexOf(Prompts([Entry("Cat", "cat")]), "cat") == 1;
  }

  /**
   * `define_ontology`: parses the list and, unless it is empty, replaces
   * `STATE["ontology"]` with the dictionary built from it.
   */
  method CreateOntology(st: State, objectsList: string) returns (ok: bool, msg: Msg)
    modifies st`ontology
    ensures var objects := ParseObjects(objectsList);
            if objects == [] then
              !ok && msg == EmptyObjects && st.ontology == old(st.ontology)
            else
              var d := BuildOntology(objects);
              ok && st.ontology == Some(d) && msg == OntologyDefined(|d|, Classes(d))
  {
    var objects := ParseObjects(objectsList);
    if objects == [] {
      return false, EmptyObjects;
    }
    var ontologyDict := BuildOntology(objects);
    st.ontology := Some(ontologyDict);
    var classList := Classes(ontologyDict);
    return true, OntologyDefined(|ontologyDict|, classList);
  }

  // ---------------------------------------------------------------------
  // initialize_base_model / initialize_target_model
  // ---------------------------------------------------------------------

  /** `model_name.lower().replace("-", "_")`. */
  function NormalizeBaseName(modelName: string): (name: string)
    ensures |name| == |modelName| && '-' !in name
    ensures forall i :: 0 <= i < |name| ==> !('A' <= name[i] <= 'Z')
    ensures forall i :: 0 <= i < |modelName| ==>
              name[i] == (if LowerChar(modelName[i]) == '-' then '_' else LowerChar(modelName[i]))
  {
    Replace(Lower(modelName), '-', '_')
  }

  /** The spelling users type is accepted: `Grounded-SAM` names the supported model. */
  lemma GroundedSamAccepted()
    ensures NormalizeBaseName("Grounded-SAM") == "grounded_sam"
    ensures NormalizeBaseName("Grounded-SAM") in SUPPORTED_BASE_MODELS
  {
    assert Lower("Grounded-SAM") == "grounded-sam" by {
      assert LowerChar('G') == 'g' && LowerChar('S') == 's';
      assert LowerChar('A') == 'a' && LowerChar('M') == 'm';
    }
  }

  /**
   * `set_base_model`: the ontology check comes first, then the name check,
   * and only a successful library load replaces `STATE["base_model"]`.
   */
  method InitializeBaseModel(st: State, modelName: string, load: LoadOutcome) returns (ok: bool, msg: Msg)
    modifies st`baseModel
    ensures st.ontology.None? ==> !ok && msg == OntologyMissing
    ensures st.ontology.Some? && NormalizeBaseName(modelName) !in SUPPORTED_BASE_MODELS ==>
              !ok && msg == UnsupportedBaseModel(SUPPORTED_BASE_MODELS)
    ensures ok <==> st.ontology.Some? && NormalizeBaseName(modelName) in SUPPORTED_BASE_MODELS && load == Loaded
    ensures ok ==> msg == BaseModelReady
    ensures st.ontology.Some? && NormalizeBaseName(modelName) in SUPPORTED_BASE_MODELS && load == ImportFailed ==>
              msg == BaseModuleMissing("grounded-sam")
    ensures st.ontology.Some? && NormalizeBaseName(modelName) in SUPPORTED_BASE_MODELS && load.LoadFailed? ==>
              msg == BaseModelError(load.reason)
    ensures st.baseModel == if ok then Some(GroundedSam(st.ontology.value)) else old(st.baseModel)
  {
    var name := NormalizeBaseName(modelName);
    if st.ontology.None? {
      return false, OntologyMissing;
    }
    if name !in SUPPORTED_BASE_MODELS {
      return false, UnsupportedBaseModel(SUPPORTED_BASE_MODELS);
    }
    assert name == "grounded_sam";
    match load {
      case Loaded =>
        st.baseModel := Some(GroundedSam(st.ontology.value));
        return true, BaseModelReady;
      case ImportFailed =>
        var packageName := Replace(name, '_', '-');
        assert packageName == "grounded-sam";
        return false, BaseModuleMissing(packageName);
      case LoadFailed(e) =>
        return false, BaseModelError(e);
    }
  }

  /** Target-model names are matched exactly: no case folding. */
  lemma TargetNamesAreExact()
    ensures "YOLOv8n.pt" !in SUPPORTED_TARGET_MODELS
    ensures "yolov8n.pt" in SUPPORTED_TARGET_MODELS
  {
    assert "YOLOv8n.pt"[0] == 'Y';
  }

  /**
   * `set_target_model`: an unsupported name is refused before any library
   * call and leaves `STATE["target_model"]` as it was.
   */
  method InitializeTargetModel(st: State, modelName: string, load: LoadOutcome) returns (ok: bool, msg: Msg)
    modifies st`targetModel
    ensures modelName !in SUPPORTED_TARGET_MODELS ==> !ok && msg == UnsupportedTargetModel(SUPPORTED_TARGET_MODELS)
    ensures ok <==> modelName in SUPPORTED_TARGET_MODELS && load == Loaded
    ensures ok ==> msg == TargetModelReady(modelName)
    ensures modelName in SUPPORTED_TARGET_MODELS && load == ImportFailed ==> msg == TargetModuleMissing
    ensures modelName in SUPPORTED_TARGET_MODELS && load.LoadFailed? ==> msg == TargetModelError(load.reason)
    ensures st.targetModel == if ok then Some(Yolov8(modelName)) else old(st.targetModel)
  {
    if modelName !in SUPPORTED_TARGET_MODELS {
      return false, UnsupportedTargetModel(SUPPORTED_TARGET_MODELS);
    }
    match load {
      case Loaded =>
        st.targetModel := Some(Yolov8(modelName));
        return true, TargetModelReady(modelName);
      case ImportFailed =>
        return false, TargetModuleMissing;
      case LoadFailed(e) =>
        return false, TargetModelError(e);
    }
  }

  // ---------------------------------------------------------------------
  // train_target_model
  // ---------------------------------------------------------------------

  /** Where the labelled dataset's `data.yaml` is expected. */
  function DataYamlPath(labeledDataset: Path): Path {
    PathJoin(labeledDataset, "data.yaml")
  }

  /**
   * Training: non-positive epochs are refused before `data.yaml` is looked
   * for or the model touched; a missing `data.yaml` is refused next; only a
   * completed training records `runs/detect` under the working directory.
   * `existing` is what `os.path.exists` sees.
   */
  method TrainTargetModel(st: State, epochs: int, device: int, existing: set<Path>, cwd: Path,
                          train: TrainOutcome) returns (ok: bool, msg: Msg)
    modifies st`trainedModelPath
    ensures epochs <= 0 ==> !ok && msg == EpochsNotPositive
    ensures epochs > 0 && DataYamlPath(st.labeledDataset) !in existing ==>
              !ok && msg == DataYamlMissing(DataYamlPath(st.labeledDataset))
    ensures ok <==> && epochs > 0 && DataYamlPath(st.labeledDataset) in existing
                    && st.targetModel.Some? && train == TrainOk
    ensures ok ==> msg == TrainingDone(epochs, device, PathJoin(cwd, "runs/detect"))
    // any exception inside the `try`, including calling `train` on None, is reported
    ensures epochs > 0 && DataYamlPath(st.labeledDataset) in existing && st.targetModel.None? ==>
              msg == TrainingError("'NoneType' object has no attribute 'train'")
    ensures epochs > 0 && DataYamlPath(st.labeledDataset) in existing && st.targetModel.Some? && train.TrainRaised? ==>
              msg == TrainingError(train.reason)
    ensures st.trainedModelPath == if ok then Some(PathJoin(cwd, "runs/detect")) else old(st.trainedModelPath)
  {
    if epochs <= 0 {
      return false, EpochsNotPositive;
    }
    var dataYamlPath := DataYamlPath(st.labeledDataset);
    if dataYamlPath !in existing {
      return false, DataYamlMissing(dataYamlPath);
    }
    if st.targetModel.None? {
      // calling `train` on None raises AttributeError, caught like any other
      return false, TrainingError("'NoneType' object has no attribute 'train'");
    }
    match train {
      case TrainRaised(e) =>
        return false, TrainingError(e);
      case TrainOk =>
        var runsDir := PathJoin(cwd, "runs/detect");
        st.trainedModelPath := Some(runsDir);
        return true, TrainingDone(epochs, device, runsDir);
    }
  }
}
