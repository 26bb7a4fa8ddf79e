/**
 The installation root, the robot catalog and the model-file resolver:
 `get_models_path`, `get_robot_names`, `get_model_file` and `get_model_string`.
 The older copy of the package repeats the first three verbatim, so one set of
 definitions stands for both.
 */
module Catalog {
  import opened Types
  import opened Paths
  import opened FileTree

  /** The installed package: the directory holding its `__init__.py`, and what the
      filesystem holds at that directory (`None` when nothing is there). */
  datatype Installation = Installation(pkgDir: string, tree: Option<Node>)

  /** `get_models_path`: the package directory with a separator appended. */
  function ModelsPath(pkgDir: string): (r: string)
    ensures StartsWith(r, pkgDir) && |r| == |pkgDir| + 1 && r[|pkgDir|] == '/'
  {
    pkgDir + "/"
  }

  /** Names starting with `__` belong to code (`__pycache__`), not to robots. */
  predicate Reserved(name: string) {
    StartsWith(name, "__")
  }

  /** The catalog, independently of how it is listed: `name` is a sub-directory of
      the models root and is not reserved. */
  predicate Catalogued(inst: Installation, name: string) {
    && inst.tree.Some? && inst.tree.value.Dir?
    && exists i :: 0 <= i < |inst.tree.value.entries| &&
         inst.tree.value.entries[i].name == name &&
         inst.tree.value.entries[i].node.Dir? && !Reserved(name)
  }

  /** The names of the listing that are directories and not reserved, in listing order. */
  function SubdirNames(entries: seq<Entry>): seq<string> {
    if |entries| == 0 then []
    else
      var head := if entries[0].node.Dir? && !Reserved(entries[0].name) then [entries[0].name] else [];
      head + SubdirNames(entries[1..])
  }

  /** `get_robot_names`: `os.listdir` of the models root fails unless it is a directory. */
  function RobotNames(inst: Installation): (r: Result<seq<string>>)
    ensures r.Ok? <==> inst.tree.Some? && inst.tree.value.Dir?
    ensures r.Err? ==> r.error == RootNotListable(ModelsPath(inst.pkgDir))
  {
    match inst.tree
    case Some(Dir(entries)) => Ok(SubdirNames(entries))
    case _ => Err(RootNotListable(ModelsPath(inst.pkgDir)))
  }

  /** `model_dir` of a robot. */
  function RobotDir(pkgDir: string, name: string): string {
    Join(ModelsPath(pkgDir), name)
  }

  /** The entries of `model_dir` when `os.path.isdir(model_dir)` holds. */
  function RobotEntries(inst: Installation, name: string): Option<seq<Entry>> {
    match inst.tree
    case Some(Dir(root)) =>
      (match Lookup(root, name)
       case Some(Dir(entries)) => Some(entries)
       case _ => None)
    case _ => None
  }

  /** The two description formats, told apart by extension. */
  predicate IsModelName(f: string) {
    EndsWith(f, ".urdf") || EndsWith(f, ".sdf")
  }

  /** The model-file basenames `os.walk` reports below `n`, in walk order: the files
      of a directory first, then each sub-directory in listing order. */
  function Walk(n: Node): seq<string>
    decreases n, 1
  {
    match n
    case File(_) => []
    case Dir(entries) => FilesHere(entries) + WalkSubdirs(entries)
  }

  /** The model-file names among the non-directory entries of one listing. */
  function FilesHere(entries: seq<Entry>): seq<string> {
    if |entries| == 0 then []
    else
      var e := entries[0];
      if e.node.File? && IsModelName(e.name) then [e.name] + FilesHere(entries[1..])
      else FilesHere(entries[1..])
  }

  /** The walks of the sub-directories of one listing, concatenated in listing order. */
  function WalkSubdirs(entries: seq<Entry>): seq<string>
    decreases entries, 0
  {
    if |entries| == 0 then [] else Walk(entries[0].node) + WalkSubdirs(entries[1..])
  }

  /** What `get_model_file` settles on: the robot, `model_dir`, and the one basename
      the walk found. */
  datatype StoredModel = StoredModel(robot: string, modelDir: string, baseName: string) {
    /** `os.path.join(model_dir, models_found[0])`: the basename goes straight under
        `model_dir`, whichever sub-directory the walk found it in. */
    function Path(): string {
      Join(modelDir, baseName)
    }
  }

  /** `get_model_file`, keeping the pieces of the path it returns. */
  function Resolve(inst: Installation, name: string): Result<StoredModel> {
    match RobotNames(inst)
    case Err(e) => Err(e)
    case Ok(names) =>
      if name !in names then Err(UnknownRobot(name))
      else
        var modelDir := RobotDir(inst.pkgDir, name);
        match RobotEntries(inst, name)
        case None => Err(MissingDirectory(modelDir))
        case Some(entries) =>
          var found := Walk(Dir(entries));
          if |found| != 1 then Err(ModelCount(found))
          else Ok(StoredModel(name, modelDir, found[0]))
  }

  /** `get_model_file`: the path of the robot's one model file, which ends in
      exactly one of the two extensions. */
  function GetModelFile(inst: Installation, name: string): (r: Result<string>)
    ensures r.Err? <==> Resolve(inst, name).Err?
    ensures r.Err? ==> r.error == Resolve(inst, name).error
    ensures r.Ok? ==> EndsWith(r.value, ".urdf") != EndsWith(r.value, ".sdf")
  {
    match Resolve(inst, name)
    case Err(e) => Err(e)
    case Ok(stored) =>
      ResolveSpec(inst, name);
      ModelPathSuffix(stored.modelDir, stored.baseName);
      Ok(stored.Path())
  }

  /** How `get_model_file` fails and what it settles on. The root must be listable;
      the name must be catalogued; the robot's directory must be a directory; the
      walk must report exactly one model file, whose basename is then kept. */
  lemma {:induction false} ResolveSpec(inst: Installation, name: string)
    ensures var r := Resolve(inst, name);
      && (r.Err? && r.error.RootNotListable? <==> !(inst.tree.Some? && inst.tree.value.Dir?))
      && (inst.tree.Some? && inst.tree.value.Dir? ==>
           (r == Err(UnknownRobot(name)) <==> !Catalogued(inst, name)))
      && (r.Err? && r.error.MissingDirectory? ==>
           Catalogued(inst, name) && RobotEntries(inst, name).None?)
      && (Catalogued(inst, name) && RobotEntries(inst, name).Some? ==>
           (r.Ok? <==> |Walk(Dir(RobotEntries(inst, name).value))| == 1))
      && (r.Err? && r.error.ModelCount? ==>
           && Catalogued(inst, name) && RobotEntries(inst, name).Some?
           && r.error.found == Walk(Dir(RobotEntries(inst, name).value)) && |r.error.found| != 1)
      && (r.Ok? ==>
           && Catalogued(inst, name) && RobotEntries(inst, name).Some?
           && r.value == StoredModel(name, RobotDir(inst.pkgDir, name), r.value.baseName)
           && Walk(Dir(RobotEntries(inst, name).value)) == [r.value.baseName]
           && IsModelName(r.value.baseName))
  {
    if inst.tree.Some? && inst.tree.value.Dir? && Catalogued(inst, name) && RobotEntries(inst, name).Some? {
      var found := Walk(Dir(RobotEntries(inst, name).value));
      if |found| == 1 {
        assert found[0] in found;
        WalkFindsEveryModelFile(Dir(RobotEntries(inst, name).value), found[0]);
      }
    }
    if inst.tree.Some? && inst.tree.value.Dir? {
      RobotNamesAreCatalog(inst);
    }
  }

  /** On success `get_model_file` joins `model_dir` with the basename of the one
      model file found anywhere below it. */
  lemma {:induction false} ModelFileIsJoinedBasename(inst: Installation, name: string)
    requires GetModelFile(inst, name).Ok?
    ensures Catalogued(inst, name) && RobotEntries(inst, name).Some?
    ensures exists b :: && HasFile(Dir(RobotEntries(inst, name).value), b)
                        && GetModelFile(inst, name).value == Join(RobotDir(inst.pkgDir, name), b)
                        && Walk(Dir(RobotEntries(inst, name).value)) == [b]
  {
    ResolveSpec(inst, name);
    var b := Resolve(inst, name).value.baseName;
    WalkFindsEveryModelFile(Dir(RobotEntries(inst, name).value), b);
  }

  /** Opening the stored path: `model_dir` / basename must be a regular file. */
  function ReadStored(inst: Installation, stored: StoredModel): (r: Result<string>)
    ensures r.Ok? <==> (RobotEntries(inst, stored.robot).Some? &&
      IsFile(Lookup(RobotEntries(inst, stored.robot).value, stored.baseName)))
    ensures r.Ok? ==> Lookup(RobotEntries(inst, stored.robot).value, stored.baseName) == Some(File(r.value))
    ensures r.Err? ==> r.error == CannotOpen(stored.Path())
  {
    match RobotEntries(inst, stored.robot)
    case Some(entries) =>
      (match Lookup(entries, stored.baseName)
       case Some(File(content)) => Ok(content)
       case _ => Err(CannotOpen(stored.Path())))
    case None => Err(CannotOpen(stored.Path()))
  }

  /** `get_model_string`: the text of the file at the path `get_model_file` returns,
      that is, of the entry named by the found basename directly in `model_dir`. */
  function GetModelString(inst: Installation, name: string): (r: Result<string>)
    ensures r.Ok? ==> GetModelFile(inst, name).Ok?
    ensures GetModelFile(inst, name).Err? ==> r.Err? && r.error == GetModelFile(inst, name).error
    ensures GetModelFile(inst, name).Ok? && r.Err? ==> r.error == CannotOpen(GetModelFile(inst, name).value)
    ensures Resolve(inst, name).Ok? ==>
      (r.Ok? <==> (RobotEntries(inst, name).Some? &&
                   IsFile(Lookup(RobotEntries(inst, name).value, Resolve(inst, name).value.baseName))))
    ensures r.Ok? ==>
      Lookup(RobotEntries(inst, name).value, Resolve(inst, name).value.baseName) == Some(File(r.value))
  {
    match Resolve(inst, name)
    case Err(e) => Err(e)
    case Ok(stored) =>
      ResolveSpec(inst, name);
      ReadStored(inst, stored)
  }

  // ---------------------------------------------------------------------
  // Properties

  /** The path handed back keeps the extension of the basename found, and so
      ends in exactly one of the two. */
  lemma {:induction false} ModelPathSuffix(dir: string, b: string)
    requires IsModelName(b)
    ensures EndsWith(Join(dir, b), ".urdf") != EndsWith(Join(dir, b), ".sdf")
    ensures EndsWith(Join(dir, b), ".urdf") == EndsWith(b, ".urdf")
  {
    var p := Join(dir, b);
    JoinEndsWithName(dir, b);
    if EndsWith(b, ".urdf") {
      assert p[|p| - 5..] == b[|b| - 5..];
    } else {
      assert p[|p| - 4..] == b[|b| - 4..];
    }
    ModelSuffixesExclusive(p);
  }

  /** With the package directory written without a trailing separator, the
      `Path` of the models path is the package directory again, and a child of it
      is the package directory, one separator, the child's name. */
  lemma {:induction false} ModelsPathNormalises(pkgDir: string, name: string)
    requires |pkgDir| > 0 && pkgDir[|pkgDir| - 1] != '/'
    ensures PathString(ModelsPath(pkgDir)) == pkgDir
    ensures PathChild(ModelsPath(pkgDir), name) == pkgDir + "/" + name
  {
    var m := ModelsPath(pkgDir);
    assert m[..|m| - 1] == pkgDir;
    NoTrailingSeparator(pkgDir);
  }

  /** On a real filesystem the catalog lists every robot exactly once. */
  lemma {:induction false} CatalogListsEachRobotOnce(inst: Installation)
    requires inst.tree.Some? && WellFormed(inst.tree.value)
    requires inst.tree.value.Dir?
    ensures RobotNames(inst).Ok?
    ensures forall i, j :: 0 <= i < j < |RobotNames(inst).value| ==>
      RobotNames(inst).value[i] != RobotNames(inst).value[j]
  {
    SubdirNamesDistinct(inst.tree.value.entries);
  }

  lemma {:induction false} SubdirNamesDistinct(entries: seq<Entry>)
    requires DistinctNames(entries)
    ensures forall i, j :: 0 <= i < j < |SubdirNames(entries)| ==>
      SubdirNames(entries)[i] != SubdirNames(entries)[j]
  {
    if |entries| > 0 {
      var rest := entries[1..];
      assert DistinctNames(rest) by {
        assert forall i :: 0 <= i < |rest| ==> rest[i] == entries[i + 1];
      }
      SubdirNamesDistinct(rest);
      SubdirNamesSpec(rest);
      assert entries[0].name !in SubdirNames(rest) by {
        assert forall i :: 0 <= i < |rest| ==> rest[i].name != entries[0].name by {
          assert forall i :: 0 <= i < |rest| ==> rest[i] == entries[i + 1];
        }
      }
    }
  }

  /** The catalog lists exactly the sub-directories of the models root whose
      names are not reserved. */
  lemma {:induction false} RobotNamesAreCatalog(inst: Installation)
    requires inst.tree.Some? && inst.tree.value.Dir?
    ensures forall x :: x in RobotNames(inst).value <==> Catalogued(inst, x)
  {
    SubdirNamesSpec(inst.tree.value.entries);
  }

  lemma {:induction false} SubdirNamesSpec(entries: seq<Entry>)
    ensures forall x :: x in SubdirNames(entries) <==>
      exists i :: 0 <= i < |entries| && entries[i].name == x && entries[i].node.Dir? && !Reserved(x)
  {
    if |entries| > 0 {
      SubdirNamesSpec(entries[1..]);
      assert forall i :: 0 <= i < |entries| - 1 ==> entries[1..][i] == entries[i + 1];
    }
  }

  /** The walk reports a name exactly when it is a model-file name and a file of
      that name lies anywhere below the directory. */
  lemma {:induction false} WalkFindsEveryModelFile(n: Node, f: string)
    ensures f in Walk(n) <==> IsModelName(f) && HasFile(n, f)
    decreases n, 1
  {
    match n
    case File(_) =>
    case Dir(entries) =>
      FilesHereSpec(entries, f);
      WalkSubdirsSpec(entries, f);
  }

  lemma {:induction false} FilesHereSpec(entries: seq<Entry>, f: string)
    ensures f in FilesHere(entries) <==> IsModelName(f) && FileAmong(entries, f)
  {
    if |entries| > 0 {
      var e := entries[0];
      FilesHereSpec(entries[1..], f);
      FileAmongSplit(entries, f);
      assert FilesHere(entries) == (if e.node.File? && IsModelName(e.name) then [e.name] else []) + FilesHere(entries[1..]);
    }
  }

  lemma {:induction false} WalkSubdirsSpec(entries: seq<Entry>, f: string)
    ensures f in WalkSubdirs(entries) <==>
      IsModelName(f) && exists i :: 0 <= i < |entries| && HasFile(entries[i].node, f)
    decreases entries, 0
  {
    if |entries| > 0 {
      WalkFindsEveryModelFile(entries[0].node, f);
      WalkSubdirsSpec(entries[1..], f);
      assert forall i :: 0 <= i < |entries| - 1 ==> entries[1..][i] == entries[i + 1];
    }
  }

  /** Files sharing a basename in two different sub-directories are reported
      once each. */
  lemma {:induction false} TwoSubdirsReportTwice(entries: seq<Entry>, i: nat, j: nat, f: string)
    requires IsModelName(f) && i < j < |entries|
    requires HasFile(entries[i].node, f) && HasFile(entries[j].node, f)
    ensures multiset(WalkSubdirs(entries))[f] >= 2
  {
    var rest := entries[1..];
    assert rest[j - 1] == entries[j];
    if i == 0 {
      WalkFindsEveryModelFile(entries[0].node, f);
      WalkSubdirsSpec(rest, f);
    } else {
      assert rest[i - 1] == entries[i];
      TwoSubdirsReportTwice(rest, i - 1, j - 1, f);
    }
  }

  /** Two or more model files sharing a basename anywhere below a robot's
      directory (side by side in sub-directories, or one directly in it and one
      deeper) make `get_model_file` fail, listing the basename once per file,
      though a set of names would hold it once. */
  lemma {:induction false} SameBasenameTwiceIsAmbiguous(inst: Installation, name: string, f: string)
    requires Catalogued(inst, name) && RobotEntries(inst, name).Some?
    requires IsModelName(f) && CountFiles(Dir(RobotEntries(inst, name).value), f) >= 2
    ensures GetModelFile(inst, name).Err? && GetModelFile(inst, name).error.ModelCount?
    ensures multiset(GetModelFile(inst, name).error.found)[f] == CountFiles(Dir(RobotEntries(inst, name).value), f)
  {
    var below := Dir(RobotEntries(inst, name).value);
    WalkCounts(below, f);
    ResolveSpec(inst, name);
  }

  /** `get_model_file` succeeds exactly when one model file lies below the robot's
      directory, at any depth, and the basename it keeps is that file's name. */
  lemma {:induction false} ResolveFindsExactlyOne(inst: Installation, name: string)
    requires Catalogued(inst, name) && RobotEntries(inst, name).Some?
    ensures var below := Dir(RobotEntries(inst, name).value);
            && (Resolve(inst, name).Ok? <==> ModelFiles(below) == 1)
            && (Resolve(inst, name).Ok? ==> CountFiles(below, Resolve(inst, name).value.baseName) == 1)
            && (Resolve(inst, name).Err? ==>
                 Resolve(inst, name).error == ModelCount(Walk(below)) && |Walk(below)| == ModelFiles(below))
  {
    var below := Dir(RobotEntries(inst, name).value);
    ResolveSpec(inst, name);
    WalkLength(below);
    if Resolve(inst, name).Ok? {
      var b := Resolve(inst, name).value.baseName;
      WalkCounts(below, b);
      assert multiset(Walk(below)) == multiset{b};
    }
  }

  /** The number of model files below `n`, at any depth. */
  function ModelFiles(n: Node): nat
    decreases n, 1
  {
    match n
    case File(_) => 0
    case Dir(entries) => ModelFilesIn(entries)
  }

  /** `ModelFiles` summed over one listing: the entries themselves and what lies below each. */
  function ModelFilesIn(entries: seq<Entry>): nat
    decreases entries, 0
  {
    if |entries| == 0 then 0
    else
      (if entries[0].node.File? && IsModelName(entries[0].name) then 1 else 0)
      + ModelFiles(entries[0].node) + ModelFilesIn(entries[1..])
  }

  /** The walk reports a model-file name once per file of that name below `n`. */
  lemma {:induction false} WalkCounts(n: Node, f: string)
    requires IsModelName(f)
    ensures multiset(Walk(n))[f] == CountFiles(n, f)
    decreases n, 1
  {
    match n
    case File(_) =>
    case Dir(entries) =>
      WalkCountsIn(entries, f);
  }

  lemma {:induction false} WalkCountsIn(entries: seq<Entry>, f: string)
    requires IsModelName(f)
    ensures multiset(FilesHere(entries))[f] + multiset(WalkSubdirs(entries))[f] == CountIn(entries, f)
    decreases entries, 0
  {
    if |entries| > 0 {
      var e := entries[0];
      var rest := entries[1..];
      WalkCounts(e.node, f);
      WalkCountsIn(rest, f);
      assert FilesHere(entries) == (if e.node.File? && IsModelName(e.name) then [e.name] else []) + FilesHere(rest);
      assert WalkSubdirs(entries) == Walk(e.node) + WalkSubdirs(rest);
    }
  }

  /** The walk reports one name per model file below `n`. */
  lemma {:induction false} WalkLength(n: Node)
    ensures |Walk(n)| == ModelFiles(n)
    decreases n, 1
  {
    match n
    case File(_) =>
    case Dir(entries) =>
      WalkLengthIn(entries);
  }

  lemma {:induction false} WalkLengthIn(entries: seq<Entry>)
    ensures |FilesHere(entries)| + |WalkSubdirs(entries)| == ModelFilesIn(entries)
    decreases entries, 0
  {
    if |entries| > 0 {
      var e := entries[0];
      var rest := entries[1..];
      WalkLength(e.node);
      WalkLengthIn(rest);
      assert FilesHere(entries) == (if e.node.File? && IsModelName(e.name) then [e.name] else []) + FilesHere(rest);
      assert WalkSubdirs(entries) == Walk(e.node) + WalkSubdirs(rest);
    }
  }

  /** On a real filesystem a catalogued robot always has its directory: the
      `MissingDirectory` guard only fires if the tree changes between the two looks. */
  lemma {:induction false} CataloguedRobotHasDirectory(inst: Installation, name: string)
    requires inst.tree.Some? && WellFormed(inst.tree.value)
    ensures Catalogued(inst, name) ==> RobotEntries(inst, name).Some?
    ensures !(Resolve(inst, name).Err? && Resolve(inst, name).error.MissingDirectory?)
  {
    if Catalogued(inst, name) {
      var root := inst.tree.value.entries;
      var i :| 0 <= i < |root| && root[i].name == name && root[i].node.Dir? && !Reserved(name);
      LookupDistinct(root, i);
    }
    ResolveSpec(inst, name);
  }

  /** The path `get_model_file` returns names the model file only when that file
      sits directly in the robot's directory: a model found deeper is reported at a
      path where it is not, and reading that path fails. */
  lemma {:induction false} StoredPathReadableIffTopLevel(inst: Installation, name: string)
    requires inst.tree.Some? && WellFormed(inst.tree.value)
    requires Resolve(inst, name).Ok?
    ensures var entries := RobotEntries(inst, name).value;
            var b := Resolve(inst, name).value.baseName;
            && (GetModelString(inst, name).Ok? <==>
                 exists i :: 0 <= i < |entries| && entries[i].name == b && entries[i].node.File?)
            && (GetModelString(inst, name).Err? ==>
                 GetModelString(inst, name).error == CannotOpen(GetModelFile(inst, name).value))
  {
    var stored := Resolve(inst, name).value;
    assert stored.robot == name && RobotEntries(inst, name).Some?;
    assert GetModelString(inst, name) == ReadStored(inst, stored);
    RobotDirWellFormed(inst, name);
    ReadStoredIffTopLevel(inst, stored);
  }

  /** A robot's directory in a real tree is itself a real tree. */
  lemma {:induction false} RobotDirWellFormed(inst: Installation, name: string)
    requires inst.tree.Some? && WellFormed(inst.tree.value)
    requires RobotEntries(inst, name).Some?
    ensures WellFormed(Dir(RobotEntries(inst, name).value))
    ensures DistinctNames(RobotEntries(inst, name).value)
  {
    var entries := RobotEntries(inst, name).value;
    var root := inst.tree.value.entries;
    var k :| 0 <= k < |root| && root[k] == Entry(name, Dir(entries));
    assert WellFormed(root[k].node);
  }

  /** In a directory whose names are distinct, opening `model_dir` / basename
      succeeds exactly when a file of that name sits directly in it. */
  lemma {:induction false} ReadStoredIffTopLevel(inst: Installation, stored: StoredModel)
    requires RobotEntries(inst, stored.robot).Some? && DistinctNames(RobotEntries(inst, stored.robot).value)
    ensures var entries := RobotEntries(inst, stored.robot).value;
            ReadStored(inst, stored).Ok? <==>
              exists i :: 0 <= i < |entries| && entries[i].name == stored.baseName && entries[i].node.File?
  {
    var entries := RobotEntries(inst, stored.robot).value;
    if exists i :: 0 <= i < |entries| && entries[i].name == stored.baseName && entries[i].node.File? {
      var i :| 0 <= i < |entries| && entries[i].name == stored.baseName && entries[i].node.File?;
      LookupDistinct(entries, i);
    }
  }
}
