# gym-ignition-models locator, modelled in Dafny

gym-ignition-models ships robot description files for the Ignition Gazebo
simulator and a small Python module that finds them. This project models that
module over an immutable filesystem value:

- **Installation and catalog** (`catalog.dfy`, module `Catalog`). The package
  directory (`Installation.pkgDir`) holds a tree (`FileTree.Node`): files with
  text content, and directories as listings in `os.listdir` order.
  - `get_models_path` is the package directory plus `/`.
  - `get_robot_names` is the directory children of the root whose names do not
    start with `__`.
  - `get_model_file` checks the name against the catalog, then checks that the
    robot's directory is a directory. It walks the directory's subtree in
    `os.walk` order, collecting the basenames of files ending in `.urdf` or
    `.sdf`, and requires exactly one.
  - It returns `model_dir` joined with that **basename**, whichever
    sub-directory the file was found in. The model keeps this behaviour.
  - `get_model_string` reads the file at that path.
- **Resource dispatcher** (`resources.dfy`, module `Resources`).
  `get_model_resource` is a table over the stored format and the six
  `ResourceType` values. Each call yields a `Response` with three parts:
  - the resource or the error;
  - the temporary files the call created, each with its content and whether
    closing its handle deletes it;
  - the paths handed to the URDF to SDF converter.

  The converter is a parameter: a flag saying whether the simulator bindings
  import, and a function from a URDF path, together with the file's text when
  the path names a readable file, to either SDF text or an exception message. The
  temporary-file facility is a parameter too: its directory and the random part
  of the name. `SDF_FILE` and `SDF_PATH` call the dispatcher again for
  `SDF_STRING`, as the source does.
- **Environment configurator** (`environment.dfy`, module `Environment`).
  `setup_environment` appends the models root and then the directories of three
  fixed robots to `IGN_GAZEBO_RESOURCE_PATH`. The variable's value (unset is
  `None`) goes in and comes back out.
- **Path helpers** (`paths.dfy`, module `Paths`). These model the parts of
  `os.path.join`, `str(pathlib.Path(...))`, `PurePath.name`, `PurePath.suffix`
  and `with_suffix('')` that the module relies on.

Errors are values of `Types.Error`, one constructor per kind of failure: the
module's own `raise` statements (`PathNotFound` for lines 96 and 114,
`UnexpectedResourceType` for lines 204 and 223), the errors of `os.listdir`
(`RootNotListable`) and `open` (`CannotOpen`), and `ConversionFailed` for
whatever the converter raises.

Two facts about the code are worth stating on their own:

- `setup_environment` is not idempotent: a second call appends every directory
  again (`Environment.SecondSetupRepeats`).
- `get_robot_names` returns a list in listing order, with no repeats on a real
  filesystem (`Catalog.CatalogListsEachRobotOnce`).

## Model

Paths in the source column are relative to the repository root. `src/...` is
the current module and `gym_ignition_models/...` is its older duplicate. Both
share the same definitions here.

| member | source | states |
|---|---|---|
| Catalog.ModelsPath | gym_ignition_models/__init__.py:16-17 | the models path is the package directory followed by exactly one `/` |
| Catalog.ModelsPathNormalises | src/gym_ignition_models/__init__.py:93-111 | `Path(get_models_path())` drops the trailing `/` and gives back the package directory; a child of it is the package directory, `/`, the child's name |
| Catalog.RobotNames | src/gym_ignition_models/__init__.py:32-34 | listing the root succeeds exactly when the root is a directory, and otherwise fails naming the models path |
| Catalog.RobotNamesAreCatalog | src/gym_ignition_models/__init__.py:32-34 | a name is listed exactly when it is a directory child of the root and does not start with `__` |
| Catalog.SubdirNamesSpec | gym_ignition_models/__init__.py:29-31 | the names kept from a listing are exactly those of its directory entries without the reserved prefix |
| Catalog.CatalogListsEachRobotOnce | gym_ignition_models/__init__.py:29-31 | on a tree with distinct names, no robot is listed twice |
| Catalog.ResolveSpec | src/gym_ignition_models/__init__.py:47-66 | each failure and its cause: unlistable root; unknown name exactly when not catalogued; missing directory only for a catalogued name without a directory; a walk of other than one model file, reporting what was found. Success exactly when the walk finds one model file, whose basename is kept under `model_dir` |
| Catalog.GetModelFile | src/gym_ignition_models/__init__.py:47-66 | fails exactly when the resolution fails, with its error; a returned path ends in exactly one of `.urdf` and `.sdf` |
| Catalog.ModelFileIsJoinedBasename | gym_ignition_models/__init__.py:52-63 | on success the path is `model_dir` joined with the one basename the walk reports, and a file of that name lies somewhere below `model_dir` |
| Catalog.ModelPathSuffix | src/gym_ignition_models/__init__.py:59-66 | joining a model-file name under a directory keeps its extension, so the path ends in exactly one of the two |
| Catalog.WalkFindsEveryModelFile | src/gym_ignition_models/__init__.py:57-60 | the walk reports a name exactly when it is a model-file name and a file of that name lies at any depth below |
| Catalog.FilesHereSpec | src/gym_ignition_models/__init__.py:58-60 | from one listing the walk keeps exactly the model-file names of its regular files |
| Catalog.WalkSubdirsSpec | src/gym_ignition_models/__init__.py:57 | the walk of a listing's sub-directories reports exactly the model files lying below one of them |
| Catalog.TwoSubdirsReportTwice | src/gym_ignition_models/__init__.py:57-60 | a basename present below two sub-directories is reported at least twice |
| Catalog.SameBasenameTwiceIsAmbiguous | src/gym_ignition_models/__init__.py:57-63 | two or more model files sharing a basename anywhere below `model_dir` (in two sub-directories, or one directly in it and one deeper) make `get_model_file` fail with a count error listing that name once per file |
| Catalog.ResolveFindsExactlyOne | src/gym_ignition_models/__init__.py:55-66 | for a catalogued robot with a directory, `get_model_file` succeeds exactly when one model file lies below `model_dir` at any depth, and keeps that file's name; otherwise the count error lists one name per model file |
| Catalog.WalkCounts | src/gym_ignition_models/__init__.py:57-60 | the walk reports a model-file name once for each regular file of that name at any depth (the independent `FileTree.CountFiles`) |
| Catalog.WalkLength | src/gym_ignition_models/__init__.py:57-60 | the walk reports as many names as there are model files at any depth |
| Catalog.CataloguedRobotHasDirectory | gym_ignition_models/__init__.py:44-50 | on a tree with distinct names, a catalogued robot always has its directory, so the missing-directory error cannot occur |
| Catalog.ReadStored | src/gym_ignition_models/__init__.py:82-83 | opening the stored path succeeds exactly when the robot's directory holds a regular file of that basename directly, and then yields its content; otherwise it fails naming the path |
| Catalog.ReadStoredIffTopLevel | src/gym_ignition_models/__init__.py:82-83 | with distinct names, opening succeeds exactly when a regular file of the basename sits directly in the robot's directory |
| Catalog.GetModelString | src/gym_ignition_models/__init__.py:80-85 | a failure of `get_model_file` propagates unchanged. Otherwise the call succeeds exactly when `model_dir` directly holds a regular file with the found basename, and the text is that file's content; a failure is the open error on the returned path |
| Catalog.StoredPathReadableIffTopLevel | src/gym_ignition_models/__init__.py:57-83 | on a real tree `get_model_string` succeeds exactly when the model file sits directly in the robot's directory; a model found deeper is reported at a path that cannot be opened |
| Paths.ModelSuffixesExclusive | src/gym_ignition_models/__init__.py:155-158 | no name ends in both `.urdf` and `.sdf`, so the two branches of the dispatcher never overlap |
| Paths.StemOfExtension | src/gym_ignition_models/__init__.py:180 | `with_suffix('')` of a `.urdf`/`.sdf` name removes exactly that extension, except for a name that is only the extension, which has no suffix |
| Paths.BaseNameOfJoin | src/gym_ignition_models/__init__.py:180 | `Path(...).name` of a valid name joined under any directory is that name again |
| Paths.StemOfJoinedModel | src/gym_ignition_models/__init__.py:190 | the temp-file prefix computed from a stored `.urdf` path is its basename without `.urdf` |
| Resources.GetModelResource | src/gym_ignition_models/__init__.py:153-223 | never raises the "no urdf nor sdf" error or the fall-through `ValueError`; `SDF_STRING` yields text and creates no file; the converter is called only for an SDF request with the converter present; at most one temporary file, and only for `SDF_FILE`/`SDF_PATH` |
| Resources.ResolverErrorsPropagate | src/gym_ignition_models/__init__.py:153 | a failing `get_model_file` fails the dispatcher with the same error, creating and converting nothing |
| Resources.FromUrdf | src/gym_ignition_models/__init__.py:158-204 | the URDF table never falls through to its `ValueError`; only `SDF_FILE`/`SDF_PATH` create a file, one, and only with the converter |
| Resources.FromSdf | src/gym_ignition_models/__init__.py:206-223 | the SDF table never falls through to its `ValueError` and never creates or converts |
| Resources.OpenStored | src/gym_ignition_models/__init__.py:163-164 | opening succeeds exactly when the stored file can be read: a handle on the stored path that reads its content and that closing does not delete; otherwise the open error on that path. Nothing is created or converted |
| Resources.ReadStoredText | src/gym_ignition_models/__init__.py:166-168 | reading succeeds exactly when the stored file can be read, giving its whole content as text; otherwise the open error on the stored path. Nothing is created or converted |
| Resources.ConvertStored | src/gym_ignition_models/__init__.py:200-202 | the converter is called once, on the stored path, seeing what is there; its SDF text is the result, and its exception becomes the error with its message |
| Resources.IntoTempFile | src/gym_ignition_models/__init__.py:179-198 | the temporary file exists even when the nested conversion fails (empty then); otherwise it holds the converted text and comes back as a self-deleting handle or as its path |
| Resources.UrdfStoredDirect | src/gym_ignition_models/__init__.py:158-168 | for a URDF model, `URDF_PATH` is the `get_model_file` path, and `URDF_STRING` is the `get_model_string` text or its error. `URDF_FILE` is a non-deleting handle on that path and text. None of them creates a file or calls the converter, whatever the converter is |
| Resources.ConversionNeedsConverter | src/gym_ignition_models/__init__.py:170-177 | for a URDF model without the converter, every SDF request fails before any temporary file is created |
| Resources.SdfStringIsConversion | src/gym_ignition_models/__init__.py:200-202 | with the converter, `SDF_STRING` of a URDF model calls it once on the `get_model_file` path, which it sees holding the `get_model_string` text (nothing when that read fails); its text is returned and its exception raised; no file is created |
| Resources.SdfTempFiles | src/gym_ignition_models/__init__.py:179-202 | for a URDF model the converter turns into SDF text, `SDF_STRING` is that text, and `SDF_PATH` and `SDF_FILE` each create exactly one temporary file holding exactly the `SDF_STRING` text. `SDF_PATH` returns its path and leaves it on disk. `SDF_FILE` returns a handle that deletes it on close |
| Resources.SdfTempPathShape | src/gym_ignition_models/__init__.py:180-183 | the temporary file's path ends in `<stem><random>.sdf`, the name `tempfile` builds from prefix, random part and suffix, and so ends in `.sdf` |
| Resources.TempNameKeepsStem | src/gym_ignition_models/__init__.py:180-191 | on a real tree the prefix of the temporary file's name is the stored basename without `.urdf` |
| Resources.FailedConversionLeavesTempFile | src/gym_ignition_models/__init__.py:179-202 | when the converter raises on a URDF model, `SDF_STRING` fails with its message, and `SDF_PATH`/`SDF_FILE` fail with the same error after creating the temporary file, which is left empty; the `SDF_PATH` one stays behind |
| Resources.UnreadableModelLeaksTempFile | src/gym_ignition_models/__init__.py:189-202 | for a model reported at a path where no file is, a converter that raises on that path makes `SDF_PATH`/`SDF_FILE` fail with its message, after creating an empty temporary file |
| Resources.SdfStoredNoConversion | src/gym_ignition_models/__init__.py:206-221 | for an SDF model every URDF request fails whatever the converter. `SDF_PATH` is the stored path, and `SDF_STRING`/`SDF_FILE` are its text or handle, or the read error. Nothing is created or converted |
| Environment.SetupEnvironment | src/gym_ignition_models/__init__.py:93-119 | a successful call leaves the variable set; every failure is a path-not-found error |
| Environment.AddDirs | src/gym_ignition_models/__init__.py:109-119 | the loop leaves a set variable set unless it fails, and fails only with a path-not-found error |
| Environment.ProbeAt | src/gym_ignition_models/__init__.py:109-113 | the loop looks at each fixed robot's directory, `Path(root) / model`, and at whether it exists |
| Environment.MissingRootLeavesVariable | src/gym_ignition_models/__init__.py:93-96 | without the models root the call fails naming it and leaves the variable as it was |
| Environment.SetupKeepsOldValue | src/gym_ignition_models/__init__.py:99-102 | a value already set stays a prefix of the variable, even after a failure; with the root present it is followed by `:` and the root |
| Environment.AddDirsExtends | src/gym_ignition_models/__init__.py:116-119 | the loop only appends: the value it starts from is a prefix of the value it leaves |
| Environment.SetupFailsIffDirectoryMissing | src/gym_ignition_models/__init__.py:93-114 | the call fails exactly when the root or one of the three robot directories is missing, and then names the first missing one |
| Environment.AddDirsFails | src/gym_ignition_models/__init__.py:109-114 | the loop fails exactly when some directory is missing, naming the first one |
| Environment.SetupStopsAtFirstMissing | src/gym_ignition_models/__init__.py:109-117 | a missing robot directory raises after the root and the directories before it were already appended |
| Environment.AddDirsStopsAt | src/gym_ignition_models/__init__.py:109-117 | the loop stops at the first missing directory, keeping what it appended before it |
| Environment.SetupAppendsAll | src/gym_ignition_models/__init__.py:99-119 | with every directory present, the variable becomes the directories it held, the root and the three robot directories, `:`-separated |
| Environment.AddAllDirs | src/gym_ignition_models/__init__.py:109-119 | with every directory present, the loop appends each one after a `:` |
| Environment.AppendAfter | src/gym_ignition_models/__init__.py:99-102 | setting or extending the variable with one directory, then appending a list, gives the `:`-join of all of them |
| Environment.FreshSearchPath | src/gym_ignition_models/__init__.py:93-119 | from unset, with everything present, the variable is `p:p/panda:p/iCubGazeboV2_5:p/iCubGazeboSimpleCollisionsV2_5`, with `p` the package directory without trailing `/` |
| Environment.SecondSetupRepeats | src/gym_ignition_models/__init__.py:99-119 | the call does not deduplicate: a second call appends the whole list again, giving `once:once` |
| Environment.ColonJoinAppend | src/gym_ignition_models/__init__.py:116-117 | appending `:dir` for each of a list of directories to the join of a non-empty list is the join of both lists |
| Environment.ColonJoinConcat | src/gym_ignition_models/__init__.py:116-117 | the join of two non-empty lists is their joins with one `:` between |

## Left out

- Filesystem behaviour beyond one immutable snapshot. This covers races between
  `get_robot_names`, the `isdir` check and the walk, and between the two
  resolutions of a `SDF_FILE`/`SDF_PATH` request. The missing-directory error
  can only come from such a race or from a tree with repeated names.
- The order of `os.listdir` and `os.walk` is whatever the snapshot's listings
  say. `os.walk`'s error handler, symbolic links and unreadable directories are
  not modelled.
- Open modes, encodings and permissions. Opening with `r+` also needs write
  permission. A read-only model file is treated like a readable one.
- The cursor and buffering of the `SDF_FILE` handle are not modelled. The
  source returns it after writing, unflushed and positioned at the end. The
  model records the text written, not what a read would see.
- The `mkstemp` descriptor the source never closes (line 191) is not modelled.
- Temporary-name uniqueness and the temporary directory belong to the host
  `tempfile` facility. They are a parameter here, with a fixed random part per
  call.
- The converter's internals and the dynamic `import` probe. They are modelled
  as an availability flag plus a function of the path and of what the path
  holds (the file's text, or nothing). Whether it returns text or raises, for a
  readable path or not, is left to that function.
- The import-time call at line 227 and the process-global `os.environ`. The
  variable's value is passed in and returned.
- `pathlib` normalisation beyond stripping trailing separators: repeated
  separators and `.` components are kept as written.
- `os.path.dirname(__file__)` is the `pkgDir` field of the installation.
- The default argument of `get_model_resource`: a call without a type is the
  call with `URDF_PATH`.
- `setup.py`, which is packaging metadata only.
