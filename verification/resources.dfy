/**
 The resource dispatcher `get_model_resource`: a table over the stored model's
 format (by extension) and the six resource types. Cells return the stored path,
 read it, open it, or hand it to the URDF to SDF converter; the two converting
 shapes that are not text go through a temporary file, which closing the handle
 deletes (`SDF_FILE`) or which the caller owns (`SDF_PATH`).
 */
module Resources {
  import opened Types
  import opened Paths
  import opened FileTree
  import opened Catalog

  /** What one run of the converter ends in: SDF text, or an exception and its message. */
  datatype Conversion = Converted(sdf: string) | Raised(message: string)

  /** The converter of the simulator bindings: whether its module imports, and what
      it makes of a URDF path, given what the filesystem holds there (the file's
      text, or nothing when the path names no readable file). The converter opens
      the path itself, so both outcomes are its own, for either kind of path. */
  datatype Converter = Converter(available: bool, urdfFileToSdfString: (string, Option<string>) -> Conversion)

  /** What the host's `tempfile` facility picks for a new file: the directory, and
      the random part it puts between prefix and suffix. */
  datatype TempFacility = TempFacility(dir: string, token: string)

  /** A temporary file a call created: its path, what it holds when the call is
      over, and whether closing its handle deletes it. */
  datatype TempFile = TempFile(path: string, content: string, deleteOnClose: bool)

  /** A resource handed to the caller. An open file carries its path, the text the
      file holds, and whether closing it deletes the file. */
  datatype Resource =
    | PathTo(path: string)
    | Text(text: string)
    | Handle(path: string, content: string, deleteOnClose: bool)

  /** Everything one call does: its result, the temporary files it created (in
      creation order), and the paths it handed to the converter. */
  datatype Response = Response(result: Result<Resource>, temps: seq<TempFile>, converted: seq<string>)

  function Fail(e: Error): Response {
    Response(Err(e), [], [])
  }

  function Give(r: Resource): Response {
    Response(Ok(r), [], [])
  }

  /** The name `tempfile` gives a new file: `os.path.join(dir, prefix + random + suffix)`. */
  function TempPath(tmp: TempFacility, prefix: string, suffix: string): string {
    Join(tmp.dir, prefix + tmp.token + suffix)
  }

  /** The name of the temporary SDF file made for a stored model: its stem, the
      random part, `.sdf`. */
  function SdfTempPath(tmp: TempFacility, stored: StoredModel): string {
    TempPath(tmp, Stem(BaseName(stored.Path())), ".sdf")
  }

  /** `SDF_STRING` is the only type the dispatcher asks of itself. */
  function Rank(rt: ResourceType): nat {
    if rt == SdfString then 0 else 1
  }

  /** The robot's model is stored as URDF. */
  predicate StoredAsUrdf(inst: Installation, name: string) {
    Resolve(inst, name).Ok? && EndsWith(Resolve(inst, name).value.Path(), ".urdf")
  }

  /** The robot's model is stored as SDF. */
  predicate StoredAsSdf(inst: Installation, name: string) {
    Resolve(inst, name).Ok? && EndsWith(Resolve(inst, name).value.Path(), ".sdf")
  }

  /** `get_model_resource`. */
  function GetModelResource(inst: Installation, conv: Converter, tmp: TempFacility,
                            name: string, rt: ResourceType): (o: Response)
    ensures rt == SdfString && o.result.Ok? ==> o.result.value.Text?
    ensures rt == SdfString ==> o.temps == []
    ensures !(o.result.Err? && o.result.error.UnexpectedResourceType?)
    ensures !(o.result.Err? && o.result.error.NoUrdfNorSdf?)
    ensures o.converted != [] ==> conv.available && rt.IsSdf()
    ensures o.temps != [] ==> conv.available && (rt == SdfFile || rt == SdfPath) && |o.temps| == 1
    decreases Rank(rt), 1
  {
    match Resolve(inst, name)
    case Err(e) => Fail(e)
    case Ok(stored) =>
      var path := stored.Path();
      assert GetModelFile(inst, name).value == path;
      if !IsModelName(path) then Fail(NoUrdfNorSdf(name))
      else if EndsWith(path, ".urdf") then FromUrdf(inst, conv, tmp, SdfTempPath(tmp, stored), name, rt, stored)
      // `IsModelName` leaves `.sdf` as the only other ending
      else FromSdf(inst, rt, stored)
  }

  /** Opening the stored file for reading: a handle on the stored path that reads
      the file's text and that closing leaves in place. */
  function OpenStored(inst: Installation, stored: StoredModel): (o: Response)
    ensures o.temps == [] && o.converted == []
    ensures o.result.Ok? <==> ReadStored(inst, stored).Ok?
    ensures o.result.Ok? ==> o.result.value == Handle(stored.Path(), ReadStored(inst, stored).value, false)
    ensures o.result.Err? ==> o.result.error == CannotOpen(stored.Path())
  {
    match ReadStored(inst, stored)
    case Ok(content) => Give(Handle(stored.Path(), content, false))
    case Err(e) => Fail(e)
  }

  /** Reading the stored file to the end: its whole text. */
  function ReadStoredText(inst: Installation, stored: StoredModel): (o: Response)
    ensures o.temps == [] && o.converted == []
    ensures o.result.Ok? <==> ReadStored(inst, stored).Ok?
    ensures o.result.Ok? ==> o.result.value == Text(ReadStored(inst, stored).value)
    ensures o.result.Err? ==> o.result.error == CannotOpen(stored.Path())
  {
    match ReadStored(inst, stored)
    case Ok(content) => Give(Text(content))
    case Err(e) => Fail(e)
  }

  /** The cells of the table for a model stored as URDF; `t` is the name the
      temporary SDF file gets. */
  function FromUrdf(inst: Installation, conv: Converter, tmp: TempFacility, t: string,
                    name: string, rt: ResourceType, stored: StoredModel): (o: Response)
    ensures rt == SdfString && o.result.Ok? ==> o.result.value.Text?
    ensures rt == SdfString ==> o.temps == []
    ensures !(o.result.Err? && (o.result.error.UnexpectedResourceType? || o.result.error.NoUrdfNorSdf?))
    ensures o.converted != [] ==> conv.available && rt.IsSdf()
    ensures o.temps != [] ==> conv.available && (rt == SdfFile || rt == SdfPath) && |o.temps| == 1
    decreases Rank(rt), 0
  {
    var path := stored.Path();
    if rt == UrdfPath then Give(PathTo(path))
    else if rt == UrdfFile then OpenStored(inst, stored)
    else if rt == UrdfString then ReadStoredText(inst, stored)
    else if rt.IsSdf() && !conv.available then Fail(ConversionUnavailable)
    else if rt == SdfFile || rt == SdfPath then
      // `NamedTemporaryFile` (deleted on close) for `SDF_FILE`, `mkstemp` (kept)
      // for `SDF_PATH`: either way the file exists before the conversion runs
      var nested := GetModelResource(inst, conv, tmp, name, SdfString);
      IntoTempFile(t, rt == SdfFile, nested)
    else if rt == SdfString then
      ConvertStored(inst, conv, stored)
    else Fail(UnexpectedResourceType(rt))
  }

  /** What the converter finds when it opens the stored path. */
  function AtStoredPath(inst: Installation, stored: StoredModel): Option<string> {
    match ReadStored(inst, stored)
    case Ok(urdf) => Some(urdf)
    case Err(_) => None
  }

  /** `urdffile_to_sdfstring` on the stored path: the converter is handed the path
      and reads the file itself; its text comes back, and its exception goes up. */
  function ConvertStored(inst: Installation, conv: Converter, stored: StoredModel): (o: Response)
    ensures o.temps == [] && o.converted == [stored.Path()]
    ensures var c := conv.urdfFileToSdfString(stored.Path(), AtStoredPath(inst, stored));
            && (o.result.Ok? <==> c.Converted?)
            && (c.Converted? ==> o.result.value == Text(c.sdf))
            && (c.Raised? ==> o.result.error == ConversionFailed(c.message))
  {
    match conv.urdfFileToSdfString(stored.Path(), AtStoredPath(inst, stored))
    case Converted(sdf) => Response(Ok(Text(sdf)), [], [stored.Path()])
    case Raised(message) => Response(Err(ConversionFailed(message)), [], [stored.Path()])
  }

  /** A temporary file at `t` that receives the text of an `SDF_STRING` request:
      handed back open when closing deletes it, by path otherwise. The file is
      created first, so it is there, empty, when the conversion fails. */
  function IntoTempFile(t: string, deleteOnClose: bool, sdf: Response): (o: Response)
    requires sdf.temps == [] && (sdf.result.Ok? ==> sdf.result.value.Text?)
    ensures o.converted == sdf.converted
    ensures o.result.Err? ==> o.result == sdf.result && o.temps == [TempFile(t, "", deleteOnClose)]
    ensures o.result.Ok? ==>
      && sdf.result.Ok?
      && o.temps == [TempFile(t, sdf.result.value.text, deleteOnClose)]
      && o.result.value == (if deleteOnClose then Handle(t, sdf.result.value.text, true) else PathTo(t))
  {
    if sdf.result.Err? then
      Response(Err(sdf.result.error), [TempFile(t, "", deleteOnClose)], sdf.converted)
    else
      var text := sdf.result.value.text;
      var resource := if deleteOnClose then Handle(t, text, true) else PathTo(t);
      Response(Ok(resource), [TempFile(t, text, deleteOnClose)], sdf.converted)
  }

  /** The cells of the table for a model stored as SDF. */
  function FromSdf(inst: Installation, rt: ResourceType, stored: StoredModel): (o: Response)
    ensures o.temps == [] && o.converted == []
    ensures !(o.result.Err? && (o.result.error.UnexpectedResourceType? || o.result.error.NoUrdfNorSdf?))
    ensures rt == SdfString && o.result.Ok? ==> o.result.value.Text?
  {
    var path := stored.Path();
    if rt == SdfPath then Give(PathTo(path))
    else if rt.IsUrdf() then Fail(UnsupportedConversion)
    else if rt == SdfString then ReadStoredText(inst, stored)
    else if rt == SdfFile then OpenStored(inst, stored)
    else Fail(UnexpectedResourceType(rt))
  }

  // ---------------------------------------------------------------------
  // Properties of the table

  /** A failure of `get_model_file` is what the dispatcher raises, with nothing
      created and nothing converted. */
  lemma {:induction false} ResolverErrorsPropagate(inst: Installation, conv: Converter, tmp: TempFacility,
                                name: string, rt: ResourceType)
    requires GetModelFile(inst, name).Err?
    ensures GetModelResource(inst, conv, tmp, name, rt) == Fail(GetModelFile(inst, name).error)
  {
  }

  /** One step of the dispatcher on a robot whose model resolves. */
  lemma {:induction false} Unfold(inst: Installation, conv: Converter, tmp: TempFacility, name: string, rt: ResourceType)
    requires Resolve(inst, name).Ok?
    ensures EndsWith(Resolve(inst, name).value.Path(), ".urdf") ==>
      GetModelResource(inst, conv, tmp, name, rt) == FromUrdf(inst, conv, tmp, SdfTempPath(tmp, Resolve(inst, name).value), name, rt, Resolve(inst, name).value)
    ensures EndsWith(Resolve(inst, name).value.Path(), ".sdf") ==>
      GetModelResource(inst, conv, tmp, name, rt) == FromSdf(inst, rt, Resolve(inst, name).value)
  {
    assert GetModelFile(inst, name).value == Resolve(inst, name).value.Path();
  }

  // The cells of the table, one stored model at a time.

  lemma {:induction false} UrdfCells(inst: Installation, conv: Converter, tmp: TempFacility, t: string, name: string, stored: StoredModel)
    ensures FromUrdf(inst, conv, tmp, t, name, UrdfPath, stored) == Give(PathTo(stored.Path()))
    ensures FromUrdf(inst, conv, tmp, t, name, UrdfFile, stored) == OpenStored(inst, stored)
    ensures FromUrdf(inst, conv, tmp, t, name, UrdfString, stored) == ReadStoredText(inst, stored)
  {
  }

  lemma {:induction false} NoConverterCells(inst: Installation, conv: Converter, tmp: TempFacility, t: string, name: string,
                         rt: ResourceType, stored: StoredModel)
    requires !conv.available && rt.IsSdf()
    ensures FromUrdf(inst, conv, tmp, t, name, rt, stored) == Fail(ConversionUnavailable)
  {
  }

  lemma {:induction false} ConvertCell(inst: Installation, conv: Converter, tmp: TempFacility, t: string, name: string, stored: StoredModel)
    requires conv.available
    ensures FromUrdf(inst, conv, tmp, t, name, SdfString, stored) == ConvertStored(inst, conv, stored)
  {
  }

  lemma {:induction false} TempFileCell(inst: Installation, conv: Converter, tmp: TempFacility, t: string, name: string,
                     rt: ResourceType, stored: StoredModel)
    requires conv.available && (rt == SdfFile || rt == SdfPath)
    ensures FromUrdf(inst, conv, tmp, t, name, rt, stored) ==
      IntoTempFile(t, rt == SdfFile, GetModelResource(inst, conv, tmp, name, SdfString))
  {
    assert rt != UrdfPath && rt != UrdfFile && rt != UrdfString && rt.IsSdf();
  }

  lemma {:induction false} SdfCells(inst: Installation, rt: ResourceType, stored: StoredModel)
    ensures rt.IsUrdf() ==> FromSdf(inst, rt, stored) == Fail(UnsupportedConversion)
    ensures FromSdf(inst, SdfPath, stored) == Give(PathTo(stored.Path()))
    ensures FromSdf(inst, SdfString, stored) == ReadStoredText(inst, stored)
    ensures FromSdf(inst, SdfFile, stored) == OpenStored(inst, stored)
  {
  }

  /** For a URDF model the URDF cells work on the stored file itself: the path
      unchanged, the text `get_model_string` reads, a plain open file; none of them
      creates a file or calls the converter, whatever the converter is. */
  lemma {:induction false} UrdfStoredDirect(inst: Installation, conv: Converter, tmp: TempFacility, name: string)
    requires StoredAsUrdf(inst, name)
    ensures GetModelResource(inst, conv, tmp, name, UrdfPath) == Give(PathTo(GetModelFile(inst, name).value))
    ensures GetModelString(inst, name).Ok? ==>
      && GetModelResource(inst, conv, tmp, name, UrdfString) == Give(Text(GetModelString(inst, name).value))
      && GetModelResource(inst, conv, tmp, name, UrdfFile) ==
           Give(Handle(GetModelFile(inst, name).value, GetModelString(inst, name).value, false))
    ensures GetModelString(inst, name).Err? ==>
      && GetModelResource(inst, conv, tmp, name, UrdfString) == Fail(GetModelString(inst, name).error)
      && GetModelResource(inst, conv, tmp, name, UrdfFile) == Fail(GetModelString(inst, name).error)
  {
    var stored := Resolve(inst, name).value;
    UrdfCells(inst, conv, tmp, SdfTempPath(tmp, stored), name, stored);
    Unfold(inst, conv, tmp, name, UrdfPath);
    Unfold(inst, conv, tmp, name, UrdfFile);
    Unfold(inst, conv, tmp, name, UrdfString);
  }

  /** Without the converter every SDF request on a URDF model fails, before any
      temporary file is made. */
  lemma {:induction false} ConversionNeedsConverter(inst: Installation, conv: Converter, tmp: TempFacility,
                                 name: string, rt: ResourceType)
    requires StoredAsUrdf(inst, name) && !conv.available && rt.IsSdf()
    ensures GetModelResource(inst, conv, tmp, name, rt) == Fail(ConversionUnavailable)
  {
    var stored := Resolve(inst, name).value;
    NoConverterCells(inst, conv, tmp, SdfTempPath(tmp, stored), name, rt, stored);
    Unfold(inst, conv, tmp, name, rt);
  }

  /** What the converter finds at the path `get_model_file` returns: the text
      `get_model_string` reads there, or nothing when that read fails. */
  function SeenByConverter(inst: Installation, name: string): Option<string> {
    if GetModelString(inst, name).Ok? then Some(GetModelString(inst, name).value) else None
  }

  /** With the converter, `SDF_STRING` of a URDF model is the converter applied to
      the stored path: one call, which sees the text `get_model_string` reads, or
      nothing when that read fails; its text or its exception is the result, and no
      temporary file is made. */
  lemma {:induction false} SdfStringIsConversion(inst: Installation, conv: Converter, tmp: TempFacility, name: string)
    requires StoredAsUrdf(inst, name) && conv.available
    ensures var path := GetModelFile(inst, name).value;
            var c := conv.urdfFileToSdfString(path, SeenByConverter(inst, name));
            var o := GetModelResource(inst, conv, tmp, name, SdfString);
            && o.temps == []
            && o.converted == [path]
            && (c.Converted? ==> o.result == Ok(Text(c.sdf)))
            && (c.Raised? ==> o.result == Err(ConversionFailed(c.message)))
  {
    var stored := Resolve(inst, name).value;
    assert GetModelString(inst, name) == ReadStored(inst, stored);
    ConvertCell(inst, conv, tmp, SdfTempPath(tmp, stored), name, stored);
    Unfold(inst, conv, tmp, name, SdfString);
  }

  /** When the converter turns a URDF model into SDF text, `SDF_STRING` is that
      text, and `SDF_PATH` and `SDF_FILE` each create one temporary file, named
      from the stored file's stem and ending in `.sdf`, holding exactly that text.
      The `SDF_PATH` file is the caller's to delete; the `SDF_FILE` one comes back
      open and goes away when it is closed. */
  lemma {:induction false} SdfTempFiles(inst: Installation, conv: Converter, tmp: TempFacility,
                     name: string, rt: ResourceType)
    requires StoredAsUrdf(inst, name) && conv.available
    requires conv.urdfFileToSdfString(GetModelFile(inst, name).value, SeenByConverter(inst, name)).Converted?
    requires rt == SdfFile || rt == SdfPath
    ensures var path := GetModelFile(inst, name).value;
            var t := SdfTempPath(tmp, Resolve(inst, name).value);
            var o := GetModelResource(inst, conv, tmp, name, rt);
            var sdf := conv.urdfFileToSdfString(path, SeenByConverter(inst, name)).sdf;
            && GetModelResource(inst, conv, tmp, name, SdfString).result == Ok(Text(sdf))
            && o.temps == [TempFile(t, sdf, rt == SdfFile)]
            && o.converted == [path]
            && o.result == Ok(if rt == SdfFile then Handle(t, sdf, true) else PathTo(t))
  {
    var stored := Resolve(inst, name).value;
    SdfStringIsConversion(inst, conv, tmp, name);
    TempFileCell(inst, conv, tmp, SdfTempPath(tmp, stored), name, rt, stored);
    Unfold(inst, conv, tmp, name, rt);
  }

  /** The temporary SDF file is named `<dir>/<stem><random>.sdf`. */
  lemma {:induction false} SdfTempPathShape(tmp: TempFacility, stored: StoredModel)
    ensures EndsWith(SdfTempPath(tmp, stored), Stem(BaseName(stored.Path())) + tmp.token + ".sdf")
    ensures EndsWith(SdfTempPath(tmp, stored), ".sdf")
  {
    JoinedSdfName(tmp.dir, Stem(BaseName(stored.Path())) + tmp.token);
  }

  /** A name built with the `.sdf` suffix, joined under a directory. */
  lemma {:induction false} JoinedSdfName(dir: string, prefix: string)
    ensures EndsWith(Join(dir, prefix + ".sdf"), prefix + ".sdf")
    ensures EndsWith(Join(dir, prefix + ".sdf"), ".sdf")
  {
    var n := prefix + ".sdf";
    var t := Join(dir, n);
    JoinEndsWithName(dir, n);
    assert t[|t| - |n|..] == n;
    assert t[|t| - 4..] == n[|n| - 4..];
  }

  /** On a real filesystem the stem that names the temporary file is the stored
      model's basename less its `.urdf` (the whole basename when it is just `.urdf`). */
  lemma {:induction false} TempNameKeepsStem(inst: Installation, name: string)
    requires inst.tree.Some? && WellFormed(inst.tree.value)
    requires StoredAsUrdf(inst, name)
    ensures var b := Resolve(inst, name).value.baseName;
            var stem := Stem(BaseName(Resolve(inst, name).value.Path()));
            && (|b| > 5 ==> stem + ".urdf" == b)
            && (|b| == 5 ==> stem == b)
  {
    var stored := Resolve(inst, name).value;
    var b := stored.baseName;
    var entries := RobotEntries(inst, name).value;
    ResolveSpec(inst, name);
    RobotDirWellFormed(inst, name);
    WalkFindsEveryModelFile(Dir(entries), b);
    HasFileValid(Dir(entries), b);
    ModelPathSuffix(stored.modelDir, b);
    StemOfJoinedModel(stored.modelDir, b);
  }

  /** Names of files found in a real tree are valid entry names. */
  lemma {:induction false} HasFileValid(n: Node, f: string)
    requires WellFormed(n) && HasFile(n, f)
    ensures ValidName(f)
  {
    var entries := n.entries;
    var i :| 0 <= i < |entries| &&
      ((entries[i].name == f && entries[i].node.File?) || HasFile(entries[i].node, f));
    if !(entries[i].name == f && entries[i].node.File?) {
      HasFileValid(entries[i].node, f);
    }
  }

  /** When the converter raises on a URDF model, `SDF_STRING` fails with its
      message, and so do `SDF_PATH` and `SDF_FILE`, after the temporary file was
      created: it is left empty, and the `SDF_PATH` one, which nobody holds a
      handle to, stays on disk. */
  lemma {:induction false} FailedConversionLeavesTempFile(inst: Installation, conv: Converter, tmp: TempFacility,
                                       name: string, rt: ResourceType)
    requires StoredAsUrdf(inst, name) && conv.available
    requires conv.urdfFileToSdfString(GetModelFile(inst, name).value, SeenByConverter(inst, name)).Raised?
    requires rt == SdfFile || rt == SdfPath
    ensures var path := GetModelFile(inst, name).value;
            var t := SdfTempPath(tmp, Resolve(inst, name).value);
            var e := ConversionFailed(conv.urdfFileToSdfString(path, SeenByConverter(inst, name)).message);
            && GetModelResource(inst, conv, tmp, name, SdfString).result == Err(e)
            && GetModelResource(inst, conv, tmp, name, rt) ==
                 Response(Err(e), [TempFile(t, "", rt == SdfFile)], [path])
  {
    var stored := Resolve(inst, name).value;
    SdfStringIsConversion(inst, conv, tmp, name);
    TempFileCell(inst, conv, tmp, SdfTempPath(tmp, stored), name, rt, stored);
    Unfold(inst, conv, tmp, name, rt);
  }

  /** A model found below the robot's directory is reported at a path where no file
      is. A converter that raises on such a path makes `SDF_PATH` and `SDF_FILE`
      fail with its message, leaving the empty temporary file behind. */
  lemma {:induction false} UnreadableModelLeaksTempFile(inst: Installation, conv: Converter, tmp: TempFacility,
                                     name: string, rt: ResourceType)
    requires StoredAsUrdf(inst, name) && conv.available && GetModelString(inst, name).Err?
    requires conv.urdfFileToSdfString(GetModelFile(inst, name).value, None).Raised?
    requires rt == SdfFile || rt == SdfPath
    ensures var path := GetModelFile(inst, name).value;
            var t := SdfTempPath(tmp, Resolve(inst, name).value);
            var message := conv.urdfFileToSdfString(path, None).message;
            GetModelResource(inst, conv, tmp, name, rt) ==
              Response(Err(ConversionFailed(message)), [TempFile(t, "", rt == SdfFile)], [path])
  {
    SdfStringIsConversion(inst, conv, tmp, name);
    FailedConversionLeavesTempFile(inst, conv, tmp, name, rt);
  }

  /** For an SDF model every URDF request fails, whatever the converter; the SDF
      cells work on the stored file itself; nothing is converted or created. */
  lemma {:induction false} SdfStoredNoConversion(inst: Installation, conv: Converter, tmp: TempFacility,
                              name: string, rt: ResourceType)
    requires StoredAsSdf(inst, name)
    ensures var o := GetModelResource(inst, conv, tmp, name, rt);
            && o.temps == [] && o.converted == []
            && (rt.IsUrdf() ==> o.result == Err(UnsupportedConversion))
            && (rt == SdfPath ==> o.result == Ok(PathTo(GetModelFile(inst, name).value)))
            && (rt == SdfString && GetModelString(inst, name).Ok? ==>
                 o.result == Ok(Text(GetModelString(inst, name).value)))
            && (rt == SdfFile && GetModelString(inst, name).Ok? ==>
                 o.result == Ok(Handle(GetModelFile(inst, name).value, GetModelString(inst, name).value, false)))
            && ((rt == SdfString || rt == SdfFile) && GetModelString(inst, name).Err? ==>
                 o.result == Err(GetModelString(inst, name).error))
  {
    var stored := Resolve(inst, name).value;
    SdfCells(inst, rt, stored);
    Unfold(inst, conv, tmp, name, rt);
  }
}
