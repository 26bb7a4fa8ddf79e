/**
 `setup_environment`: the models root and the directories of the robots whose
 meshes are referenced relative to their own directory are appended, in that
 order, to the simulator's resource search path `IGN_GAZEBO_RESOURCE_PATH`.
 The environment variable is a value passed in and handed back.
 */
module Environment {
  import opened Types
  import opened Paths
  import opened FileTree
  import opened Catalog

  /** The robots whose directories go on the search path after the root. */
  const MeshModels: seq<string> := ["panda", "iCubGazeboV2_5", "iCubGazeboSimpleCollisionsV2_5"]

  /** What a call leaves behind: the error it raised, if any, and the value of the
      search-path variable (unset is `None`). */
  datatype EnvOutcome = EnvOutcome(error: Option<Error>, value: Option<string>)

  /** One robot directory the loop looks at: its path and whether it exists. */
  datatype Probe = Probe(path: string, present: bool)

  /** Appending one directory to the search path: `value:dir` when the variable
      is set, `dir` alone when it is not. */
  function AppendDir(v: Option<string>, dir: string): string {
    match v
    case None => dir
    case Some(prior) => prior + ":" + dir
  }

  /** `Path(...).exists()` of the models root. */
  predicate RootExists(inst: Installation) {
    inst.tree.Some?
  }

  /** `Path(...).exists()` of one robot's directory below the models root; only a
      directory has children. */
  predicate ChildExists(inst: Installation, name: string) {
    inst.tree.Some? && inst.tree.value.Dir? && Lookup(inst.tree.value.entries, name).Some?
  }

  /** `str(Path(get_models_path()))`. */
  function RootString(inst: Installation): string {
    PathString(ModelsPath(inst.pkgDir))
  }

  /** `str(Path(get_models_path()) / model)`. */
  function MeshDir(inst: Installation, model: string): string {
    PathChild(ModelsPath(inst.pkgDir), model)
  }

  /** The robot directories of a list of robots, in order. */
  function Probes(inst: Installation, models: seq<string>): (r: seq<Probe>)
    ensures |r| == |models|
  {
    if |models| == 0 then []
    else [Probe(MeshDir(inst, models[0]), ChildExists(inst, models[0]))] + Probes(inst, models[1..])
  }

  /** The paths of a list of probes. */
  function PathsOf(probes: seq<Probe>): (r: seq<string>)
    ensures |r| == |probes|
  {
    if |probes| == 0 then [] else [probes[0].path] + PathsOf(probes[1..])
  }

  /** The directories joined with `:` between consecutive ones: the search path a
      list of directories makes. */
  function ColonJoin(dirs: seq<string>): string {
    if |dirs| == 0 then "" else dirs[0] + Separated(dirs[1..])
  }

  /** Each directory with a `:` in front, concatenated: what appending the
      directories one by one adds to a set search path. */
  function Separated(dirs: seq<string>): string {
    if |dirs| == 0 then "" else ":" + dirs[0] + Separated(dirs[1..])
  }

  /** `setup_environment` on the variable's value `v`. */
  function SetupEnvironment(inst: Installation, v: Option<string>): (o: EnvOutcome)
    ensures o.error.None? ==> o.value.Some?
    ensures o.error.Some? ==> o.error.value.PathNotFound?
  {
    if !RootExists(inst) then EnvOutcome(Some(PathNotFound(RootString(inst))), v)
    else AddDirs(Some(AppendDir(v, RootString(inst))), Probes(inst, MeshModels))
  }

  /** The loop over the mesh robots: each directory must exist, and is appended;
      the first missing one stops the loop with what was appended so far. */
  function AddDirs(v: Option<string>, probes: seq<Probe>): (o: EnvOutcome)
    ensures o.error.None? && v.Some? ==> o.value.Some?
    ensures o.error.Some? ==> o.error.value.PathNotFound?
    decreases |probes|
  {
    if |probes| == 0 then EnvOutcome(None, v)
    else if !probes[0].present then EnvOutcome(Some(PathNotFound(probes[0].path)), v)
    else AddDirs(Some(AppendDir(v, probes[0].path)), probes[1..])
  }

  // ---------------------------------------------------------------------
  // Properties

  /** The loop looks at each robot's directory under the models root. */
  lemma {:induction false} ProbeAt(inst: Installation, models: seq<string>, i: nat)
    requires i < |models|
    ensures Probes(inst, models)[i] == Probe(MeshDir(inst, models[i]), ChildExists(inst, models[i]))
  {
    if i > 0 {
      ProbeAt(inst, models[1..], i - 1);
    }
  }

  /** Without the models root the call fails before touching the variable. */
  lemma {:induction false} MissingRootLeavesVariable(inst: Installation, v: Option<string>)
    requires !RootExists(inst)
    ensures SetupEnvironment(inst, v) == EnvOutcome(Some(PathNotFound(RootString(inst))), v)
  {
  }

  /** A value already set is kept in front of everything the call appends, even
      when the call fails part-way. */
  lemma {:induction false} SetupKeepsOldValue(inst: Installation, prior: string)
    ensures var o := SetupEnvironment(inst, Some(prior));
            o.value.Some? && StartsWith(o.value.value, prior)
    ensures RootExists(inst) ==>
      StartsWith(SetupEnvironment(inst, Some(prior)).value.value, prior + ":" + RootString(inst))
  {
    if RootExists(inst) {
      var s := prior + ":" + RootString(inst);
      AddDirsExtends(s, Probes(inst, MeshModels));
      var r := SetupEnvironment(inst, Some(prior)).value.value;
      assert r[..|s|][..|prior|] == prior;
    }
  }

  lemma {:induction false} AddDirsExtends(s: string, probes: seq<Probe>)
    ensures AddDirs(Some(s), probes).value.Some?
    ensures StartsWith(AddDirs(Some(s), probes).value.value, s)
    decreases |probes|
  {
    if |probes| > 0 && probes[0].present {
      var s' := s + ":" + probes[0].path;
      AddDirsExtends(s', probes[1..]);
      var r := AddDirs(Some(s), probes).value.value;
      assert r[..|s'|][..|s|] == s;
    }
  }

  /** The call fails exactly when the root or one of the mesh robots is missing,
      and then names the first missing one. */
  lemma {:induction false} SetupFailsIffDirectoryMissing(inst: Installation, v: Option<string>)
    ensures var o := SetupEnvironment(inst, v);
            o.error.Some? <==> !RootExists(inst) || exists i :: 0 <= i < |MeshModels| && !ChildExists(inst, MeshModels[i])
    ensures var o := SetupEnvironment(inst, v);
            RootExists(inst) && o.error.Some? ==>
              exists i :: && 0 <= i < |MeshModels| && !ChildExists(inst, MeshModels[i])
                          && (forall j :: 0 <= j < i ==> ChildExists(inst, MeshModels[j]))
                          && o.error.value == PathNotFound(MeshDir(inst, MeshModels[i]))
  {
    if RootExists(inst) {
      var probes := Probes(inst, MeshModels);
      AddDirsFails(Some(AppendDir(v, RootString(inst))), probes);
      forall i | 0 <= i < |MeshModels|
        ensures probes[i] == Probe(MeshDir(inst, MeshModels[i]), ChildExists(inst, MeshModels[i]))
      {
        ProbeAt(inst, MeshModels, i);
      }
    }
  }

  lemma {:induction false} AddDirsFails(v: Option<string>, probes: seq<Probe>)
    ensures var o := AddDirs(v, probes);
            o.error.Some? <==> exists i :: 0 <= i < |probes| && !probes[i].present
    ensures var o := AddDirs(v, probes);
            o.error.Some? ==>
              exists i :: && 0 <= i < |probes| && !probes[i].present
                          && (forall j :: 0 <= j < i ==> probes[j].present)
                          && o.error.value == PathNotFound(probes[i].path)
    decreases |probes|
  {
    if |probes| > 0 && probes[0].present {
      var rest := probes[1..];
      AddDirsFails(Some(AppendDir(v, probes[0].path)), rest);
      assert forall i :: 0 <= i < |rest| ==> rest[i] == probes[i + 1];
      var o := AddDirs(v, probes);
      if o.error.Some? {
        var i :| && 0 <= i < |rest| && !rest[i].present
                 && (forall j :: 0 <= j < i ==> rest[j].present)
                 && o.error.value == PathNotFound(rest[i].path);
        assert probes[i + 1] == rest[i];
      }
    }
  }

  /** A missing mesh robot directory stops the call after the root and the
      directories before it were appended: those entries stay in the variable. */
  lemma {:induction false} SetupStopsAtFirstMissing(inst: Installation, v: Option<string>, i: nat)
    requires RootExists(inst) && i < |MeshModels| && !ChildExists(inst, MeshModels[i])
    requires forall j :: 0 <= j < i ==> ChildExists(inst, MeshModels[j])
    ensures SetupEnvironment(inst, v) ==
      EnvOutcome(Some(PathNotFound(MeshDir(inst, MeshModels[i]))),
                 Some(AppendDir(v, RootString(inst)) + Separated(PathsOf(Probes(inst, MeshModels)[..i]))))
  {
    var probes := Probes(inst, MeshModels);
    forall j | 0 <= j < |probes|
      ensures probes[j] == Probe(MeshDir(inst, MeshModels[j]), ChildExists(inst, MeshModels[j]))
    {
      ProbeAt(inst, MeshModels, j);
    }
    AddDirsStopsAt(AppendDir(v, RootString(inst)), probes, i);
  }

  lemma {:induction false} AddDirsStopsAt(s: string, probes: seq<Probe>, i: nat)
    requires i < |probes| && !probes[i].present
    requires forall j :: 0 <= j < i ==> probes[j].present
    ensures AddDirs(Some(s), probes) ==
      EnvOutcome(Some(PathNotFound(probes[i].path)), Some(s + Separated(PathsOf(probes[..i]))))
    decreases i
  {
    if i == 0 {
      assert PathsOf(probes[..0]) == [];
      assert s + Separated([]) == s;
    } else {
      var d := probes[0].path;
      var rest := probes[1..];
      assert forall j :: 0 <= j < |rest| ==> rest[j] == probes[j + 1];
      AddDirsStopsAt(s + ":" + d, rest, i - 1);
      var ds := PathsOf(probes[..i]);
      assert probes[..i][1..] == rest[..i - 1];
      assert ds[0] == d && ds[1..] == PathsOf(rest[..i - 1]);
      assert s + ":" + d + Separated(PathsOf(rest[..i - 1])) == s + Separated(ds);
    }
  }

  /** When every directory exists the search path is the one before the call,
      then the root, then the mesh robots' directories, `:`-separated. */
  lemma {:induction false} SetupAppendsAll(inst: Installation, before: seq<string>)
    requires RootExists(inst)
    requires forall i :: 0 <= i < |MeshModels| ==> ChildExists(inst, MeshModels[i])
    ensures SetupEnvironment(inst, if |before| == 0 then None else Some(ColonJoin(before))) ==
      EnvOutcome(None, Some(ColonJoin(before + [RootString(inst)] + PathsOf(Probes(inst, MeshModels)))))
  {
    SetupAllPresent(inst, if |before| == 0 then None else Some(ColonJoin(before)));
    AppendAfter(before, RootString(inst), PathsOf(Probes(inst, MeshModels)));
  }

  /** Appending one directory and then a list to the search path of `before` is
      the search path of the three together. */
  lemma {:induction false} AppendAfter(before: seq<string>, root: string, mesh: seq<string>)
    ensures AppendDir(if |before| == 0 then None else Some(ColonJoin(before)), root) + Separated(mesh) ==
      ColonJoin(before + [root] + mesh)
  {
    if |before| == 0 {
      assert before + [root] + mesh == [root] + mesh;
      StartJoin(root, mesh);
    } else {
      ExtendJoin(before, root, mesh);
    }
  }

  /** Setting the variable to one directory and appending a list. */
  lemma {:induction false} StartJoin(root: string, mesh: seq<string>)
    ensures root + Separated(mesh) == ColonJoin([root] + mesh)
  {
    assert ([root] + mesh)[1..] == mesh;
  }

  /** Extending a set variable by one directory and then a list. */
  lemma {:induction false} ExtendJoin(before: seq<string>, root: string, mesh: seq<string>)
    requires |before| > 0
    ensures ColonJoin(before) + ":" + root + Separated(mesh) == ColonJoin(before + [root] + mesh)
  {
    var tail := [root] + mesh;
    var prior := ColonJoin(before);
    ColonJoinAppend(before, tail);
    assert before + [root] + mesh == before + tail;
    assert Separated(tail) == ":" + root + Separated(mesh) by {
      assert tail[1..] == mesh;
    }
    assert prior + ":" + root + Separated(mesh) == prior + Separated(tail);
  }

  /** With every directory present the call appends the root and then each
      mesh robot's directory. */
  lemma {:induction false} SetupAllPresent(inst: Installation, v: Option<string>)
    requires RootExists(inst)
    requires forall i :: 0 <= i < |MeshModels| ==> ChildExists(inst, MeshModels[i])
    ensures SetupEnvironment(inst, v) ==
      EnvOutcome(None, Some(AppendDir(v, RootString(inst)) + Separated(PathsOf(Probes(inst, MeshModels)))))
  {
    var probes := Probes(inst, MeshModels);
    forall i | 0 <= i < |probes|
      ensures probes[i].present
    {
      ProbeAt(inst, MeshModels, i);
    }
    AddAllDirs(AppendDir(v, RootString(inst)), probes);
  }

  lemma {:induction false} AddAllDirs(s: string, probes: seq<Probe>)
    requires forall i :: 0 <= i < |probes| ==> probes[i].present
    ensures AddDirs(Some(s), probes) == EnvOutcome(None, Some(s + Separated(PathsOf(probes))))
    decreases |probes|
  {
    if |probes| > 0 {
      var d := probes[0].path;
      var rest := probes[1..];
      assert forall i :: 0 <= i < |rest| ==> rest[i] == probes[i + 1];
      AddAllDirs(s + ":" + d, rest);
      var ds := PathsOf(probes);
      assert ds[0] == d && ds[1..] == PathsOf(rest);
      assert s + ":" + d + Separated(PathsOf(rest)) == s + Separated(ds);
    } else {
      assert s + Separated(PathsOf(probes)) == s;
    }
  }

  /** Appending a list of directories to a search path made of another list is
      the search path of the two lists together. */
  lemma {:induction false} ColonJoinAppend(a: seq<string>, b: seq<string>)
    requires |a| > 0
    ensures ColonJoin(a + b) == ColonJoin(a) + Separated(b)
  {
    assert (a + b)[1..] == a[1..] + b;
    SeparatedConcat(a[1..], b);
  }

  lemma {:induction false} SeparatedConcat(a: seq<string>, b: seq<string>)
    ensures Separated(a + b) == Separated(a) + Separated(b)
  {
    if |a| == 0 {
      assert a + b == b;
    } else {
      assert (a + b)[1..] == a[1..] + b;
      SeparatedConcat(a[1..], b);
    }
  }

  /** From an unset variable, with the package directory written without a
      trailing separator, the search path becomes
      `p:p/panda:p/iCubGazeboV2_5:p/iCubGazeboSimpleCollisionsV2_5`. */
  lemma {:induction false} FreshSearchPath(inst: Installation)
    requires |inst.pkgDir| > 0 && inst.pkgDir[|inst.pkgDir| - 1] != '/'
    requires RootExists(inst)
    requires forall i :: 0 <= i < |MeshModels| ==> ChildExists(inst, MeshModels[i])
    ensures var p := inst.pkgDir;
            SetupEnvironment(inst, None) ==
              EnvOutcome(None, Some(p + ":" + p + "/panda:" + p + "/iCubGazeboV2_5:" + p + "/iCubGazeboSimpleCollisionsV2_5"))
  {
    var dirs := [RootString(inst)] + PathsOf(Probes(inst, MeshModels));
    SetupAppendsAll(inst, []);
    assert [] + dirs == dirs;
    FreshDirectories(inst);
    FreshJoin(inst.pkgDir);
  }

  /** The four directories of a fresh setup, `:`-joined. */
  lemma {:induction false} FreshJoin(p: string)
    ensures ColonJoin([p, p + "/panda", p + "/iCubGazeboV2_5", p + "/iCubGazeboSimpleCollisionsV2_5"]) ==
      p + ":" + p + "/panda:" + p + "/iCubGazeboV2_5:" + p + "/iCubGazeboSimpleCollisionsV2_5"
  {
    var dirs := [p, p + "/panda", p + "/iCubGazeboV2_5", p + "/iCubGazeboSimpleCollisionsV2_5"];
    ColonJoinFour(dirs);
    assert p + ":" + (p + "/panda") + ":" + (p + "/iCubGazeboV2_5") + ":" + (p + "/iCubGazeboSimpleCollisionsV2_5")
        == p + ":" + p + "/panda:" + p + "/iCubGazeboV2_5:" + p + "/iCubGazeboSimpleCollisionsV2_5";
  }

  /** The root and the three robot directories of a package directory written
      without a trailing separator. */
  lemma {:induction false} FreshDirectories(inst: Installation)
    requires |inst.pkgDir| > 0 && inst.pkgDir[|inst.pkgDir| - 1] != '/'
    ensures var p := inst.pkgDir;
            [RootString(inst)] + PathsOf(Probes(inst, MeshModels)) ==
              [p, p + "/panda", p + "/iCubGazeboV2_5", p + "/iCubGazeboSimpleCollisionsV2_5"]
  {
    var p := inst.pkgDir;
    var ds := PathsOf(Probes(inst, MeshModels));
    MeshDirAt(inst, 0);
    MeshDirAt(inst, 1);
    MeshDirAt(inst, 2);
    ModelsPathNormalises(p, "x");
    SlashNames(p);
  }

  /** One robot directory of a package directory written without a trailing
      separator. */
  lemma {:induction false} MeshDirAt(inst: Installation, i: nat)
    requires |inst.pkgDir| > 0 && inst.pkgDir[|inst.pkgDir| - 1] != '/'
    requires i < |MeshModels|
    ensures PathsOf(Probes(inst, MeshModels))[i] == inst.pkgDir + "/" + MeshModels[i]
  {
    ProbeAt(inst, MeshModels, i);
    PathAt(Probes(inst, MeshModels), i);
    ModelsPathNormalises(inst.pkgDir, MeshModels[i]);
  }

  lemma {:induction false} SlashNames(p: string)
    ensures p + "/" + MeshModels[0] == p + "/panda"
    ensures p + "/" + MeshModels[1] == p + "/iCubGazeboV2_5"
    ensures p + "/" + MeshModels[2] == p + "/iCubGazeboSimpleCollisionsV2_5"
  {
    assert p + "/" + "panda" == p + "/panda";
    assert p + "/" + "iCubGazeboV2_5" == p + "/iCubGazeboV2_5";
    assert p + "/" + "iCubGazeboSimpleCollisionsV2_5" == p + "/iCubGazeboSimpleCollisionsV2_5";
  }

  lemma {:induction false} PathAt(probes: seq<Probe>, i: nat)
    requires i < |probes|
    ensures PathsOf(probes)[i] == probes[i].path
  {
    if i > 0 {
      PathAt(probes[1..], i - 1);
    }
  }

  lemma {:induction false} ColonJoinFour(dirs: seq<string>)
    requires |dirs| == 4
    ensures ColonJoin(dirs) == dirs[0] + ":" + dirs[1] + ":" + dirs[2] + ":" + dirs[3]
  {
    var d3 := dirs[1..][1..][1..];
    assert d3[1..] == [];
    assert Separated(d3) == ":" + dirs[3];
    assert Separated(dirs[1..][1..]) == ":" + dirs[2] + ":" + dirs[3];
    assert Separated(dirs[1..]) == ":" + dirs[1] + ":" + dirs[2] + ":" + dirs[3];
  }

  /** The call is not idempotent: a second call appends every directory again. */
  lemma {:induction false} SecondSetupRepeats(inst: Installation)
    requires RootExists(inst)
    requires forall i :: 0 <= i < |MeshModels| ==> ChildExists(inst, MeshModels[i])
    ensures SetupEnvironment(inst, None).value.Some?
    ensures var once := SetupEnvironment(inst, None).value.value;
            SetupEnvironment(inst, Some(once)) == EnvOutcome(None, Some(once + ":" + once))
  {
    var dirs := [RootString(inst)] + PathsOf(Probes(inst, MeshModels));
    SetupAppendsAll(inst, []);
    assert [] + [RootString(inst)] + PathsOf(Probes(inst, MeshModels)) == dirs;
    SetupAppendsAll(inst, dirs);
    ColonJoinConcat(dirs, dirs);
    assert dirs + [RootString(inst)] + PathsOf(Probes(inst, MeshModels)) == dirs + dirs;
  }

  /** Joining two non-empty lists is joining each and putting `:` between. */
  lemma {:induction false} ColonJoinConcat(a: seq<string>, b: seq<string>)
    requires |a| > 0 && |b| > 0
    ensures ColonJoin(a + b) == ColonJoin(a) + ":" + ColonJoin(b)
  {
    ColonJoinAppend(a, b);
  }
}
