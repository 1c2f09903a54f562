/** Loading criteria (Criteria.loadFromPath): a criteria document is read
    directly; a criteria package is unpacked and walked, and its files are
    sorted into the criteria document, static resources and scripts. The
    YAML parser, the unpacking and the directory walk are given as
    parameters. */
module CriteriaLoading {
  import opened Common
  import opened TestTrees
  import opened Files

  const CriteriaFileExtensions: seq<string> := ["scf", "yml"]
  const CriteriaPackageExtensions: seq<string> := ["scp", "zip"]

  const EmptyCriteriaReason := "criteria file is empty"
  const NoCriteriaInPackageReason := "could not find criteria file in package"

  /** `fileName` ends with '.' followed by one of `exts`. */
  predicate HasExtension(fileName: string, exts: seq<string>)
  {
    exists i :: 0 <= i < |exts| && HasSuffix(fileName, "." + exts[i])
  }

  predicate IsCriteriaFileName(fileName: string)
  {
    HasExtension(fileName, CriteriaFileExtensions)
  }

  predicate IsCriteriaPackageName(fileName: string)
  {
    HasExtension(fileName, CriteriaPackageExtensions)
  }

  /** The loop shared by looksLikeCriteriaFile and looksLikeCriteriaPackage:
      try each extension in turn and answer at the first that matches. */
  method EndsWithExtension(fileName: string, exts: seq<string>) returns (r: bool)
    ensures r <==> HasExtension(fileName, exts)
  {
    for i := 0 to |exts|
      invariant forall j :: 0 <= j < i ==> !HasSuffix(fileName, "." + exts[j])
    {
      if HasSuffix(fileName, "." + exts[i]) {
        return true;
      }
    }
    return false;
  }

  method LooksLikeCriteriaFile(fileName: string) returns (r: bool)
    ensures r <==> IsCriteriaFileName(fileName)
    ensures r <==> HasSuffix(fileName, ".scf") || HasSuffix(fileName, ".yml")
  {
    r := EndsWithExtension(fileName, CriteriaFileExtensions);
    assert HasSuffix(fileName, "." + CriteriaFileExtensions[0]) == HasSuffix(fileName, ".scf");
    assert HasSuffix(fileName, "." + CriteriaFileExtensions[1]) == HasSuffix(fileName, ".yml");
  }

  method LooksLikeCriteriaPackage(fileName: string) returns (r: bool)
    ensures r <==> IsCriteriaPackageName(fileName)
    ensures r <==> HasSuffix(fileName, ".scp") || HasSuffix(fileName, ".zip")
  {
    r := EndsWithExtension(fileName, CriteriaPackageExtensions);
    assert HasSuffix(fileName, "." + CriteriaPackageExtensions[0]) == HasSuffix(fileName, ".scp");
    assert HasSuffix(fileName, "." + CriteriaPackageExtensions[1]) == HasSuffix(fileName, ".zip");
  }

  /** No name is both a criteria document and a criteria package, so the
      order of the two tests in the dispatch only matters for names that
      match neither. */
  lemma CriteriaAndPackageNamesDisjoint(fileName: string)
    ensures !(IsCriteriaFileName(fileName) && IsCriteriaPackageName(fileName))
  {
    if IsCriteriaFileName(fileName) {
      var i :| 0 <= i < |CriteriaFileExtensions| && HasSuffix(fileName, "." + CriteriaFileExtensions[i]);
      assert fileName[|fileName| - 1] != 'p' by {
        assert fileName[|fileName| - 4..] == "." + CriteriaFileExtensions[i];
      }
      forall j | 0 <= j < |CriteriaPackageExtensions|
        ensures !HasSuffix(fileName, "." + CriteriaPackageExtensions[j])
      {
        assert ("." + CriteriaPackageExtensions[j])[3] == 'p';
      }
    }
  }

  /** looksLikeStaticResource: the file sits in a directory named "static". */
  predicate LooksLikeStaticResource(path: string): (r: bool)
    ensures r ==> HasSuffix(DirOf(path), "static")
  {
    FileNameOfIsSuffix(DirOf(path));
    ParentName(path) == "static"
  }

  /** looksLikeScript: the file sits in a directory named "scripts". */
  predicate LooksLikeScript(path: string): (r: bool)
    ensures r ==> HasSuffix(DirOf(path), "scripts")
  {
    FileNameOfIsSuffix(DirOf(path));
    ParentName(path) == "scripts"
  }

  /** A file directly under some `static/` directory is a static resource
      and not a script; one directly under `scripts/` is the other way
      round. No file is both. */
  lemma ResourceDirectories(dir: string, name: string)
    requires dir == [] || dir[|dir| - 1] == '/'
    requires '/' !in name
    ensures LooksLikeStaticResource(dir + "static/" + name)
    ensures !LooksLikeScript(dir + "static/" + name)
    ensures LooksLikeScript(dir + "scripts/" + name)
    ensures !LooksLikeStaticResource(dir + "scripts/" + name)
  {
    ParentNameOfJoin(dir, "static", name);
    assert dir + "static" + "/" + name == dir + "static/" + name;
    ParentNameOfJoin(dir, "scripts", name);
    assert dir + "scripts" + "/" + name == dir + "scripts/" + name;
  }

  /** The criteria document of a walk: the last visited file with a
      criteria-document extension. */
  function LastCriteria(walk: seq<string>): Option<string>
  {
    if walk == [] then None
    else if IsCriteriaFileName(walk[|walk| - 1]) then Some(walk[|walk| - 1])
    else LastCriteria(walk[..|walk| - 1])
  }

  /** A walked file kept as a resource of directory `dir`: the criteria
      extension test comes first, so a criteria document is never one. */
  predicate IsResourceIn(dir: string, path: string)
  {
    !IsCriteriaFileName(path) && ParentName(path) == dir
  }

  /** The resources of directory `dir` keyed by bare file name, a later file
      replacing an earlier one of the same name. */
  function Resources(walk: seq<string>, dir: string): map<string, string>
  {
    if walk == [] then map[]
    else
      var m := Resources(walk[..|walk| - 1], dir);
      var p := walk[|walk| - 1];
      if IsResourceIn(dir, p) then m[FileNameOf(p) := p] else m
  }

  lemma {:induction false} LastCriteriaIsLastVisited(walk: seq<string>)
    ensures LastCriteria(walk).None? <==> forall i :: 0 <= i < |walk| ==> !IsCriteriaFileName(walk[i])
    ensures LastCriteria(walk).Some? ==>
              exists i :: 0 <= i < |walk| && walk[i] == LastCriteria(walk).value
                && IsCriteriaFileName(walk[i])
                && forall j :: i < j < |walk| ==> !IsCriteriaFileName(walk[j])
  {
    if walk != [] {
      var init := walk[..|walk| - 1];
      LastCriteriaIsLastVisited(init);
      assert forall i :: 0 <= i < |init| ==> init[i] == walk[i];
      if !IsCriteriaFileName(walk[|walk| - 1]) && LastCriteria(walk).Some? {
        var i :| 0 <= i < |init| && init[i] == LastCriteria(init).value
                 && IsCriteriaFileName(init[i])
                 && forall j :: i < j < |init| ==> !IsCriteriaFileName(init[j]);
        assert walk[i] == LastCriteria(walk).value;
      }
    }
  }

  /** Every resource kept under `name` is a non-criteria file of `dir`
      called `name`, visited after every other such file. A name is kept
      exactly when some such file is visited. */
  lemma {:induction false} ResourcesAreLastByName(walk: seq<string>, dir: string, name: string)
    ensures name in Resources(walk, dir) <==>
              exists i :: 0 <= i < |walk| && IsResourceIn(dir, walk[i]) && FileNameOf(walk[i]) == name
    ensures name in Resources(walk, dir) ==>
              exists i :: 0 <= i < |walk| && walk[i] == Resources(walk, dir)[name]
                && IsResourceIn(dir, walk[i]) && FileNameOf(walk[i]) == name
                && forall j :: i < j < |walk| ==> !(IsResourceIn(dir, walk[j]) && FileNameOf(walk[j]) == name)
  {
    if walk != [] {
      var init := walk[..|walk| - 1];
      var p := walk[|walk| - 1];
      ResourcesAreLastByName(init, dir, name);
      assert forall i :: 0 <= i < |init| ==> init[i] == walk[i];
      if !(IsResourceIn(dir, p) && FileNameOf(p) == name) && name in Resources(walk, dir) {
        var i :| 0 <= i < |init| && init[i] == Resources(init, dir)[name]
                 && IsResourceIn(dir, init[i]) && FileNameOf(init[i]) == name
                 && forall j :: i < j < |init| ==> !(IsResourceIn(dir, init[j]) && FileNameOf(init[j]) == name);
        assert walk[i] == Resources(walk, dir)[name];
      }
    }
  }

  /** No walked file is both a static resource and a script, and neither
      map holds the criteria document. */
  lemma ResourcesDisjoint(walk: seq<string>, name1: string, name2: string)
    requires name1 in Resources(walk, "static") && name2 in Resources(walk, "scripts")
    ensures Resources(walk, "static")[name1] != Resources(walk, "scripts")[name2]
    ensures !IsCriteriaFileName(Resources(walk, "static")[name1])
    ensures !IsCriteriaFileName(Resources(walk, "scripts")[name2])
  {
    ResourcesAreLastByName(walk, "static", name1);
    ResourcesAreLastByName(walk, "scripts", name2);
  }

  /** The file visitor of loadFromPath: one pass over the walk updating the
      criteria slot and the two resource maps. */
  method ClassifyWalk(walk: seq<string>)
    returns (criteriaPath: Option<string>, staticResources: map<string, string>,
             scripts: map<string, string>)
    ensures criteriaPath == LastCriteria(walk)
    ensures staticResources == Resources(walk, "static")
    ensures scripts == Resources(walk, "scripts")
  {
    criteriaPath := None;
    staticResources := map[];
    scripts := map[];
    for i := 0 to |walk|
      invariant criteriaPath == LastCriteria(walk[..i])
      invariant staticResources == Resources(walk[..i], "static")
      invariant scripts == Resources(walk[..i], "scripts")
    {
      var file := walk[i];
      assert walk[..i + 1][..i] == walk[..i];
      var isCriteria := LooksLikeCriteriaFile(file);
      if isCriteria {
        criteriaPath := Some(file);
      } else if LooksLikeStaticResource(file) {
        staticResources := staticResources[FileNameOf(file) := file];
      } else if LooksLikeScript(file) {
        scripts := scripts[FileNameOf(file) := file];
      }
    }
    assert walk[..|walk|] == walk;
  }

  /** The fields of one expected file as the criteria document gives them. */
  datatype FileFields = FileFields(path: Option<string>, pointValue: real, contentType: Option<string>,
                                   dueDates: Option<map<int, real>>, tests: seq<Node>, kind: FileKind)

  /** A parsed criteria document. */
  datatype Document = Document(assignmentName: string, files: seq<FileFields>)

  /** What reading and parsing one criteria document gives: a document, an
      empty document (the parser's null), a syntax error with the parser's
      message, or an unreadable file. */
  datatype ParseOutcome = Parsed(doc: Document) | EmptyDocument | SyntaxError(reason: string) | Unreadable

  /** IOException, or InvalidCriteriaException with its message. */
  datatype LoadError = IoFailure | InvalidCriteria(reason: string)

  /** What an unpacked criteria package offers: the directory it was
      unpacked to and the files visited by walking it, in visiting order. */
  datatype Unpacked = Unpacked(tempDir: string, walk: seq<string>)

  /** The error a document that did not parse is reported with. */
  function ParseFailure(o: ParseOutcome): (e: LoadError)
    requires !o.Parsed?
    ensures e.IoFailure? <==> o.Unreadable?
    ensures o.EmptyDocument? ==> e.reason == EmptyCriteriaReason
    ensures o.SyntaxError? ==> e.reason == o.reason
  {
    match o
    case Unreadable => IoFailure
    case EmptyDocument => InvalidCriteria(EmptyCriteriaReason)
    case SyntaxError(reason) => InvalidCriteria(reason)
  }

  /** checkCriteriaObject: a missing criteria object is an invalid one. */
  function CheckCriteriaObject(c: Option<Criteria>): (r: Result<Criteria, LoadError>)
    ensures r.Success? <==> c.Some?
    ensures r.Success? ==> r.value == c.value
    ensures r.Failure? ==> r.error == InvalidCriteria(EmptyCriteriaReason)
  {
    if c.None? then Failure(InvalidCriteria(EmptyCriteriaReason)) else Success(c.value)
  }

  /** `f` holds the fields of `ff` and has been given its test root. */
  ghost predicate FileLoadedFrom(f: File, ff: FileFields)
    reads f
  {
    && f.path == ff.path && f.pointValue == ff.pointValue && f.contentType == ff.contentType
    && f.dueDates == ff.dueDates && f.kind == ff.kind
    && f.tests.Some? && f.testRoot.Some?
    && f.SynthesizedFrom(ff.tests, f.tests.value, f.testRoot.value)
  }

  /** Criteria read from a document or a package. */
  class Criteria {
    var assignmentName: string
    var files: seq<File>
    var staticResources: Option<map<string, string>>
    var scripts: Option<map<string, string>>
    var tempDir: Option<string>

    constructor (assignmentName: string, files: seq<File>)
      ensures this.assignmentName == assignmentName && this.files == files
      ensures staticResources.None? && scripts.None? && tempDir.None?
    {
      this.assignmentName := assignmentName;
      this.files := files;
      staticResources := None;
      scripts := None;
      tempDir := None;
    }

    /** The criteria hold one distinct, synthesized file per entry of `doc`. */
    ghost predicate LoadedFrom(doc: Document)
      reads this`assignmentName, this`files, files
    {
      && assignmentName == doc.assignmentName
      && |files| == |doc.files|
      && (forall i :: 0 <= i < |files| ==> FileLoadedFrom(files[i], doc.files[i]))
      && (forall i, j :: 0 <= i < j < |files| ==> files[i] != files[j])
    }

    /** getFileByLocalPath: the first file whose path is `path`. The source
        dereferences each path it reaches, so every file before the first
        match must have one; files after it are never looked at. */
    method GetFileByLocalPath(path: string) returns (r: Option<File>)
      requires forall i :: 0 <= i < |files| && (forall j :: 0 <= j < i ==> files[j].path != Some(path))
                 ==> files[i].path.Some?
      ensures r.None? <==> forall i :: 0 <= i < |files| ==> files[i].path != Some(path)
      ensures r.Some? ==> exists i :: 0 <= i < |files| && files[i] == r.value
                            && files[i].path == Some(path)
                            && forall j :: 0 <= j < i ==> files[j].path != Some(path)
    {
      for i := 0 to |files|
        invariant forall j :: 0 <= j < i ==> files[j].path != Some(path)
      {
        var p := files[i].path.value;
        if p == path {
          return Some(files[i]);
        }
      }
      return None;
    }
  }

  /** loadCriteriaFileFromPath: parse the document, then give each of its
      files its test root. (The parser instantiates all files before the
      roots are made; as no root depends on another file, one pass that
      creates and completes each file in turn ends in the same state.) */
  method LoadCriteriaFile(path: string, parse: string -> ParseOutcome) returns (r: Result<Criteria, LoadError>)
    ensures r.Success? <==> parse(path).Parsed?
    ensures r.Failure? ==> r.error == ParseFailure(parse(path))
    ensures r.Success? ==> fresh(r.value) && r.value.LoadedFrom(parse(path).doc)
                           && (forall i :: 0 <= i < |r.value.files| ==> fresh(r.value.files[i]))
                           && r.value.staticResources.None? && r.value.scripts.None?
                           && r.value.tempDir.None?
  {
    var outcome := parse(path);
    if !outcome.Parsed? {
      return Failure(ParseFailure(outcome));
    }
    var doc := outcome.doc;
    var fs: seq<File> := [];
    for i := 0 to |doc.files|
      invariant |fs| == i
      invariant forall k :: 0 <= k < i ==> fresh(fs[k]) && FileLoadedFrom(fs[k], doc.files[k])
      invariant forall k, l :: 0 <= k < l < i ==> fs[k] != fs[l]
    {
      var ff := doc.files[i];
      var f := new File(ff.path, ff.pointValue, ff.contentType, ff.dueDates, Some(ff.tests), ff.kind);
      f.AfterConstruction();
      fs := fs + [f];
    }
    var c := new Criteria(doc.assignmentName, fs);
    return Success(c);
  }

  /** loadFromPath: a name with a criteria-document extension is read
      directly; otherwise a name with a package extension is unpacked and
      walked (`unpack`, None when unpacking fails), and the last criteria
      document found is read, with the resources attached; any other name is
      read as a criteria document. */
  method LoadFromPath(path: string, parse: string -> ParseOutcome, unpack: Option<Unpacked>)
    returns (r: Result<Criteria, LoadError>)
    ensures var name := FileNameOf(path);
            IsCriteriaFileName(name) || !IsCriteriaPackageName(name) ==>
              && (r.Success? <==> parse(path).Parsed?)
              && (r.Failure? ==> r.error == ParseFailure(parse(path)))
              && (r.Success? ==> fresh(r.value) && r.value.LoadedFrom(parse(path).doc)
                                 && r.value.staticResources.None? && r.value.scripts.None?)
    ensures var name := FileNameOf(path);
            !IsCriteriaFileName(name) && IsCriteriaPackageName(name) ==>
              && (unpack.None? ==> r == Failure(IoFailure))
              && (unpack.Some? && LastCriteria(unpack.value.walk).None? ==>
                    r == Failure(InvalidCriteria(NoCriteriaInPackageReason)))
              && (unpack.Some? && LastCriteria(unpack.value.walk).Some? ==>
                    var doc := LastCriteria(unpack.value.walk).value;
                    && (r.Success? <==> parse(doc).Parsed?)
                    && (r.Failure? ==> r.error == ParseFailure(parse(doc)))
                    && (r.Success? ==>
                          fresh(r.value) && r.value.LoadedFrom(parse(doc).doc)
                          && r.value.staticResources == Some(Resources(unpack.value.walk, "static"))
                          && r.value.scripts == Some(Resources(unpack.value.walk, "scripts"))
                          && r.value.tempDir == Some(unpack.value.tempDir)))
  {
    var fileName := FileNameOf(path);
    var isCriteria := LooksLikeCriteriaFile(fileName);
    if isCriteria {
      r := LoadCriteriaFile(path, parse);
      return;
    }
    var isPackage := LooksLikeCriteriaPackage(fileName);
    if isPackage {
      if unpack.None? {
        return Failure(IoFailure);
      }
      var criteriaPath, staticResources, scripts := ClassifyWalk(unpack.value.walk);
      if criteriaPath.None? {
        return Failure(InvalidCriteria(NoCriteriaInPackageReason));
      }
      r := LoadCriteriaFile(criteriaPath.value, parse);
      if r.Failure? {
        return;
      }
      var c := r.value;
      c.staticResources := Some(staticResources);
      c.scripts := Some(scripts);
      c.tempDir := Some(unpack.value.tempDir);
    } else {
      r := LoadCriteriaFile(path, parse);
      if r.Failure? {
        return;
      }
    }
    r := CheckCriteriaObject(Some(r.value));
  }
}
