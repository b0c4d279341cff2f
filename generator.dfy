/** The layout generator: configuration and the source tree are read-only
    for a run; the output directory is the one state it changes, one copy
    at a time. */
module Generator {
  import opened Common
  import opened Classifier
  import opened OobCopy
  import opened External

  /** A whole run: the OOB stage unless only the external index is asked
      for, then the external stage. An error in the OOB stage aborts the
      run before the external stage. `outcome` is what publishing this run's
      descriptor yields. A run fails exactly when a classified project fails
      to classify, or when there is something to publish and publishing
      fails, and a failed publish is the only error of a run whose
      classifications all succeed. */
  function Run(justExternal: bool, files: Directory, projects: seq<PkgProj>, repo: Repository,
               refFolder: Directory, packages: seq<(string, string)>, outcome: PublishOutcome): (r: Staged)
    requires justExternal || Listable(projects, repo)
    ensures r.error.Some? <==>
      (!justExternal && !ClassifiesCleanly(projects, repo)) || (|packages| > 0 && outcome.exitCode != 0)
    ensures justExternal || ClassifiesCleanly(projects, repo) ==>
      r.error.None? || r.error == Some(PublishFailed(outcome.exitCode))
  {
    if justExternal then ExternalStage(files, packages, outcome, refFolder)
    else
      OobStageErrorFree(files, projects, repo, refFolder);
      var oob := OobStage(files, projects, repo, refFolder);
      if oob.error.Some? then oob else ExternalStage(oob.files, packages, outcome, refFolder)
  }

  /** The precedence of a whole successful run, name by name: a referenced
      package's published assembly wins; then an OOB assembly from the
      reference folder; then what the output directory held before; then a
      transitive published assembly the reference folder does not supply. */
  lemma RunPrecedence(files: Directory, projects: seq<PkgProj>, repo: Repository, refFolder: Directory,
                      packages: seq<(string, string)>, outcome: PublishOutcome, n: string)
    requires Listable(projects, repo) && ClassifiesCleanly(projects, repo)
    requires |packages| > 0 && outcome.exitCode == 0
    ensures var out := Run(false, files, projects, repo, refFolder, packages, outcome);
      var published := outcome.refsDir;
      var direct := n in DirectNames(References(packages)) && n in published;
      var oob := n in OobNames(projects, repo) && n in refFolder;
      && out.error == None
      && (direct ==> n in out.files && out.files[n] == published[n])
      && (!direct && oob ==> n in out.files && out.files[n] == refFolder[n])
      && (!direct && !oob && n in files ==> n in out.files && out.files[n] == files[n])
      && (!direct && !oob && n !in files ==>
            if n in published && IsDll(n) && n !in refFolder
            then n in out.files && out.files[n] == published[n]
            else n !in out.files)
  {
    var afterOob := OobStage(files, projects, repo, refFolder).files;
    OobStageContents(files, projects, repo, refFolder);
    OobCopyEffect(files, projects, repo, refFolder, n);
    ExternalStageContents(afterOob, packages, outcome, refFolder, n);
  }

  /** A project whose PropertyGroup sets both IsNETCoreApp and
      IsNETCoreAppRef to true is in-band and not copied, even though the
      reference folder holds its assembly. */
  lemma InBandExample(files: Directory, p: PkgProj, doc: Document, refFolder: Directory)
    requires !Excluded(p.path) && |p.rootProps| > 0
    requires doc.propertyGroup == Some(PropertyGroup(Some(true), Some(true)))
    requires DllName(p.name) in refFolder
    ensures var repo := map[p.rootProps[0] := doc];
      OobStage(files, [p], repo, refFolder) == Staged(files, None)
  {
    var repo := map[p.rootProps[0] := doc];
    FirstDocument(repo, p.root, p.rootProps[0]);
    assert [p][..0] == [];
  }

  class AssemblyDropGenerator {
    /** The props documents of the source tree. */
    const documents: Repository
    /** The source tree's folder of netcoreapp reference assemblies. */
    const refAssemblies: Directory
    /** The `.pkgproj` files under the source tree's `src`, in listing order. */
    const projects: seq<PkgProj>
    /** The `Packages` of the external index, in document order. */
    const packages: seq<(string, string)>
    const framework: string
    const rid: string
    const runtimeVersion: string
    /** Restore the external index only, skipping the OOB stage. */
    const justExternal: bool
    /** The output directory. */
    var outDir: Directory

    /** The output directory is created if missing; what it already holds stays. */
    constructor (documents: Repository, refAssemblies: Directory, projects: seq<PkgProj>,
                 packages: seq<(string, string)>, framework: string, rid: string,
                 runtimeVersion: string, justExternal: bool, existing: Directory)
      ensures this.documents == documents && this.refAssemblies == refAssemblies
      ensures this.projects == projects && this.packages == packages
      ensures this.framework == framework && this.rid == rid && this.runtimeVersion == runtimeVersion
      ensures this.justExternal == justExternal && outDir == existing
    {
      this.documents := documents;
      this.refAssemblies := refAssemblies;
      this.projects := projects;
      this.packages := packages;
      this.framework := framework;
      this.rid := rid;
      this.runtimeVersion := runtimeVersion;
      this.justExternal := justExternal;
      outDir := existing;
    }

    /** The descriptor this run generates when the index is not empty. */
    ghost function RunDescriptor(): Descriptor
    {
      DescriptorFor(framework, rid, runtimeVersion, References(packages))
    }

    /** A run, with `tool` the package manager: what it yields when it
        publishes a descriptor. */
    method Generate(tool: Descriptor -> PublishOutcome) returns (err: Option<Error>)
      requires justExternal || Listable(projects, documents)
      modifies this
      ensures Staged(outDir, err) ==
        Run(justExternal, old(outDir), projects, documents, refAssemblies, packages, tool(RunDescriptor()))
    {
      if !justExternal {
        err := CopyOobAssemblies();
        if err.Some? {
          return;
        }
      }
      var descriptor;
      descriptor, err := GenerateCompatPackExternalLayout(tool);
    }

    /** The OOB stage: each project in listing order, skipping native and
        private packages; an OOB project's assembly is copied from the
        reference folder, overwriting, when the folder holds it. */
    method CopyOobAssemblies() returns (err: Option<Error>)
      requires Listable(projects, documents)
      modifies this
      ensures Staged(outDir, err) == OobStage(old(outDir), projects, documents, refAssemblies)
    {
      ghost var start := outDir;
      var i := 0;
      while i < |projects|
        invariant 0 <= i <= |projects|
        invariant Listable(projects[..i], documents)
        invariant OobStage(start, projects[..i], documents, refAssemblies) == Staged(outDir, None)
      {
        var file := projects[i];
        assert projects[..i + 1] == projects[..i] + [file];
        ListablePrefix(projects, i + 1, documents);
        OobStageSnoc(start, projects[..i], file, documents, refAssemblies);
        if !Excluded(file.path) {
          var oob := IsOOB(file);
          if oob.Failure? {
            OobStageStopsAtError(start, projects, i + 1, documents, refAssemblies);
            return Some(oob.error);
          }
          if oob.value {
            var fileName := DllName(file.name);
            if fileName in refAssemblies {
              outDir := outDir[fileName := refAssemblies[fileName]];
            }
          }
        }
        i := i + 1;
      }
      assert projects[..i] == projects;
      err := None;
    }

    /** The classification of one project: load the first props file at its
        root, follow Imports while the loaded document has no PropertyGroup,
        then decide on the group found. */
    method IsOOB(pkgproj: PkgProj) returns (r: Result<bool, Error>)
      requires Classifiable(pkgproj, documents)
      ensures r == Classification(documents, pkgproj.root, pkgproj.rootProps[0])
    {
      var root := pkgproj.root;
      var path := pkgproj.rootProps[0];
      var project := documents[path];
      var propertyGroup := project.propertyGroup;
      var visited: set<string> := {};
      while propertyGroup.None?
        invariant path in documents && project == documents[path] && propertyGroup == project.propertyGroup
        invariant path !in visited && visited <= documents.Keys
        invariant Resolve(documents, root, pkgproj.rootProps[0], {}) == Resolve(documents, root, path, visited)
        decreases documents.Keys - visited
      {
        if project.importElement.None? {
          return Success(true);
        }
        var pathToImport := project.importElement.value.project;
        if pathToImport.None? {
          return Failure(NullImportPath);
        }
        if pathToImport.value == "" {
          return Success(true);
        }
        visited := visited + {path};
        path := CombinePath(root, pathToImport.value);
        if path !in documents {
          return Failure(MissingDocument(path));
        }
        if path in visited {
          return Failure(ImportCycle(path));
        }
        project := documents[path];
        propertyGroup := project.propertyGroup;
      }
      r := Success(Classify(propertyGroup.value));
    }

    /** The external stage: read the index; stop if it is empty; otherwise
        generate the descriptor, publish it, and copy what was published.
        The descriptor returned is the one generated, None when none was
        (and so nothing was published). */
    method GenerateCompatPackExternalLayout(tool: Descriptor -> PublishOutcome)
      returns (descriptor: Option<Descriptor>, err: Option<Error>)
      modifies this
      ensures descriptor == if |packages| == 0 then None else Some(RunDescriptor())
      ensures Staged(outDir, err) == ExternalStage(old(outDir), packages, tool(RunDescriptor()), refAssemblies)
    {
      var references := ReadReferences();
      if |references| <= 0 {
        return None, None;
      }
      var d := GenerateCsproj(references);
      descriptor := Some(d);
      var published := PublishProject(tool(d));
      if published.Failure? {
        return descriptor, Some(published.error);
      }
      CopyExternalDependencies(published.value, references);
      err := None;
    }

    /** One package reference per entry of the index, in order. */
    method ReadReferences() returns (references: seq<PackageReference>)
      ensures references == References(packages)
    {
      references := [];
      var i := 0;
      while i < |packages|
        invariant 0 <= i <= |packages|
        invariant references == References(packages[..i])
      {
        assert packages[..i + 1][..i] == packages[..i];
        references := references + [PackageReference(packages[i].0, packages[i].1)];
        i := i + 1;
      }
      assert packages[..i] == packages;
    }

    /** The descriptor: the template's properties, then the configured
        framework, runtime identifier and runtime version, and one item per
        reference, in order. */
    method GenerateCsproj(packageReferences: seq<PackageReference>) returns (d: Descriptor)
      ensures d == DescriptorFor(framework, rid, runtimeVersion, packageReferences)
    {
      var properties := TemplateProperties;
      properties := properties + [("TargetFramework", framework)];
      properties := properties + [("RuntimeIdentifier", rid)];
      properties := properties + [("RuntimeFrameworkVersion", runtimeVersion)];
      var itemGroup := [];
      var i := 0;
      while i < |packageReferences|
        invariant 0 <= i <= |packageReferences|
        invariant itemGroup == Items(packageReferences[..i])
      {
        assert packageReferences[..i + 1][..i] == packageReferences[..i];
        var item := PackageItem(packageReferences[i].name, packageReferences[i].version);
        itemGroup := itemGroup + [item];
        i := i + 1;
      }
      assert packageReferences[..i] == packageReferences;
      d := Descriptor(properties, itemGroup);
    }

    /** The direct pass over the references, then the transitive pass over
        every published `*.dll`, in whatever order the listing gives them. */
    method CopyExternalDependencies(publishDir: Directory, references: seq<PackageReference>)
      modifies this
      ensures outDir == TransitivePass(DirectPass(old(outDir), references, publishDir), publishDir, refAssemblies)
    {
      ghost var start := outDir;
      var i := 0;
      while i < |references|
        invariant 0 <= i <= |references|
        invariant outDir == DirectPass(start, references[..i], publishDir)
      {
        assert references[..i + 1] == references[..i] + [references[i]];
        DirectPassSnoc(start, references[..i], references[i], publishDir);
        var fileName := DllName(references[i].name);
        if fileName in publishDir {
          outDir := outDir[fileName := publishDir[fileName]];
        }
        i := i + 1;
      }
      assert references[..i] == references;

      ghost var afterDirect := outDir;
      var pending := publishDir.Keys;
      while pending != {}
        invariant pending <= publishDir.Keys
        invariant forall n :: n in outDir <==>
          n in afterDirect || (n in publishDir && n !in pending && IsDll(n) && n !in refAssemblies)
        invariant forall n :: n in outDir ==> outDir[n] == if n in afterDirect then afterDirect[n] else publishDir[n]
        decreases pending
      {
        var file :| file in pending;
        if IsDll(file) && file !in outDir && file !in refAssemblies {
          outDir := outDir[file := publishDir[file]];
        }
        pending := pending - {file};
      }
      TransitivePassByName(afterDirect, publishDir, refAssemblies, outDir);
    }
  }
}
