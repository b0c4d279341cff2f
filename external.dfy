/** The external-dependency stage of a run: the package references of the
    external index, the project descriptor generated from them, the
    package manager's publish step, and the two copy passes over its output. */
module External {
  import opened Common

  /** One entry of the index's `Packages` mapping. */
  datatype PackageReference = PackageReference(name: string, version: string)

  /** One PackageReference item of the generated descriptor: its Include and Version attributes. */
  datatype PackageItem = PackageItem(includeAttribute: string, version: string)

  /** The generated descriptor: its PropertyGroup entries in document order,
      and its ItemGroup of package references. */
  datatype Descriptor = Descriptor(properties: seq<(string, string)>, items: seq<PackageItem>)

  /** What running the package manager on a descriptor leaves behind: its
      exit code, and the contents of `publish/refs` beside the descriptor. */
  datatype PublishOutcome = PublishOutcome(exitCode: int, refsDir: Directory)

  /** The parsed index, `(name, version)` pairs in document order, as references. */
  function References(packages: seq<(string, string)>): (refs: seq<PackageReference>)
    ensures |refs| == |packages|
    ensures forall i :: 0 <= i < |refs| ==> refs[i].name == packages[i].0 && refs[i].version == packages[i].1
    decreases |packages|
  {
    if packages == [] then []
    else
      var last := packages[|packages| - 1];
      References(packages[..|packages| - 1]) + [PackageReference(last.0, last.1)]
  }

  /** The descriptor's items: one per reference, in order. */
  function Items(refs: seq<PackageReference>): (items: seq<PackageItem>)
    ensures |items| == |refs|
    ensures forall i :: 0 <= i < |items| ==> items[i].includeAttribute == refs[i].name && items[i].version == refs[i].version
    decreases |refs|
  {
    if refs == [] then []
    else
      var last := refs[|refs| - 1];
      Items(refs[..|refs| - 1]) + [PackageItem(last.name, last.version)]
  }

  /** The two properties the descriptor template carries before any are added. */
  const TemplateProperties: seq<(string, string)> :=
    [("PreserveCompilationContext", "true"), ("NETCoreAppMaximumVersion", "99.9")]

  /** The descriptor for the configured framework, runtime identifier and
      runtime version, referencing `refs`: the template's properties come
      first and are kept, the configured ones follow, and there is one item
      per reference. */
  function DescriptorFor(framework: string, rid: string, runtimeVersion: string, refs: seq<PackageReference>): (d: Descriptor)
    ensures TemplateProperties <= d.properties && |d.properties| == |TemplateProperties| + 3
    ensures ("TargetFramework", framework) in d.properties && ("RuntimeIdentifier", rid) in d.properties
    ensures ("RuntimeFrameworkVersion", runtimeVersion) in d.properties
    ensures |d.items| == |refs|
    ensures forall i :: 0 <= i < |refs| ==> d.items[i] == PackageItem(refs[i].name, refs[i].version)
  {
    Descriptor(
      TemplateProperties + [("TargetFramework", framework), ("RuntimeIdentifier", rid), ("RuntimeFrameworkVersion", runtimeVersion)],
      Items(refs))
  }

  /** The exit-code contract of the publish step: zero yields the directory
      of published reference assemblies, anything else aborts the run. */
  function PublishProject(outcome: PublishOutcome): (r: Result<Directory, Error>)
    ensures r.Success? <==> outcome.exitCode == 0
    ensures r.Success? ==> r.value == outcome.refsDir
    ensures r.Failure? ==> r.error == PublishFailed(outcome.exitCode)
  {
    if outcome.exitCode != 0 then Failure(PublishFailed(outcome.exitCode)) else Success(outcome.refsDir)
  }

  /** The direct pass: for each reference in order, its `<name>.dll` is
      copied from the publish directory, overwriting, when it is there (a
      metapackage has none). It never removes a file, and every entry it
      changes or adds is a published copy. */
  function DirectPass(files: Directory, refs: seq<PackageReference>, published: Directory): (r: Directory)
    ensures forall n :: n in files ==> n in r
    ensures forall n :: n in r ==> (n in files && r[n] == files[n]) || (n in published && r[n] == published[n])
    decreases |refs|
  {
    if refs == [] then files
    else CopyIfPresent(DirectPass(files, refs[..|refs| - 1], published), published, DllName(refs[|refs| - 1].name))
  }

  lemma DirectPassSnoc(files: Directory, refs: seq<PackageReference>, r: PackageReference, published: Directory)
    ensures DirectPass(files, refs + [r], published) ==
      CopyIfPresent(DirectPass(files, refs, published), published, DllName(r.name))
  {
    assert (refs + [r])[..|refs|] == refs;
  }

  /** The assembly names the direct pass looks for. */
  function DirectNames(refs: seq<PackageReference>): set<string>
  {
    set r | r in refs :: DllName(r.name)
  }

  /** After the direct pass, every reference's assembly that was published is
      the published copy, and every other entry is as it was. */
  lemma {:induction false} DirectPassContents(files: Directory, refs: seq<PackageReference>, published: Directory)
    ensures DirectPass(files, refs, published) == files + Restrict(published, DirectNames(refs))
    decreases |refs|
  {
    if refs == [] {
      assert Restrict(published, DirectNames(refs)) == map[];
      assert files + map[] == files;
    } else {
      var init, r := refs[..|refs| - 1], refs[|refs| - 1];
      assert refs == init + [r];
      assert DirectNames(refs) == DirectNames(init) + {DllName(r.name)} by {
        assert forall q :: q in refs <==> q in init || q == r;
      }
      DirectPassContents(files, init, published);
      CopyOneMore(files, published, DirectNames(init), DllName(r.name));
    }
  }

  /** The transitive pass: a published `*.dll` is copied only when neither
      the output directory nor the source tree's reference folder already
      has a file of that name. It never removes or changes a file. */
  function TransitivePass(files: Directory, published: Directory, refFolder: Directory): (r: Directory)
    ensures forall n :: n in files ==> n in r && r[n] == files[n]
  {
    files + map n | n in published && IsDll(n) && n !in files && n !in refFolder :: published[n]
  }

  /** The transitive pass only adds: every entry already in the output
      directory, whoever wrote it, is kept unchanged; an added entry is a
      published assembly the reference folder does not supply; and every such
      assembly is present afterwards. */
  lemma TransitivePassOnlyAdds(files: Directory, published: Directory, refFolder: Directory, n: string)
    ensures var r := TransitivePass(files, published, refFolder);
      && (n in files ==> n in r && r[n] == files[n])
      && (n in r && n !in files ==> n in published && IsDll(n) && n !in refFolder && r[n] == published[n])
      && (n in published && IsDll(n) && n !in refFolder ==> n in r)
      && (n in refFolder && n !in files ==> n !in r)
  {
  }

  /** A directory that agrees with the transitive pass name by name is the
      transitive pass. */
  lemma TransitivePassByName(files: Directory, published: Directory, refFolder: Directory, out: Directory)
    requires forall n :: n in out <==> n in files || (n in published && IsDll(n) && n !in refFolder)
    requires forall n :: n in out ==> out[n] == if n in files then files[n] else published[n]
    ensures out == TransitivePass(files, published, refFolder)
  {
    var expected := TransitivePass(files, published, refFolder);
    assert out.Keys == expected.Keys;
  }

  /** The whole stage from the parsed index and the outcome of publishing
      this run's descriptor. An empty index ends the stage at once. It fails
      exactly when there is something to publish and publishing fails, and
      then copies nothing; otherwise it never removes a file. */
  function ExternalStage(files: Directory, packages: seq<(string, string)>, outcome: PublishOutcome, refFolder: Directory): (r: Staged)
    ensures r.error.Some? <==> |packages| > 0 && outcome.exitCode != 0
    ensures r.error.Some? ==> r.files == files && r.error.value == PublishFailed(outcome.exitCode)
    ensures forall n :: n in files ==> n in r.files
  {
    var refs := References(packages);
    if |refs| <= 0 then Staged(files, None)
    else match PublishProject(outcome)
      case Failure(e) => Staged(files, Some(e))
      case Success(published) => Staged(TransitivePass(DirectPass(files, refs, published), published, refFolder), None)
  }

  /** An index with no packages changes nothing, whatever the package
      manager would have done. */
  lemma EmptyIndexChangesNothing(files: Directory, outcome: PublishOutcome, refFolder: Directory)
    ensures ExternalStage(files, [], outcome, refFolder) == Staged(files, None)
  {
  }

  /** A failed publish aborts the stage before any copy. */
  lemma FailedPublishCopiesNothing(files: Directory, packages: seq<(string, string)>, outcome: PublishOutcome, refFolder: Directory)
    requires |packages| > 0 && outcome.exitCode != 0
    ensures ExternalStage(files, packages, outcome, refFolder) == Staged(files, Some(PublishFailed(outcome.exitCode)))
  {
  }

  /** The precedence of the stage, name by name: a referenced package's
      published assembly overwrites; otherwise an existing entry is kept;
      otherwise a published assembly the reference folder does not supply
      is added; anything else stays absent. */
  lemma ExternalStageContents(files: Directory, packages: seq<(string, string)>, outcome: PublishOutcome, refFolder: Directory, n: string)
    requires |packages| > 0 && outcome.exitCode == 0
    ensures var out := ExternalStage(files, packages, outcome, refFolder);
      var published := outcome.refsDir;
      && out.error == None
      && (n in DirectNames(References(packages)) && n in published ==> n in out.files && out.files[n] == published[n])
      && (!(n in DirectNames(References(packages)) && n in published) && n in files ==> n in out.files && out.files[n] == files[n])
      && (!(n in DirectNames(References(packages)) && n in published) && n !in files ==>
            if n in published && IsDll(n) && n !in refFolder
            then n in out.files && out.files[n] == published[n]
            else n !in out.files)
  {
    var refs := References(packages);
    DirectPassContents(files, refs, outcome.refsDir);
    TransitivePassOnlyAdds(DirectPass(files, refs, outcome.refsDir), outcome.refsDir, refFolder, n);
  }

  /** The index `{"Foo": "1.2.3"}` yields the single item Foo 1.2.3, and a
      published `Foo.dll` reaches the output directory. */
  lemma SinglePackageExample(files: Directory, outcome: PublishOutcome, refFolder: Directory, framework: string, rid: string, runtimeVersion: string)
    requires outcome.exitCode == 0 && "Foo.dll" in outcome.refsDir
    ensures DescriptorFor(framework, rid, runtimeVersion, References([("Foo", "1.2.3")])).items == [PackageItem("Foo", "1.2.3")]
    ensures var out := ExternalStage(files, [("Foo", "1.2.3")], outcome, refFolder).files;
      "Foo.dll" in out && out["Foo.dll"] == outcome.refsDir["Foo.dll"]
  {
    var refs := References([("Foo", "1.2.3")]);
    assert refs == [PackageReference("Foo", "1.2.3")];
    assert DllName("Foo") == "Foo.dll";
    ExternalStageContents(files, [("Foo", "1.2.3")], outcome, refFolder, "Foo.dll");
    assert refs[0] in refs;
  }
}
