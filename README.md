# Compat-pack layout generator, modelled in Dafny

The generator fills an output directory (the "layout") with assemblies for
applications that target a framework compatibility pack. A run has two
stages:

1. **OOB stage** (skipped when only the external index is asked for). Every
   `.pkgproj` under the source tree's `src` is considered, except those whose
   path contains `Native` or `Private`. Each project is classified as
   out-of-band (OOB) or in-band:
   - take the first `dir*.props` file at the project root;
   - follow `Import` elements while the loaded document has no `PropertyGroup`;
   - decide on the `IsNETCoreAppRef` / `IsNETCoreApp` flags of the group found.
   An OOB project's `<name>.dll` is then copied, overwriting, from the source
   tree's netcoreapp reference folder, if that folder has it.
2. **External stage**:
   - The `Packages` of the external index become package references.
   - An empty index ends the run.
   - Otherwise a project descriptor lists one `PackageReference` item per
     package. The package manager publishes it; a non-zero exit code aborts
     the run.
   - The published assemblies are then copied in two passes. The **direct**
     pass copies each package's `<name>.dll`, overwriting. The **transitive**
     pass copies a published `*.dll` only when neither the output directory
     nor the reference folder already has a file of that name.

Directories are maps from file name to content. The props documents of the
source tree are a map from path to an abstract document. The package
manager is a function from descriptor to outcome (exit code and published
directory).

Modules:
- `Common` (`common.dfy`): shared values, errors, and the copy-if-present
  step.
- `Classifier` (`classifier.dfy`): the decision table and the import walk as
  specification functions, with their lemmas.
- `OobCopy` (`oob_copy.dfy`): the OOB stage as a specification function over
  the project listing, with its lemmas.
- `External` (`external.dfy`): references, descriptor, publish contract, the
  two copy passes and the whole external stage.
- `Generator` (`generator.dfy`): the class `AssemblyDropGenerator`. Its
  methods run the source's loops over a mutable `outDir` map. Each one is
  proved equal to the specification function of its stage.
  `RunPrecedence` states the precedence of a whole run, name by name.

Behaviour of the import walk, as the code has it:
- An `Import` naming a file that does not exist aborts the run, because
  loading it throws.
- The import chain is followed to any depth.
- Each Import's Project attribute is combined with the root of the project
  being classified (Program.cs:136). So the same relative Import can name
  different documents for different projects.
- A project whose group sets both `IsNETCoreApp` and `IsNETCoreAppRef` to
  true is in-band and is not copied.

The import test in the source is
`string.IsNullOrEmpty(path) && !path.Contains("Directory.Build")`.
- An empty path gives OOB.
- Any non-empty path is followed, whether or not it names a
  `Directory.Build` file.
- An Import without a `Project` attribute throws earlier, at Program.cs:132,
  when the missing attribute's value is read.

The model keeps exactly this behaviour: a missing attribute is the
`NullImportPath` error, and an empty path gives OOB.

## Model

| member | source | states |
|---|---|---|
| `Classifier.Resolve` | Program.cs:123-138 | The import walk from a document, resolving each Import against the project root. A group it finds belongs to a document of the tree. A document it reports missing is absent from the tree. |
| `Classifier.Classification` | Program.cs:118-157 | The classification of a project's first root props file. In-band is returned only when some document of the tree has a group whose flags say in-band. A document reported missing is absent from the tree. |
| `Classifier.Classify` | Program.cs:140-157 | An explicit `IsNETCoreAppRef` of false makes the project OOB whatever `IsNETCoreApp` says. Otherwise it is OOB exactly when `IsNETCoreApp` is not present-and-true. Together: OOB iff not (`IsNETCoreAppRef` ≠ false and `IsNETCoreApp` = true). |
| `Classifier.FirstDocument` | Program.cs:123-137 | A first document with a PropertyGroup is classified by that group alone, whatever it imports. Without a group: no Import gives OOB; an empty import path gives OOB; a missing Project attribute is the `NullImportPath` error; an imported file that does not exist is the `MissingDocument` error. |
| `Classifier.ResolveIgnoresVisited` | Program.cs:124-138 | The set of documents already loaded, which the model keeps to detect a cycle, changes no walk that does not end in a cycle. |
| `Classifier.ImportIsTransparent` | Program.cs:124-138 | A document without a PropertyGroup classifies exactly as the document its Import names, combined with the same project root. The walk stops at the first group on the chain and uses only that group. |
| `Classifier.ImportsFollowTheProjectRoot` | Program.cs:136-137 | Two projects whose root props files carry the same relative Import are each classified by the document under their own root, so they can be classified differently. |
| `Generator.AssemblyDropGenerator.IsOOB` | Program.cs:118-158 | The `while` loop over imports returns exactly the classification of the project's first root props file: OOB, in-band, or the error that aborts the run. |
| `Common.CopyIfPresent` | Program.cs:106-110 | A guarded overwrite copy adds or replaces exactly the one name when the source directory has it, and leaves every other entry unchanged. |
| `OobCopy.OobStep` | Program.cs:98-111 | One project's turn. After an earlier error nothing changes. The turn ends in an error exactly when there was none before, and the project is not path-skipped and does not classify. |
| `OobCopy.OobStage` | Program.cs:96-112 | The stage over the listing never removes a file. Every entry it changes or adds is the reference folder's copy. |
| `OobCopy.OobStageErrorFree` | Program.cs:96-112 | The stage ends without an error if and only if every project it classifies (not path-skipped) classifies. |
| `OobCopy.OobStageFirstFailure` | Program.cs:96-112 | When the first failing classification is that of project k, the stage ends with that error. The output directory holds exactly the copies for the OOB projects before k. |
| `OobCopy.OobStageOverrides` | Program.cs:106-110 | The stage only overwrites. From any directory it yields that directory overridden by what it yields from an empty one, with the same error. |
| `OobCopy.OobStageContents` | Program.cs:96-112 | When no classification fails, the output directory afterwards is the old one overridden by the reference folder's entries for the assembly names of the OOB, non-skipped projects, and nothing else. |
| `OobCopy.OobCopyEffect` | Program.cs:100-111 | Name by name: an OOB project's `<name>.dll` present in the reference folder ends up equal to the reference copy. Every other name, including a missing reference assembly, keeps its old entry or stays absent. |
| `OobCopy.SkippedProjectChangesNothing` | Program.cs:98-100 | A project whose path contains `Native` or `Private` causes no copy, whatever its classification (even when it cannot be classified). An in-band project causes no copy either. |
| `OobCopy.OnlyActingProjectsMatter` | Program.cs:96-112 | The stage over the whole listing equals the stage over only the projects that are neither path-skipped nor in-band, in any position. |
| `OobCopy.OobStageIdempotent` | Program.cs:96-112 | Running the OOB stage again over its own output gives back the same directory and the same outcome. This holds whether or not a classification failed. |
| `OobCopy.OobStageStopsAtError` | Program.cs:96-112 | Once a prefix of the listing has ended in an error, the projects after it change nothing: the stage equals the stage of that prefix. |
| `OobCopy.OobStageFailsOnlyOnClassification` | Program.cs:100 | The OOB stage ends in an error only when a project it classifies (not path-skipped) fails to classify with that same error. |
| `Generator.AssemblyDropGenerator.CopyOobAssemblies` | Program.cs:93-112 | The loop over the listing leaves `outDir` and the error exactly as the OOB stage specification says. |
| `External.References` | Program.cs:172-183 | One reference per index entry, in index order, with Name and Version taken from the entry. |
| `External.Items` | Program.cs:258-265 | One descriptor item per reference, in order, with Include = Name and Version = Version. |
| `Generator.AssemblyDropGenerator.ReadReferences` | Program.cs:172-183 | The loop that appends to the reference list yields exactly `References` of the index. |
| `Generator.AssemblyDropGenerator.GenerateCsproj` | Program.cs:234-276 | The descriptor holds the template's two properties, then TargetFramework, RuntimeIdentifier and RuntimeFrameworkVersion from the configuration, then exactly one item per reference, in order. |
| `External.DescriptorFor` | Program.cs:241-267 | The template's two properties come first and are kept. TargetFramework, RuntimeIdentifier and RuntimeFrameworkVersion follow, with the configured values. The descriptor has exactly one item per reference, in order, with Include = Name and Version = Version. |
| `External.PublishProject` | Program.cs:295-300 | Publishing succeeds iff the exit code is 0, and then yields the published reference directory. Any other exit code is the `PublishFailed` error. |
| `External.DirectPass` | Program.cs:206-217 | The direct pass never removes a file. Every entry it changes or adds is the published copy. |
| `External.TransitivePass` | Program.cs:219-231 | The transitive pass never removes or changes an existing entry. |
| `External.DirectPassContents` | Program.cs:206-217 | After the direct pass, each reference's `<Name>.dll` that was published equals the published copy (overwrite). Every other entry is unchanged, so a metapackage without a binary is skipped without error. |
| `External.TransitivePassOnlyAdds` | Program.cs:219-231 | The transitive pass keeps every existing entry unchanged, whoever wrote it. It adds only published `*.dll` files that the reference folder lacks, and it adds all of those. A file the reference folder has is never added. |
| `External.ExternalStage` | Program.cs:185-232 | The external stage fails exactly when the index is non-empty and publishing fails. It then copies nothing and reports `PublishFailed` with the exit code. It never removes a file. |
| `External.EmptyIndexChangesNothing` | Program.cs:185-188 | An index without packages changes nothing and raises no error, whatever the package manager would do. |
| `External.FailedPublishCopiesNothing` | Program.cs:195-196 | A failed publish aborts the stage with `PublishFailed` before any copy. |
| `External.ExternalStageContents` | Program.cs:199-232 | The external stage's precedence, name by name: a published direct assembly overwrites; otherwise an existing entry is kept; otherwise a published `*.dll` the reference folder lacks is added; otherwise the name stays absent. |
| `External.SinglePackageExample` | Program.cs:172-217 | The index `{"Foo": "1.2.3"}` yields exactly the item (Foo, 1.2.3). A published `Foo.dll` is then copied to the output directory. |
| `Generator.AssemblyDropGenerator.CopyExternalDependencies` | Program.cs:199-232 | The loop over references and then the loop over the published files leave `outDir` equal to the transitive pass applied after the direct pass. |
| `Generator.AssemblyDropGenerator.GenerateCompatPackExternalLayout` | Program.cs:170-197 | A descriptor is generated (and so published) iff the index is non-empty, and it is the configured descriptor of the index's references. `outDir` and the error are then those of the external stage. |
| `Generator.AssemblyDropGenerator.Generate` | Program.cs:89-116 | A run is the OOB stage (unless only the external index is asked for), then the external stage. An OOB error aborts the run before the external stage. |
| `Generator.AssemblyDropGenerator.constructor` | Program.cs:73-87 | The configuration is recorded. The output directory is kept as it is, only created if missing. |
| `Generator.Run` | Program.cs:89-116 | A run fails exactly when the OOB stage runs and a classified project does not classify, or when the index is non-empty and publishing fails. When every classification succeeds, a failed publish is the only possible error. |
| `Generator.RunPrecedence` | Program.cs:89-232 | For a successful run, name by name: a direct published assembly wins. Then an OOB reference assembly, then what the output directory already held, then a transitive published assembly that the reference folder lacks. |
| `Generator.InBandExample` | Program.cs:100-111 | A project whose group has `IsNETCoreApp` and `IsNETCoreAppRef` both true is not copied, even though the reference folder holds its assembly. |

## Left out

- Command-line parsing and option defaults (Program.cs:15-58): library plumbing. The options are constructor parameters.
- Console logging: output only.
- XML loading and the XML-to-JSON conversion in `GetPropertyGroup` (Program.cs:160-168): foreign calls. A document is abstracted to its optional PropertyGroup (two optional flags) and its optional Import (an optional Project attribute). Several PropertyGroup or Import elements, flag texts that do not parse as booleans, and a missing `Project` root element all throw in the source. They are not modelled.
- JSON parsing of the external index (Program.cs:173-178): the index is the already-parsed sequence of (name, version) pairs.
- Descriptor XML construction, serialisation and the directory it is written to (Program.cs:238-275): only the abstract property list and item list are kept.
- Process launch, arguments, environment variables and waiting (Program.cs:280-296): external tool. It is the `tool` parameter: a function from descriptor to exit code and published directory.
- File-system semantics: the model does not capture
  - `Directory.GetFiles` globbing;
  - `GetDirectoryName` and `GetFileNameWithoutExtension` (`Path.Combine` is modelled only as described below);
  - case-insensitive names;
  - I/O exceptions;
  - the output directory aliasing the reference folder.
  A project is given with its full path, its base name, its project root and the `dir*.props` files of that root. The root is not derived from the path with `GetDirectoryName`. The document map is keyed by full path. `*.dll` is a suffix test.
- Common.CombinePath: models `Path.Combine` with `/` as the only separator, as on Unix. A rooted Import stands alone; otherwise it is joined to the project root. Windows drive letters and `\` separators are not modelled.
- Generator.AssemblyDropGenerator.IsOOB: on an import chain that comes back to a document already loaded, the source loops forever. The model stops with the `ImportCycle` error instead, because Dafny methods must terminate.
- Generator.AssemblyDropGenerator.CopyOobAssemblies: requires that every project it classifies has a `dir*.props` file present in the document map. The source indexes `file[0]` without checking and fails otherwise.
