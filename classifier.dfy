/** Out-of-band classification of a package project.

    A project's root holds a `dir*.props` file. Its PropertyGroup decides
    whether the assembly ships out of band (OOB); a props file without a
    PropertyGroup defers to the props file it imports, and so on down the
    chain. Documents are abstracted to the few elements the walk reads. */
module Classifier {
  import opened Common

  /** The two flags of a PropertyGroup that decide classification; None
      stands for an element that is absent. */
  datatype PropertyGroup = PropertyGroup(isNetCoreAppRef: Option<bool>, isNetCoreApp: Option<bool>)

  /** An Import element; `project` is its Project attribute, None when the
      attribute is missing. */
  datatype Import = Import(project: Option<string>)

  /** A props document: its PropertyGroup and its Import, either possibly absent. */
  datatype Document = Document(propertyGroup: Option<PropertyGroup>, importElement: Option<Import>)

  /** The props documents of the source tree, keyed by full path. An
      Import's Project attribute is combined with the project root of the
      project being classified before it is looked up, so one relative
      Import can name different documents for different projects. */
  type Repository = map<string, Document>

  /** The decision on a found PropertyGroup. An explicit IsNETCoreAppRef of
      false wins; otherwise only an explicit IsNETCoreApp of true makes the
      project in-band. */
  function Classify(g: PropertyGroup): (oob: bool)
    ensures g.isNetCoreAppRef == Some(false) ==> oob
    ensures oob <==> !(g.isNetCoreAppRef != Some(false) && g.isNetCoreApp == Some(true))
  {
    if g.isNetCoreAppRef.Some? && !g.isNetCoreAppRef.value then true
    else if g.isNetCoreApp.None? then true
    else if g.isNetCoreApp.value then false
    else true
  }

  /** Where the import walk ends. */
  datatype Lookup =
      /** A document on the chain has this PropertyGroup. */
    | Found(group: PropertyGroup)
      /** The chain ended without a PropertyGroup: no Import, or an empty path. */
    | NoGroup
    | LookupFailed(error: Error)

  /** The import walk from `path` for the project rooted at `root`, with
      `visited` the documents already loaded. It stops at the first document
      that has a PropertyGroup; a group it finds is one of the tree's, and a
      document it reports missing is absent from the tree. */
  function Resolve(repo: Repository, root: string, path: string, visited: set<string>): (r: Lookup)
    ensures r.Found? ==> exists q :: q in repo && repo[q].propertyGroup == Some(r.group)
    ensures r.LookupFailed? && r.error.MissingDocument? ==> r.error.path !in repo
    decreases repo.Keys - visited
  {
    if path !in repo then LookupFailed(MissingDocument(path))
    else if path in visited then LookupFailed(ImportCycle(path))
    else
      var doc := repo[path];
      if doc.propertyGroup.Some? then Found(doc.propertyGroup.value)
      else if doc.importElement.None? then NoGroup
      else if doc.importElement.value.project.None? then LookupFailed(NullImportPath)
      else if doc.importElement.value.project.value == "" then NoGroup
      else Resolve(repo, root, CombinePath(root, doc.importElement.value.project.value), visited + {path})
  }

  /** The classification of the project rooted at `root` whose first root
      props file is `propsFile`: OOB, in-band, or the error that aborts the
      run. In-band needs a PropertyGroup of the tree that says so; a missing
      document is reported only when it is absent. */
  function Classification(repo: Repository, root: string, propsFile: string): (r: Result<bool, Error>)
    ensures r == Success(false) ==>
      exists q :: q in repo && repo[q].propertyGroup.Some? && !Classify(repo[q].propertyGroup.value)
    ensures r.Failure? && r.error.MissingDocument? ==> r.error.path !in repo
  {
    match Resolve(repo, root, propsFile, {})
    case Found(g) => Success(Classify(g))
    case NoGroup => Success(true)
    case LookupFailed(e) => Failure(e)
  }

  /** What the first document alone decides: its own PropertyGroup whatever
      it imports; OOB without an Import or with an empty path; an error on
      a missing Project attribute or a missing imported file. */
  lemma FirstDocument(repo: Repository, root: string, path: string)
    requires path in repo
    ensures var doc := repo[path];
      && (doc.propertyGroup.Some? ==> Classification(repo, root, path) == Success(Classify(doc.propertyGroup.value)))
      && (doc.propertyGroup.None? && doc.importElement.None? ==> Classification(repo, root, path) == Success(true))
      && (doc.propertyGroup.None? && doc.importElement == Some(Import(None)) ==> Classification(repo, root, path) == Failure(NullImportPath))
      && (doc.propertyGroup.None? && doc.importElement == Some(Import(Some(""))) ==> Classification(repo, root, path) == Success(true))
      && (doc.propertyGroup.None? && doc.importElement.Some? && doc.importElement.value.project.Some? &&
          doc.importElement.value.project.value != "" && CombinePath(root, doc.importElement.value.project.value) !in repo ==>
            Classification(repo, root, path) == Failure(MissingDocument(CombinePath(root, doc.importElement.value.project.value))))
  {
    var doc := repo[path];
    if doc.propertyGroup.None? && doc.importElement.Some? && doc.importElement.value.project.Some? {
      var target := CombinePath(root, doc.importElement.value.project.value);
      if doc.importElement.value.project.value != "" && target !in repo {
        assert Resolve(repo, root, path, {}) == Resolve(repo, root, target, {path});
      }
    }
  }

  /** The documents already loaded matter only for detecting a cycle: any
      walk that does not end in a cycle ends the same way from fewer
      visited documents. */
  lemma {:induction false} ResolveIgnoresVisited(repo: Repository, root: string, path: string, small: set<string>, large: set<string>)
    requires small <= large
    requires !Resolve(repo, root, path, large).LookupFailed? || !Resolve(repo, root, path, large).error.ImportCycle?
    ensures Resolve(repo, root, path, small) == Resolve(repo, root, path, large)
    decreases repo.Keys - small
  {
    if path in repo && path !in large {
      var doc := repo[path];
      if doc.propertyGroup.None? && doc.importElement.Some? && doc.importElement.value.project.Some? && doc.importElement.value.project.value != "" {
        ResolveIgnoresVisited(repo, root, CombinePath(root, doc.importElement.value.project.value), small + {path}, large + {path});
      }
    }
  }

  /** A props file without a PropertyGroup classifies exactly as the file it
      imports, resolved against the same project root: the walk is
      transparent to documents that only import. */
  lemma ImportIsTransparent(repo: Repository, root: string, path: string, target: string)
    requires path in repo && repo[path].propertyGroup.None?
    requires repo[path].importElement == Some(Import(Some(target))) && target != ""
    requires !Classification(repo, root, path).Failure? || !Classification(repo, root, path).error.ImportCycle?
    ensures Classification(repo, root, path) == Classification(repo, root, CombinePath(root, target))
  {
    var none: set<string> := {};
    assert none + {path} == {path};
    assert Resolve(repo, root, path, none) == Resolve(repo, root, CombinePath(root, target), {path});
    ResolveIgnoresVisited(repo, root, CombinePath(root, target), {}, {path});
  }

  /** The same relative Import names different documents under different
      project roots, and each project is classified by its own. */
  lemma ImportsFollowTheProjectRoot(a: PropertyGroup, b: PropertyGroup)
    requires Classify(a) != Classify(b)
    ensures var importing := Document(None, Some(Import(Some("c"))));
      var repo := map["A/d" := importing, "B/d" := importing,
                      "A/c" := Document(Some(a), None),
                      "B/c" := Document(Some(b), None)];
      && Classification(repo, "A", "A/d") == Success(Classify(a))
      && Classification(repo, "B", "B/d") == Success(Classify(b))
      && Classification(repo, "A", "A/d") != Classification(repo, "B", "B/d")
  {
    var importing := Document(None, Some(Import(Some("c"))));
    var repo := map["A/d" := importing, "B/d" := importing,
                    "A/c" := Document(Some(a), None),
                    "B/c" := Document(Some(b), None)];
    assert CombinePath("A", "c") == "A/c";
    assert CombinePath("B", "c") == "B/c";
    assert Resolve(repo, "A", "A/d", {}) == Resolve(repo, "A", "A/c", {"A/d"});
    assert Resolve(repo, "B", "B/d", {}) == Resolve(repo, "B", "B/c", {"B/d"});
  }
}
