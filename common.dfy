/** Values shared by the two stages of the layout generator: optional values,
    results, the errors that abort a run, directories as maps, and the few
    string tests the generator applies to file names and paths. */
module Common {

  datatype Option<+T> = None | Some(value: T)

  datatype Result<+T, +E> = Success(value: T) | Failure(error: E)

  /** The bytes of one file. */
  type Content = seq<bv8>

  /** The files of one directory, keyed by file name. */
  type Directory = map<string, Content>

  /** Everything that aborts a run of the generator. */
  datatype Error =
      /** A props file named by an Import does not exist, so loading it throws. */
    | MissingDocument(path: string)
      /** An Import element carries no Project attribute: reading the
          missing attribute's value throws. */
    | NullImportPath
      /** The import walk came back to `path`: the source's loop never
          terminates on such a repository; the model reports it instead. */
    | ImportCycle(path: string)
      /** The package manager exited with a non-zero code. */
    | PublishFailed(exitCode: int)

  /** The state a stage leaves behind: the output directory as far as the
      stage got, and the error that stopped it, if any. */
  datatype Staged = Staged(files: Directory, error: Option<Error>)

  predicate EndsWith(s: string, suffix: string)
  {
    |suffix| <= |s| && s[|s| - |suffix|..] == suffix
  }

  /** `sub` occurs in `s` at index `i`. */
  predicate OccursAt(s: string, sub: string, i: int)
  {
    0 <= i && i + |sub| <= |s| && s[i..i + |sub|] == sub
  }

  /** Ordinal substring test, as string.Contains. */
  predicate Contains(s: string, sub: string)
  {
    exists i | 0 <= i <= |s| - |sub| :: OccursAt(s, sub, i)
  }

  /** Path.Combine(root, rel) with `/` as the directory separator: a rooted
      `rel` stands alone; otherwise it is joined to `root`, adding a
      separator only when `root` does not already end with one. */
  function CombinePath(root: string, rel: string): string
  {
    if |rel| > 0 && rel[0] == '/' then rel
    else if root == "" then rel
    else if root[|root| - 1] == '/' then root + rel
    else root + "/" + rel
  }

  const DllExtension: string := ".dll"

  /** The file name of the assembly built from a project or package `baseName`. */
  function DllName(baseName: string): string
  {
    baseName + DllExtension
  }

  /** The file names a `*.dll` listing matches. */
  predicate IsDll(fileName: string)
  {
    EndsWith(fileName, DllExtension)
  }

  /** File.Copy(from/name, to/name, overwrite: true) guarded by File.Exists(from/name). */
  function CopyIfPresent(files: Directory, from: Directory, name: string): (r: Directory)
    ensures r.Keys == if name in from then files.Keys + {name} else files.Keys
    ensures forall n :: n in r ==> r[n] == if n == name && name in from then from[name] else files[n]
  {
    if name in from then files[name := from[name]] else files
  }

  /** The entries of `from` whose names are in `names`. */
  function Restrict(from: Directory, names: set<string>): (r: Directory)
    ensures r.Keys == from.Keys * names
    ensures forall n :: n in r ==> r[n] == from[n]
  {
    map n | n in from && n in names :: from[n]
  }

  /** A guarded copy commutes with overriding by what was there before. */
  lemma CopyAfterOverride(files: Directory, copied: Directory, from: Directory, name: string)
    ensures files + CopyIfPresent(copied, from, name) == CopyIfPresent(files + copied, from, name)
  {
    if name in from {
      assert files + copied[name := from[name]] == (files + copied)[name := from[name]];
    }
  }

  /** Copying one more reference entry is restricting to one more name. */
  lemma CopyOneMore(files: Directory, refs: Directory, names: set<string>, n: string)
    ensures files + Restrict(refs, names + {n}) == CopyIfPresent(files + Restrict(refs, names), refs, n)
  {
    var before := Restrict(refs, names);
    if n in refs {
      assert Restrict(refs, names + {n}) == before[n := refs[n]];
      assert files + before[n := refs[n]] == (files + before)[n := refs[n]];
    } else {
      assert Restrict(refs, names + {n}) == before;
    }
  }
}
