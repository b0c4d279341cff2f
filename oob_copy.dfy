/** The OOB stage of a run: every package project under `src` that is not a
    native or private package and classifies as out of band has its
    assembly copied, overwriting, from the reference folder into the output
    directory, when the reference folder holds it. */
module OobCopy {
  import opened Common
  import opened Classifier

  /** A `.pkgproj` file found under `src`: its full path, its file name
      without extension, its project root (two directory levels up), and
      the `dir*.props` files at the top of that root, in listing order. */
  datatype PkgProj = PkgProj(path: string, name: string, root: string, rootProps: seq<string>)

  /** Native and private packages are skipped before classification. */
  predicate Excluded(path: string)
  {
    Contains(path, "Native") || Contains(path, "Private")
  }

  /** What classification needs of a project: a `dir*.props` file at its
      root (the source takes the first one of the listing). */
  predicate Classifiable(p: PkgProj, repo: Repository)
  {
    |p.rootProps| > 0 && p.rootProps[0] in repo
  }

  /** Every project the stage classifies can be classified. */
  predicate Listable(ps: seq<PkgProj>, repo: Repository)
  {
    forall p :: p in ps && !Excluded(p.path) ==> Classifiable(p, repo)
  }

  /** No classification in `ps` aborts the run. */
  predicate ClassifiesCleanly(ps: seq<PkgProj>, repo: Repository)
    requires Listable(ps, repo)
  {
    forall p :: p in ps && !Excluded(p.path) ==> Classification(repo, p.root, p.rootProps[0]).Success?
  }

  /** One project's turn in the stage, given the state before it: skipped
      after an error or by path; classified otherwise, and its assembly
      copied when it is OOB. An earlier error stays, and a turn fails
      exactly when it classifies a project that does not classify. */
  function OobStep(prior: Staged, p: PkgProj, repo: Repository, refs: Directory): (r: Staged)
    requires !Excluded(p.path) ==> Classifiable(p, repo)
    ensures prior.error.Some? ==> r == prior
    ensures r.error.None? <==> prior.error.None? && (Excluded(p.path) || Classification(repo, p.root, p.rootProps[0]).Success?)
  {
    if prior.error.Some? || Excluded(p.path) then prior
    else match Classification(repo, p.root, p.rootProps[0])
      case Failure(e) => Staged(prior.files, Some(e))
      case Success(oob) =>
        if oob then Staged(CopyIfPresent(prior.files, refs, DllName(p.name)), None) else prior
  }

  /** The stage over the listing `ps`, one project after another; the first
      classification that fails stops it with the copies made so far. It
      never removes a file, and every entry it changes or adds is the
      reference folder's copy. */
  function OobStage(files: Directory, ps: seq<PkgProj>, repo: Repository, refs: Directory): (r: Staged)
    requires Listable(ps, repo)
    ensures forall n :: n in files ==> n in r.files
    ensures forall n :: n in r.files ==> (n in files && r.files[n] == files[n]) || (n in refs && r.files[n] == refs[n])
    decreases |ps|
  {
    if ps == [] then Staged(files, None)
    else OobStep(OobStage(files, ps[..|ps| - 1], repo, refs), ps[|ps| - 1], repo, refs)
  }

  lemma ListablePrefix(ps: seq<PkgProj>, k: nat, repo: Repository)
    requires Listable(ps, repo) && k <= |ps|
    ensures Listable(ps[..k], repo)
  {
    assert forall q :: q in ps[..k] ==> q in ps;
  }

  lemma OobStageSnoc(files: Directory, ps: seq<PkgProj>, p: PkgProj, repo: Repository, refs: Directory)
    requires Listable(ps + [p], repo)
    ensures Listable(ps, repo)
    ensures OobStage(files, ps + [p], repo, refs) == OobStep(OobStage(files, ps, repo, refs), p, repo, refs)
  {
    assert (ps + [p])[..|ps|] == ps;
  }

  /** The assembly names of the projects of `ps` that the stage copies when
      the reference folder holds them. */
  function OobNames(ps: seq<PkgProj>, repo: Repository): set<string>
    requires Listable(ps, repo)
  {
    set p | p in ps && !Excluded(p.path) && Classification(repo, p.root, p.rootProps[0]) == Success(true) :: DllName(p.name)
  }

  lemma OobNamesSnoc(ps: seq<PkgProj>, p: PkgProj, repo: Repository)
    requires Listable(ps + [p], repo)
    ensures Listable(ps, repo)
    ensures OobNames(ps + [p], repo) ==
      if !Excluded(p.path) && Classification(repo, p.root, p.rootProps[0]) == Success(true)
      then OobNames(ps, repo) + {DllName(p.name)} else OobNames(ps, repo)
  {
    assert forall q :: q in ps + [p] <==> q in ps || q == p;
  }

  /** An error-free stage leaves the output directory as it was, except that
      every OOB assembly the reference folder holds is now the reference
      folder's copy. */
  lemma {:induction false} OobStageContents(files: Directory, ps: seq<PkgProj>, repo: Repository, refs: Directory)
    requires Listable(ps, repo) && ClassifiesCleanly(ps, repo)
    ensures OobStage(files, ps, repo, refs) == Staged(files + Restrict(refs, OobNames(ps, repo)), None)
    decreases |ps|
  {
    if ps == [] {
      assert Restrict(refs, OobNames(ps, repo)) == map[];
      assert files + map[] == files;
    } else {
      var init, p := ps[..|ps| - 1], ps[|ps| - 1];
      assert ps == init + [p];
      OobStageSnoc(files, init, p, repo, refs);
      OobNamesSnoc(init, p, repo);
      assert ClassifiesCleanly(init, repo) by {
        assert forall q :: q in init ==> q in ps;
      }
      OobStageContents(files, init, repo, refs);
      if !Excluded(p.path) && Classification(repo, p.root, p.rootProps[0]) == Success(true) {
        CopyOneMore(files, refs, OobNames(init, repo), DllName(p.name));
      }
    }
  }

  /** The first failing classification ends the stage: projects listed
      after it are never looked at. */
  lemma {:induction false} OobStageStopsAtError(files: Directory, ps: seq<PkgProj>, k: nat, repo: Repository, refs: Directory)
    requires Listable(ps, repo) && k <= |ps|
    requires Listable(ps[..k], repo) && OobStage(files, ps[..k], repo, refs).error.Some?
    ensures OobStage(files, ps, repo, refs) == OobStage(files, ps[..k], repo, refs)
    decreases |ps|
  {
    if k < |ps| {
      var init, p := ps[..|ps| - 1], ps[|ps| - 1];
      assert ps == init + [p];
      OobStageSnoc(files, init, p, repo, refs);
      assert init[..k] == ps[..k];
      OobStageStopsAtError(files, init, k, repo, refs);
    } else {
      assert ps[..k] == ps;
    }
  }

  /** Per assembly name: an OOB assembly present in the reference folder ends
      up as the reference folder's copy; every other name keeps its old
      entry, or stays absent. */
  lemma OobCopyEffect(files: Directory, ps: seq<PkgProj>, repo: Repository, refs: Directory, n: string)
    requires Listable(ps, repo) && ClassifiesCleanly(ps, repo)
    ensures var out := OobStage(files, ps, repo, refs).files;
      && (n in OobNames(ps, repo) && n in refs ==> n in out && out[n] == refs[n])
      && (n !in OobNames(ps, repo) || n !in refs ==> (n in out <==> n in files) && (n in files ==> out[n] == files[n]))
  {
    OobStageContents(files, ps, repo, refs);
  }

  /** A native or private package never causes a copy, whatever its
      classification, and an in-band project never changes the output
      directory: appending either to the listing changes nothing. */
  lemma SkippedProjectChangesNothing(files: Directory, ps: seq<PkgProj>, p: PkgProj, repo: Repository, refs: Directory)
    requires Listable(ps + [p], repo)
    requires Excluded(p.path) || Classification(repo, p.root, p.rootProps[0]) == Success(false)
    ensures Listable(ps, repo)
    ensures OobStage(files, ps + [p], repo, refs) == OobStage(files, ps, repo, refs)
  {
    OobStageSnoc(files, ps, p, repo, refs);
  }

  /** The projects the stage can act on: neither skipped by path nor in-band
      (so OOB, or failing to classify). */
  predicate Acts(p: PkgProj, repo: Repository)
    requires !Excluded(p.path) ==> Classifiable(p, repo)
  {
    !Excluded(p.path) && Classification(repo, p.root, p.rootProps[0]) != Success(false)
  }

  /** The projects of `ps` that act, in listing order. */
  function Acting(ps: seq<PkgProj>, repo: Repository): (r: seq<PkgProj>)
    requires Listable(ps, repo)
    ensures forall q :: q in r ==> q in ps && !Excluded(q.path)
    decreases |ps|
  {
    if ps == [] then []
    else
      var init, p := ps[..|ps| - 1], ps[|ps| - 1];
      assert forall q :: q in init ==> q in ps;
      if Acts(p, repo) then Acting(init, repo) + [p] else Acting(init, repo)
  }

  /** The stage over the whole listing equals the stage over its acting
      projects alone: neither the path filter's victims nor in-band projects
      contribute, in any position. */
  lemma {:induction false} OnlyActingProjectsMatter(files: Directory, ps: seq<PkgProj>, repo: Repository, refs: Directory)
    requires Listable(ps, repo)
    ensures Listable(Acting(ps, repo), repo)
    ensures OobStage(files, ps, repo, refs) == OobStage(files, Acting(ps, repo), repo, refs)
    decreases |ps|
  {
    if ps != [] {
      var init, p := ps[..|ps| - 1], ps[|ps| - 1];
      assert ps == init + [p];
      OobStageSnoc(files, init, p, repo, refs);
      OnlyActingProjectsMatter(files, init, repo, refs);
      var acting := Acting(init, repo);
      if Acts(p, repo) {
        assert Acting(ps, repo) == acting + [p];
        OobStageSnoc(files, acting, p, repo, refs);
      } else {
        assert Acting(ps, repo) == acting;
      }
    }
  }

  /** The stage ends without an error exactly when every project it
      classifies classifies. */
  lemma {:induction false} OobStageErrorFree(files: Directory, ps: seq<PkgProj>, repo: Repository, refs: Directory)
    requires Listable(ps, repo)
    ensures OobStage(files, ps, repo, refs).error.None? <==> ClassifiesCleanly(ps, repo)
    decreases |ps|
  {
    if ps != [] {
      var init, p := ps[..|ps| - 1], ps[|ps| - 1];
      assert ps == init + [p];
      OobStageSnoc(files, init, p, repo, refs);
      OobStageErrorFree(files, init, repo, refs);
      assert forall q :: q in ps <==> q in init || q == p;
    }
  }

  /** The first project whose classification fails aborts the stage with
      that error: the copies made for the projects before it remain, and
      no project after it is looked at. */
  lemma OobStageFirstFailure(files: Directory, ps: seq<PkgProj>, k: nat, repo: Repository, refs: Directory, e: Error)
    requires Listable(ps, repo) && k < |ps|
    requires !Excluded(ps[k].path) && Classification(repo, ps[k].root, ps[k].rootProps[0]) == Failure(e)
    requires Listable(ps[..k], repo) && ClassifiesCleanly(ps[..k], repo)
    ensures OobStage(files, ps, repo, refs) == Staged(files + Restrict(refs, OobNames(ps[..k], repo)), Some(e))
  {
    ListablePrefix(ps, k + 1, repo);
    assert ps[..k + 1] == ps[..k] + [ps[k]];
    OobStageSnoc(files, ps[..k], ps[k], repo, refs);
    OobStageContents(files, ps[..k], repo, refs);
    OobStageStopsAtError(files, ps, k + 1, repo, refs);
  }

  /** The stage only overrides: from any directory it ends as that directory
      overridden by what it leaves in an empty one, with the same error. */
  lemma {:induction false} OobStageOverrides(files: Directory, ps: seq<PkgProj>, repo: Repository, refs: Directory)
    requires Listable(ps, repo)
    ensures var onEmpty := OobStage(map[], ps, repo, refs);
      OobStage(files, ps, repo, refs) == Staged(files + onEmpty.files, onEmpty.error)
    decreases |ps|
  {
    if ps == [] {
      assert files + map[] == files;
    } else {
      var init, p := ps[..|ps| - 1], ps[|ps| - 1];
      assert ps == init + [p];
      OobStageSnoc(files, init, p, repo, refs);
      OobStageSnoc(map[], init, p, repo, refs);
      OobStageOverrides(files, init, repo, refs);
      CopyAfterOverride(files, OobStage(map[], init, repo, refs).files, refs, DllName(p.name));
    }
  }

  /** Running the stage a second time over its own output gives back the
      same directory and the same outcome, whether or not a classification
      failed: it overwrites with the same reference copies and stops at the
      same project. */
  lemma OobStageIdempotent(files: Directory, ps: seq<PkgProj>, repo: Repository, refs: Directory)
    requires Listable(ps, repo)
    ensures var first := OobStage(files, ps, repo, refs);
      OobStage(first.files, ps, repo, refs) == first
  {
    var onEmpty := OobStage(map[], ps, repo, refs);
    var once := OobStage(files, ps, repo, refs).files;
    OobStageOverrides(files, ps, repo, refs);
    OobStageOverrides(once, ps, repo, refs);
    assert (files + onEmpty.files) + onEmpty.files == files + onEmpty.files;
  }

  /** The stage stops with an error only when some project it classifies
      fails to classify. */
  lemma {:induction false} OobStageFailsOnlyOnClassification(files: Directory, ps: seq<PkgProj>, repo: Repository, refs: Directory)
    requires Listable(ps, repo)
    requires OobStage(files, ps, repo, refs).error.Some?
    ensures exists p :: (p in ps && !Excluded(p.path) &&
      Classification(repo, p.root, p.rootProps[0]) == Failure(OobStage(files, ps, repo, refs).error.value))
    decreases |ps|
  {
    var init, p := ps[..|ps| - 1], ps[|ps| - 1];
    assert ps == init + [p];
    OobStageSnoc(files, init, p, repo, refs);
    if OobStage(files, init, repo, refs).error.Some? {
      OobStageFailsOnlyOnClassification(files, init, repo, refs);
      assert forall q :: q in init ==> q in ps;
    } else {
      assert p in ps;
    }
  }
}
