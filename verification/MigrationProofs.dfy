/** Crash resume, and what a sequence of runs says about the releases. */
module MigrationProofs {
  import opened Common
  import opened Strings
  import opened Migrations

  lemma {:induction false} ApplySplit(db: Db, xs: seq<File>, ys: seq<File>, digest: Digest)
    ensures ApplyAll(db, xs + ys, digest) == ApplyAll(ApplyAll(db, xs, digest), ys, digest)
  {
    if ys == [] {
      assert xs + ys == xs;
    } else {
      ApplySplit(db, xs, ys[..|ys| - 1], digest);
      assert (xs + ys)[..|xs + ys| - 1] == xs + ys[..|ys| - 1];
    }
  }

  lemma {:induction false} SealSplit(db: Db, xs: seq<File>, ys: seq<File>, digest: Digest)
    ensures SealAll(db, xs + ys, digest) == SealAll(SealAll(db, xs, digest), ys, digest)
  {
    if ys == [] {
      assert xs + ys == xs;
    } else {
      SealSplit(db, xs, ys[..|ys| - 1], digest);
      assert (xs + ys)[..|xs + ys| - 1] == xs + ys[..|ys| - 1];
    }
  }

  predicate NoneUnsealed(db: Db, files: seq<File>) {
    forall f | f in files && f.name in db.history :: db.history[f.name].Some?
  }

  /** What any run, finished or not, keeps of the history: rows and checksums are never lost or changed. */
  predicate Extends(db: Db, db': Db) {
    && (forall n | n in db.history :: n in db'.history && (db.history[n].Some? ==> db'.history[n] == db.history[n]))
    && db.schema <= db'.schema
  }

  lemma {:induction false} SealAllEffect(db: Db, files: seq<File>, digest: Digest)
    ensures var db' := SealAll(db, files, digest);
            Extends(db, db') && db'.history.Keys == db.history.Keys && db'.schema == db.schema
                && NoneUnsealed(db', files)
  {
    if files != [] {
      SealAllEffect(db, files[..|files| - 1], digest);
    }
  }

  lemma {:induction false} ApplyAllEffect(db: Db, files: seq<File>, digest: Digest)
    ensures var db' := ApplyAll(db, files, digest);
            && Extends(db, db')
            && (forall f | f in files :: f.name in db'.history)
            && (forall f | f in files && f.name !in db.history :: db'.history[f.name].Some?)
            && (forall n | n in db'.history && n !in db.history :: db'.history[n].Some?)
  {
    if files != [] {
      ApplyAllEffect(db, files[..|files| - 1], digest);
    }
  }

  lemma {:induction false} ApplyNothing(db: Db, files: seq<File>, digest: Digest)
    requires forall f | f in files :: f.name in db.history
    ensures ApplyAll(db, files, digest) == db
  {
    if files != [] {
      ApplyNothing(db, files[..|files| - 1], digest);
    }
  }

  lemma {:induction false} SealNothing(db: Db, files: seq<File>, digest: Digest)
    requires NoneUnsealed(db, files)
    ensures SealAll(db, files, digest) == db
  {
    if files != [] {
      SealNothing(db, files[..|files| - 1], digest);
    }
  }

  lemma ApplyResumes(db: Db, files: seq<File>, digest: Digest, k: nat)
    requires k <= |files|
    ensures ApplyAll(ApplyAll(db, files[..k], digest), files, digest) == ApplyAll(db, files, digest)
  {
    var part := ApplyAll(db, files[..k], digest);
    assert files == files[..k] + files[k..];
    ApplySplit(part, files[..k], files[k..], digest);
    ApplySplit(db, files[..k], files[k..], digest);
    ApplyAllEffect(db, files[..k], digest);
    ApplyNothing(part, files[..k], digest);
  }

  lemma SealResumes(db: Db, files: seq<File>, digest: Digest, k: nat)
    requires k <= |files|
    ensures SealAll(SealAll(db, files[..k], digest), files, digest) == SealAll(db, files, digest)
  {
    var part := SealAll(db, files[..k], digest);
    assert files == files[..k] + files[k..];
    SealSplit(part, files[..k], files[k..], digest);
    SealSplit(db, files[..k], files[k..], digest);
    SealAllEffect(db, files[..k], digest);
    SealNothing(part, files[..k], digest);
  }

  /** A partly applied release has no unsealed row left, so sealing again does nothing. */
  lemma PartlyAppliedIsSealed(db: Db, files: seq<File>, digest: Digest, k: nat)
    requires k <= |files|
    ensures NoneUnsealed(ApplyAll(SealAll(db, files, digest), files[..k], digest), files)
  {
    var sealed := SealAll(db, files, digest);
    SealAllEffect(db, files, digest);
    ApplyAllEffect(sealed, files[..k], digest);
  }

  /** Resume: wherever a run stops, running the same release again ends where one uninterrupted run would. */
  lemma ResumeReachesTheSameDatabase(db: Db, files: seq<File>, digest: Digest, stop: nat)
    ensures Complete(RunUntil(db, files, digest, stop), files, digest) == Complete(db, files, digest)
    ensures Finishes(files, stop) ==> RunUntil(db, files, digest, stop) == Complete(db, files, digest)
  {
    if stop <= |files| {
      SealResumes(db, files, digest, stop);
      assert files[..|files|] == files;
      if Finishes(files, stop) {
        assert files == [];
      }
    } else {
      var sealed := SealAll(db, files, digest);
      var k := if stop - |files| < |files| then stop - |files| else |files|;
      PartlyAppliedIsSealed(db, files, digest, k);
      SealNothing(ApplyAll(sealed, files[..k], digest), files, digest);
      ApplyResumes(sealed, files, digest, k);
      assert k == |files| ==> files[..k] == files;
    }
  }

  predicate DistinctNames(files: seq<File>) {
    forall i, j | 0 <= i < j < |files| :: files[i].name != files[j].name
  }

  /** What a directory loads has distinct names, because its versions increase. */
  lemma LoadedNamesAreDistinct(files: seq<File>)
    requires VersionsIncrease(files)
    ensures DistinctNames(files)
  {
    forall i, j | 0 <= i < j < |files| ensures files[i].name != files[j].name {
      BelowTotal(Version(files[i].name), Version(files[j].name));
    }
  }

  lemma {:induction false} SealKeepsAccepted(db: Db, files: seq<File>, digest: Digest, k: nat)
    requires Accepts(db, files, digest) && DistinctNames(files) && k <= |files|
    ensures Accepts(SealAll(db, files[..k], digest), files, digest)
  {
    if k > 0 {
      SealKeepsAccepted(db, files, digest, k - 1);
      assert files[..k][..k - 1] == files[..k - 1];
    }
  }

  lemma {:induction false} ApplyKeepsAccepted(db: Db, files: seq<File>, digest: Digest, k: nat)
    requires Accepts(db, files, digest) && DistinctNames(files) && k <= |files|
    ensures Accepts(ApplyAll(db, files[..k], digest), files, digest)
  {
    if k > 0 {
      ApplyKeepsAccepted(db, files, digest, k - 1);
      assert files[..k][..k - 1] == files[..k - 1];
    }
  }

  /** A release whose run was cut off anywhere is never refused when it is started again. */
  lemma CutOffReleaseIsStillAccepted(db: Db, files: seq<File>, digest: Digest, stop: nat)
    requires Accepts(db, files, digest) && DistinctNames(files)
    ensures Accepts(RunUntil(db, files, digest, stop), files, digest)
  {
    if stop <= |files| {
      SealKeepsAccepted(db, files, digest, stop);
    } else {
      SealKeepsAccepted(db, files, digest, |files|);
      assert files[..|files|] == files;
      ApplyKeepsAccepted(SealAll(db, files, digest), files, digest,
                         if stop - |files| < |files| then stop - |files| else |files|);
    }
  }

  lemma RunUntilExtends(db: Db, files: seq<File>, digest: Digest, stop: nat)
    ensures Extends(db, RunUntil(db, files, digest, stop))
  {
    if stop <= |files| {
      SealAllEffect(db, files[..stop], digest);
    } else {
      SealAllEffect(db, files, digest);
      ApplyAllEffect(SealAll(db, files, digest),
                     files[..if stop - |files| < |files| then stop - |files| else |files|], digest);
    }
  }

  /** The same release run any number of times, cut off anywhere each time. */
  function RunTimes(db: Db, files: seq<File>, digest: Digest, stops: seq<nat>): Db {
    if stops == [] then db
    else RunUntil(RunTimes(db, files, digest, stops[..|stops| - 1]), files, digest, stops[|stops| - 1])
  }

  /**
   However often a release is cut off, one finished run gives the uninterrupted result, and more runs change
   nothing.
   */
  lemma {:induction false} AnyNumberOfCrashes(db: Db, files: seq<File>, digest: Digest, stops: seq<nat>)
    ensures Complete(RunTimes(db, files, digest, stops), files, digest) == Complete(db, files, digest)
    ensures (exists i | 0 <= i < |stops| :: Finishes(files, stops[i])) ==>
              RunTimes(db, files, digest, stops) == Complete(db, files, digest)
  {
    if stops != [] {
      var n := |stops| - 1;
      var before := RunTimes(db, files, digest, stops[..n]);
      AnyNumberOfCrashes(db, files, digest, stops[..n]);
      ResumeReachesTheSameDatabase(before, files, digest, stops[n]);
      if !Finishes(files, stops[n]) && exists i | 0 <= i < |stops| :: Finishes(files, stops[i]) {
        var i :| 0 <= i < |stops| && Finishes(files, stops[i]);
        assert stops[..n][i] == stops[i];
        FinishedIsStable(db, files, digest, stops[n]);
      }
    }
  }

  lemma FinishedIsStable(db: Db, files: seq<File>, digest: Digest, stop: nat)
    ensures RunUntil(Complete(db, files, digest), files, digest, stop) == Complete(db, files, digest)
  {
    var done := Complete(db, files, digest);
    assert files[..|files|] == files;
    PartlyAppliedIsSealed(db, files, digest, |files|);
    ApplyAllEffect(SealAll(db, files, digest), files, digest);
    var head := if stop <= |files| then files[..stop]
                else files[..if stop - |files| < |files| then stop - |files| else |files|];
    assert forall f | f in head :: f in files;
    SealNothing(done, head, digest);
    SealNothing(done, files, digest);
    ApplyNothing(done, head, digest);
  }

  // ----- runs of different releases -----

  /** One start of the program: a release, and how far its run gets; a rejected release changes nothing. */
  datatype Attempt = Attempt(files: seq<File>, stop: nat)

  ghost predicate IsHistory(dbs: seq<Db>, attempts: seq<Attempt>, digest: Digest) {
    && |dbs| == |attempts| + 1
    && forall i | 0 <= i < |attempts| ::
         dbs[i + 1] == if Accepts(dbs[i], attempts[i].files, digest)
                       then RunUntil(dbs[i], attempts[i].files, digest, attempts[i].stop)
                       else dbs[i]
  }

  ghost predicate Succeeds(dbs: seq<Db>, attempts: seq<Attempt>, digest: Digest, i: nat)
    requires i < |attempts| <= |dbs|
  {
    Accepts(dbs[i], attempts[i].files, digest) && Finishes(attempts[i].files, attempts[i].stop)
  }

  ghost predicate Injective(digest: Digest) {
    forall a, b :: digest(a) == digest(b) ==> a == b
  }

  lemma {:induction false} HistoryExtends(dbs: seq<Db>, attempts: seq<Attempt>, digest: Digest, i: nat, j: nat)
    requires IsHistory(dbs, attempts, digest) && i <= j < |dbs|
    ensures Extends(dbs[i], dbs[j])
  {
    if i < j {
      HistoryExtends(dbs, attempts, digest, i, j - 1);
      RunUntilExtends(dbs[j - 1], attempts[j - 1].files, digest, attempts[j - 1].stop);
    }
  }

  lemma {:induction false} SealRecordsDigest(db: Db, files: seq<File>, digest: Digest, f: File)
    requires f in files && f.name in db.history
    requires forall g | g in files && g.name == f.name :: g == f
    requires db.history[f.name].Some? ==> db.history[f.name].value == digest(f.contents)
    ensures f.name in SealAll(db, files, digest).history
    ensures SealAll(db, files, digest).history[f.name] == Some(digest(f.contents))
  {
    var n := |files| - 1;
    SealAllEffect(db, files[..n], digest);
    assert files == files[..n] + [files[n]];
    if f in files[..n] {
      SealRecordsDigest(db, files[..n], digest, f);
    } else {
      SealSkips(db, files[..n], digest, f.name);
    }
  }

  lemma {:induction false} SealSkips(db: Db, files: seq<File>, digest: Digest, name: string)
    requires name in db.history && forall g | g in files :: g.name != name
    ensures name in SealAll(db, files, digest).history
    ensures SealAll(db, files, digest).history[name] == db.history[name]
  {
    if files != [] {
      SealSkips(db, files[..|files| - 1], digest, name);
    }
  }

  lemma {:induction false} ApplySkips(db: Db, files: seq<File>, digest: Digest, name: string)
    requires forall g | g in files :: g.name != name
    ensures name in ApplyAll(db, files, digest).history <==> name in db.history
  {
    if files != [] {
      ApplySkips(db, files[..|files| - 1], digest, name);
    }
  }

  lemma {:induction false} ApplyRecordsDigest(db: Db, files: seq<File>, digest: Digest, f: File)
    requires f in files && forall g | g in files && g.name == f.name :: g == f
    requires f.name in db.history ==> db.history[f.name] == Some(digest(f.contents))
    ensures f.name in ApplyAll(db, files, digest).history
    ensures ApplyAll(db, files, digest).history[f.name] == Some(digest(f.contents))
  {
    var n := |files| - 1;
    ApplyAllEffect(db, files[..n], digest);
    assert files == files[..n] + [files[n]];
    if f in files[..n] {
      ApplyRecordsDigest(db, files[..n], digest, f);
    } else {
      ApplySkips(db, files[..n], digest, f.name);
    }
  }

  /** A successful run leaves every file of the release recorded with its own checksum. */
  lemma SuccessRecordsRelease(db: Db, files: seq<File>, digest: Digest, f: File)
    requires Accepts(db, files, digest) && f in files && DistinctNames(files)
    ensures f.name in Complete(db, files, digest).history
    ensures Complete(db, files, digest).history[f.name] == Some(digest(f.contents))
  {
    var sealed := SealAll(db, files, digest);
    SealAllEffect(db, files, digest);
    if f.name in db.history {
      SealRecordsDigest(db, files, digest, f);
    }
    ApplyRecordsDigest(sealed, files, digest, f);
  }

  /**
   Releases only grow: with injective checksums, whatever release is accepted after a successful
   run contains every file of the earlier release, under the same name and with the same contents.
   */
  lemma ReleasesOnlyGrow(dbs: seq<Db>, attempts: seq<Attempt>, digest: Digest, i: nat, j: nat, f: File)
    requires IsHistory(dbs, attempts, digest) && i < j < |attempts| && Injective(digest)
    requires DistinctNames(attempts[i].files)
    requires Succeeds(dbs, attempts, digest, i) && Accepts(dbs[j], attempts[j].files, digest)
    requires f in attempts[i].files
    ensures f in attempts[j].files
  {
    ResumeReachesTheSameDatabase(dbs[i], attempts[i].files, digest, attempts[i].stop);
    SuccessRecordsRelease(dbs[i], attempts[i].files, digest, f);
    HistoryExtends(dbs, attempts, digest, i + 1, j);
    assert InRelease(attempts[j].files, f.name);
    var g :| g in attempts[j].files && g.name == f.name;
    assert digest(g.contents) == digest(f.contents);
  }
}
