/** Which scripts a run executes: every unrecorded file of the release once, in order, and nothing else. */
module MigrationScripts {
  import opened Common
  import opened Strings
  import opened Migrations
  import opened MigrationProofs

  /** The files of the release that the history does not name, in release order. */
  function Pending(history: set<string>, files: seq<File>): seq<File> {
    if files == [] then []
    else
      var before, f := Pending(history, files[..|files| - 1]), files[|files| - 1];
      if f.name in history then before else before + [f]
  }

  function Contents(files: seq<File>): seq<string> {
    seq(|files|, i requires 0 <= i < |files| => files[i].contents)
  }

  function NamesOf(files: seq<File>): set<string> {
    set f | f in files :: f.name
  }

  /** Pending says what it should: exactly the unrecorded files, each at its place. */
  lemma {:induction false} PendingIsTheRest(history: set<string>, files: seq<File>)
    ensures forall f :: f in Pending(history, files) <==> f in files && f.name !in history
    ensures DistinctNames(files) ==> DistinctNames(Pending(history, files))
  {
    if files != [] {
      var n := |files| - 1;
      PendingIsTheRest(history, files[..n]);
      assert files == files[..n] + [files[n]];
      var before := Pending(history, files[..n]);
      if DistinctNames(files) && files[n].name !in history {
        forall i | 0 <= i < |before| ensures before[i].name != files[n].name {
          assert before[i] in files[..n];
          var j :| 0 <= j < n && files[j] == before[i];
        }
      }
    }
  }

  lemma {:induction false} SealRunsNothing(db: Db, files: seq<File>, digest: Digest)
    ensures SealAll(db, files, digest).schema == db.schema
    ensures SealAll(db, files, digest).history.Keys == db.history.Keys
  {
    if files != [] {
      SealRunsNothing(db, files[..|files| - 1], digest);
    }
  }

  lemma OneMore(rest: seq<File>, f: File)
    ensures Contents(rest + [f]) == Contents(rest) + [f.contents]
    ensures NamesOf(rest + [f]) == NamesOf(rest) + {f.name}
  {
  }

  lemma EarlierNamesDiffer(history: set<string>, files: seq<File>)
    requires files != [] && DistinctNames(files)
    ensures files[|files| - 1].name !in NamesOf(Pending(history, files[..|files| - 1]))
  {
    var n := |files| - 1;
    PendingIsTheRest(history, files[..n]);
    forall g | g in Pending(history, files[..n]) ensures g.name != files[n].name {
      var j :| 0 <= j < n && files[j] == g;
    }
  }

  lemma {:induction false} ApplyRunsPending(db: Db, files: seq<File>, digest: Digest)
    requires DistinctNames(files)
    ensures var rest := Pending(db.history.Keys, files);
            && ApplyAll(db, files, digest).schema == db.schema + Contents(rest)
            && ApplyAll(db, files, digest).history.Keys == db.history.Keys + NamesOf(rest)
  {
    hide Contents, NamesOf, DistinctNames;
    if files != [] {
      var before, f := files[..|files| - 1], files[|files| - 1];
      PrefixDistinct(files);
      ApplyRunsPending(db, before, digest);
      EarlierNamesDiffer(db.history.Keys, files);
      OneMore(Pending(db.history.Keys, before), f);
    } else {
      Nothing();
    }
  }

  lemma Nothing()
    ensures Contents([]) == [] && NamesOf([]) == {}
  {
  }

  lemma PrefixDistinct(files: seq<File>)
    requires files != [] && DistinctNames(files)
    ensures DistinctNames(files[..|files| - 1])
  {
  }

  lemma {:induction false} PendingOfPrefix(history: set<string>, files: seq<File>, k: nat)
    requires k <= |files|
    ensures Pending(history, files[..k]) <= Pending(history, files)
  {
    if k < |files| {
      PendingOfPrefix(history, files[..|files| - 1], k);
      assert files[..|files| - 1][..k] == files[..k];
    } else {
      assert files[..k] == files;
    }
  }

  /**
   Wherever a run of the release stops, it has executed the first k of the unrecorded scripts, in order, and recorded
   exactly those k names; a finished run has executed and recorded all of them.
   */
  lemma RunExecutesPendingInOrder(db: Db, files: seq<File>, digest: Digest, stop: nat) returns (k: nat)
    requires DistinctNames(files)
    ensures var rest, after := Pending(db.history.Keys, files), RunUntil(db, files, digest, stop);
            && k <= |rest|
            && after.schema == db.schema + Contents(rest[..k])
            && after.history.Keys == db.history.Keys + NamesOf(rest[..k])
            && (Finishes(files, stop) ==> k == |rest|)
  {
    hide Contents, NamesOf, Pending;
    var rest := Pending(db.history.Keys, files);
    assert rest != [] ==> rest[0] in rest;
    if stop <= |files| {
      SealRunsNothing(db, files[..stop], digest);
      Nothing();
      PendingIsTheRest(db.history.Keys, files);
      if Finishes(files, stop) {
        assert files == [];
      }
      return 0;
    }
    var done := files[..if stop - |files| < |files| then stop - |files| else |files|];
    var sealed := SealAll(db, files, digest);
    SealRunsNothing(db, files, digest);
    ApplyRunsPending(sealed, done, digest);
    PendingOfPrefix(db.history.Keys, files, |done|);
    var first := Pending(db.history.Keys, done);
    k := |first|;
    assert rest[..k] == first;
    if Finishes(files, stop) {
      assert done == files;
    }
  }

  /** The same for an uninterrupted run. */
  lemma CompleteExecutesAllPending(db: Db, files: seq<File>, digest: Digest)
    requires DistinctNames(files)
    ensures Complete(db, files, digest).schema == db.schema + Contents(Pending(db.history.Keys, files))
    ensures Complete(db, files, digest).history.Keys == db.history.Keys + NamesOf(files)
  {
    SealRunsNothing(db, files, digest);
    ApplyRunsPending(SealAll(db, files, digest), files, digest);
    PendingIsTheRest(db.history.Keys, files);
    var rest := Pending(db.history.Keys, files);
    forall n | n in db.history.Keys + NamesOf(files) ensures n in db.history.Keys + NamesOf(rest) {
      if n !in db.history {
        var f :| f in files && f.name == n;
        assert f in rest;
      }
    }
  }

  lemma {:induction false} ApplyCounts(db: Db, files: seq<File>, digest: Digest)
    requires |db.schema| == |db.history|
    ensures |ApplyAll(db, files, digest).schema| == |ApplyAll(db, files, digest).history|
  {
    if files != [] {
      var n := |files| - 1;
      ApplyCounts(db, files[..n], digest);
      var before, f := ApplyAll(db, files[..n], digest), files[n];
      if f.name !in before.history {
        assert before.history[f.name := Some(digest(f.contents))].Keys == before.history.Keys + {f.name};
      }
    }
  }

  /** Over any runs of any releases from the empty database, no recorded script was skipped and none executed twice. */
  lemma {:induction false} OneExecutionPerRecord(dbs: seq<Db>, attempts: seq<Attempt>, digest: Digest, i: nat)
    requires IsHistory(dbs, attempts, digest) && dbs[0] == Db(map[], []) && i < |dbs|
    ensures |dbs[i].schema| == |dbs[i].history|
  {
    if i > 0 {
      OneExecutionPerRecord(dbs, attempts, digest, i - 1);
      var db, files, stop := dbs[i - 1], attempts[i - 1].files, attempts[i - 1].stop;
      if Accepts(db, files, digest) {
        if stop <= |files| {
          SealCounts(db, files[..stop], digest);
        } else {
          SealCounts(db, files, digest);
          var k := if stop - |files| < |files| then stop - |files| else |files|;
          ApplyCounts(SealAll(db, files, digest), files[..k], digest);
        }
      }
    }
  }

  lemma SealCounts(db: Db, files: seq<File>, digest: Digest)
    requires |db.schema| == |db.history|
    ensures |SealAll(db, files, digest).schema| == |SealAll(db, files, digest).history|
  {
    SealRunsNothing(db, files, digest);
    SameSize(db.history, SealAll(db, files, digest).history);
  }

  lemma SameSize(a: History, b: History)
    requires a.Keys == b.Keys
    ensures |a| == |b|
  {
    assert |a.Keys| == |a| && |b.Keys| == |b|;
  }
}
