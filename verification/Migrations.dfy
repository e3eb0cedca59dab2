/** The forward-only migration runner (internal/store/migrations.go). */
module Migrations {
  import opened Common
  import opened Strings

  datatype Entry = Entry(name: string, isDir: bool, contents: string)

  datatype File = File(name: string, contents: string)

  datatype LoadError = InvalidName(name: string) | DuplicateVersion(version: string)

  const SUFFIX: string := ".up.sql"

  predicate HasSuffix(name: string) {
    |name| >= |SUFFIX| && name[|name| - |SUFFIX|..] == SUFFIX
  }

  predicate WordChar(c: char) {
    'a' <= c <= 'z' || '0' <= c <= '9'
  }

  /** Six digits, then words joined by single underscores, then the suffix. */
  predicate ValidName(name: string) {
    && |name| > 7 + |SUFFIX|
    && HasSuffix(name)
    && (forall i | 0 <= i < 6 :: '0' <= name[i] <= '9')
    && name[6] == '_'
    && var last := |name| - |SUFFIX| - 1;
       && (forall i | 7 <= i <= last :: WordChar(name[i]) || (name[i] == '_' && WordChar(name[i - 1])))
       && WordChar(name[last])
  }

  function NameOf(f: File): string {
    f.name
  }

  function Version(name: string): string
    requires |name| >= 6
  {
    name[..6]
  }

  predicate IsForward(e: Entry) {
    !e.isDir && HasSuffix(e.name)
  }

  /** The migration files of a directory, in directory order. */
  function ForwardFiles(entries: seq<Entry>): (files: seq<File>)
    ensures forall f | f in files :: exists e | e in entries :: IsForward(e) && f == File(e.name, e.contents)
  {
    if entries == [] then []
    else
      var before, e := ForwardFiles(entries[..|entries| - 1]), entries[|entries| - 1];
      if IsForward(e) then before + [File(e.name, e.contents)] else before
  }

  predicate LongNames(files: seq<File>) {
    forall i | 0 <= i < |files| :: |files[i].name| >= 6
  }

  /** Strictly increasing six-digit versions: no two files share one. */
  predicate VersionsIncrease(files: seq<File>) {
    && LongNames(files)
    && forall i, j | 0 <= i < j < |files| :: Below(Version(files[i].name), Version(files[j].name))
  }

  predicate SameAsBefore(files: seq<File>, i: nat)
    requires LongNames(files) && 1 <= i < |files|
  {
    Version(files[i - 1].name) == Version(files[i].name)
  }

  /** No file below the n-th repeats the version of the file before it. */
  predicate NeighboursDiffer(files: seq<File>, n: nat)
    requires LongNames(files)
  {
    forall i | 1 <= i < n && i < |files| :: !SameAsBefore(files, i)
  }

  /** On sorted names, comparing neighbours is enough to tell all versions apart. */
  lemma {:induction false} NeighboursSuffice(files: seq<File>, n: nat)
    requires n <= |files| && SortedBy(files, NameOf) && LongNames(files) && NeighboursDiffer(files, n)
    ensures forall i, j | 0 <= i < j < n :: Below(Version(files[i].name), Version(files[j].name))
  {
    if n >= 2 {
      NeighboursSuffice(files, n - 1);
      assert !SameAsBefore(files, n - 1);
      var a, b := files[n - 2].name, files[n - 1].name;
      assert AtMost(NameOf(files[n - 2]), NameOf(files[n - 1]));
      BelowPrefix(a, b, 6);
      forall i | 0 <= i < n - 1 ensures Below(Version(files[i].name), Version(b)) {
        if i < n - 2 {
          BelowTransitive(Version(files[i].name), Version(a), Version(b));
        }
      }
    }
  }

  predicate AllValid(files: seq<File>) {
    forall f | f in files :: ValidName(f.name)
  }

  predicate SharesVersion(files: seq<File>, version: string) {
    exists i, j | 0 <= i < j < |files| ::
      && |files[i].name| >= 6 && |files[j].name| >= 6
      && Version(files[i].name) == Version(files[j].name) == version
  }

  method ReadEntries(entries: seq<Entry>) returns (r: Result<seq<File>, LoadError>)
    ensures r.Ok? ==> r.value == ForwardFiles(entries) && AllValid(r.value)
    ensures r.Err? ==>
              && r.error.InvalidName?
              && exists e | e in entries :: IsForward(e) && e.name == r.error.name && !ValidName(e.name)
  {
    var files: seq<File> := [];
    for n := 0 to |entries|
      invariant files == ForwardFiles(entries[..n])
      invariant AllValid(files)
    {
      assert entries[..n + 1][..n] == entries[..n];
      var e := entries[n];
      if e.isDir || !HasSuffix(e.name) {
        continue;
      }
      if !ValidName(e.name) {
        return Err(InvalidName(e.name));
      }
      files := files + [File(e.name, e.contents)];
    }
    assert entries[..|entries|] == entries;
    r := Ok(files);
  }

  lemma ValidNamesAreLong(files: seq<File>)
    requires AllValid(files)
    ensures LongNames(files)
  {
    forall i | 0 <= i < |files| ensures |files[i].name| >= 6 {
      assert ValidName(files[i].name);
    }
  }

  lemma RepeatedVersionIsShared(files: seq<File>, i: nat)
    requires LongNames(files) && 1 <= i < |files| && SameAsBefore(files, i)
    ensures SharesVersion(files, Version(files[i].name))
  {
    var h := i - 1;
    assert 0 <= h < i < |files| && Version(files[h].name) == Version(files[i].name);
  }

  method CheckVersions(sorted: seq<File>) returns (r: Result<seq<File>, LoadError>)
    requires SortedBy(sorted, NameOf) && AllValid(sorted)
    ensures r.Ok? ==> r.value == sorted && VersionsIncrease(sorted)
    ensures r.Err? ==> r.error.DuplicateVersion? && SharesVersion(sorted, r.error.version)
  {
    hide SortedBy, AllValid, SharesVersion, ValidName;
    ValidNamesAreLong(sorted);
    var index := 1;
    while index < |sorted|
      invariant 1 <= index && (index == 1 || index <= |sorted|)
      invariant NeighboursDiffer(sorted, index)
    {
      if Version(sorted[index - 1].name) == Version(sorted[index].name) {
        RepeatedVersionIsShared(sorted, index);
        return Err(DuplicateVersion(Version(sorted[index].name)));
      }
      index := index + 1;
    }
    NeighboursSuffice(sorted, |sorted|);
    r := Ok(sorted);
  }

  /** A directory loads exactly when all its migration names are valid and no two share a version. */
  method Load(entries: seq<Entry>) returns (r: Result<seq<File>, LoadError>)
    ensures r.Ok? ==>
              && r.value == Sort(ForwardFiles(entries), NameOf)
              && multiset(r.value) == multiset(ForwardFiles(entries))
              && VersionsIncrease(r.value) && AllValid(r.value)
    ensures r.Err? && r.error.InvalidName? ==>
              exists e | e in entries :: IsForward(e) && e.name == r.error.name && !ValidName(e.name)
    ensures r.Err? && r.error.DuplicateVersion? ==>
              SharesVersion(Sort(ForwardFiles(entries), NameOf), r.error.version)
  {
    var read := ReadEntries(entries);
    if read.Err? {
      return read;
    }
    var sorted := Sort(read.value, NameOf);
    SortElements(read.value, NameOf);
    SortSorted(read.value, NameOf);
    forall f | f in sorted ensures ValidName(f.name) {
      assert f in multiset(sorted);
    }
    r := CheckVersions(sorted);
  }

  // ----- versions as numbers -----

  predicate Digits(s: string) {
    forall i | 0 <= i < |s| :: '0' <= s[i] <= '9'
  }

  function PowerOfTen(n: nat): nat {
    if n == 0 then 1 else 10 * PowerOfTen(n - 1)
  }

  function Number(s: string): (n: nat)
    requires Digits(s)
    ensures n < PowerOfTen(|s|)
  {
    if s == [] then 0
    else
      var digit, rest: nat := s[0] as int - '0' as int, Number(s[1..]);
      Scaled(digit, 9, PowerOfTen(|s| - 1));
      digit * PowerOfTen(|s| - 1) + rest
  }

  lemma Scaled(a: nat, b: nat, p: nat)
    requires a <= b
    ensures a * p <= b * p
  {
  }

  lemma {:induction false} BelowIsLess(a: string, b: string)
    requires Digits(a) && Digits(b) && |a| == |b| && Below(a, b)
    ensures Number(a) < Number(b)
  {
    var p := PowerOfTen(|a| - 1);
    var x, y: nat := a[0] as int - '0' as int, b[0] as int - '0' as int;
    if a[0] == b[0] {
      BelowIsLess(a[1..], b[1..]);
    } else {
      Scaled(x + 1, y, p);
      assert (x + 1) * p == x * p + p;
    }
  }

  /** The versions of a loaded release are six-digit numbers that strictly increase. */
  lemma VersionNumbersIncrease(files: seq<File>)
    requires AllValid(files) && VersionsIncrease(files)
    ensures forall i | 0 <= i < |files| :: Digits(Version(files[i].name)) && |Version(files[i].name)| == 6
    ensures forall i, j | 0 <= i < j < |files| :: Number(Version(files[i].name)) < Number(Version(files[j].name))
  {
    forall i | 0 <= i < |files| ensures Digits(Version(files[i].name)) {
      assert ValidName(files[i].name);
    }
    forall i, j | 0 <= i < j < |files| ensures Number(Version(files[i].name)) < Number(Version(files[j].name)) {
      BelowIsLess(Version(files[i].name), Version(files[j].name));
    }
  }

  // ----- applying a release -----

  /** A history row has no checksum when an older release recorded only the filename. */
  type History = map<string, Option<string>>

  /** `schema` is the list of scripts executed so far. */
  datatype Db = Db(history: History, schema: seq<string>)

  type Digest = string -> string

  datatype MigrateError = MissingFromRelease(name: string) | Modified(name: string) | Stopped

  predicate InRelease(files: seq<File>, name: string) {
    exists f | f in files :: f.name == name
  }

  /** Every recorded migration is in the release with the recorded checksum. */
  predicate Accepts(db: Db, files: seq<File>, digest: Digest) {
    forall n | n in db.history ::
      && InRelease(files, n)
      && (db.history[n].Some? ==> forall f | f in files && f.name == n :: db.history[n].value == digest(f.contents))
  }

  function SealOne(db: Db, f: File, digest: Digest): Db {
    if f.name in db.history && db.history[f.name].None? then
      db.(history := db.history[f.name := Some(digest(f.contents))])
    else db
  }

  function ApplyOne(db: Db, f: File, digest: Digest): Db {
    if f.name in db.history then db
    else Db(db.history[f.name := Some(digest(f.contents))], db.schema + [f.contents])
  }

  function SealAll(db: Db, files: seq<File>, digest: Digest): Db {
    if files == [] then db
    else SealOne(SealAll(db, files[..|files| - 1], digest), files[|files| - 1], digest)
  }

  function ApplyAll(db: Db, files: seq<File>, digest: Digest): Db {
    if files == [] then db
    else ApplyOne(ApplyAll(db, files[..|files| - 1], digest), files[|files| - 1], digest)
  }

  /** The database after `stop` of the per-file statements: first a seal of each file, then an apply of each. */
  function RunUntil(db: Db, files: seq<File>, digest: Digest, stop: nat): Db {
    if stop <= |files| then SealAll(db, files[..stop], digest)
    else ApplyAll(SealAll(db, files, digest),
        files[..if stop - |files| < |files| then stop - |files| else |files|], digest)
  }

  /** An uninterrupted run. */
  function Complete(db: Db, files: seq<File>, digest: Digest): Db {
    ApplyAll(SealAll(db, files, digest), files, digest)
  }

  predicate Finishes(files: seq<File>, stop: nat) {
    stop >= 2 * |files|
  }

  lemma NoneYet(db: Db, files: seq<File>, digest: Digest)
    ensures SealAll(db, files[..0], digest) == db && ApplyAll(db, files[..0], digest) == db
  {
  }

  lemma SealNext(db: Db, files: seq<File>, digest: Digest, n: nat)
    requires n < |files|
    ensures SealAll(db, files[..n + 1], digest) == SealOne(SealAll(db, files[..n], digest), files[n], digest)
  {
    assert files[..n + 1][..n] == files[..n];
  }

  lemma ApplyNext(db: Db, files: seq<File>, digest: Digest, n: nat)
    requires n < |files|
    ensures ApplyAll(db, files[..n + 1], digest) == ApplyOne(ApplyAll(db, files[..n], digest), files[n], digest)
  {
    assert files[..n + 1][..n] == files[..n];
  }

  class Migrator {
    var db: Db
    const digest: Digest

    constructor (digest: Digest)
      ensures db == Db(map[], []) && this.digest == digest
    {
      db := Db(map[], []);
      this.digest := digest;
    }

    /** `stop` is how many per-file statements succeed before the run fails or is cut off. */
    method Migrate(files: seq<File>, stop: nat) returns (r: Result<(), MigrateError>)
      requires forall i, j | 0 <= i < j < |files| :: files[i].name != files[j].name
      modifies this
      ensures !Accepts(old(db), files, digest) ==> r.Err? && db == old(db)
      ensures Accepts(old(db), files, digest) ==>
                && db == RunUntil(old(db), files, digest, stop)
                && r == if Finishes(files, stop) then Ok(()) else Err(Stopped)
      ensures r.Err? && r.error.MissingFromRelease? ==>
                !InRelease(files, r.error.name) && r.error.name in old(db).history
      ensures r.Err? && r.error.Modified? ==> r.error.name in old(db).history && InRelease(files, r.error.name)
    {
      var byName: map<string, File> := map[];
      for n := 0 to |files|
        invariant forall m | 0 <= m < n :: files[m].name in byName && byName[files[m].name] == files[m]
        invariant forall name | name in byName :: byName[name] in files && byName[name].name == name
      {
        byName := byName[files[n].name := files[n]];
      }
      var rows: set<string> := db.history.Keys;
      var applied: set<string> := {};
      while rows != {}
        invariant rows + applied == db.history.Keys && db == old(db)
        invariant forall n | n in applied :: n in byName && n in db.history
                    && (db.history[n].Some? ==> db.history[n].value == digest(byName[n].contents))
        decreases |rows|
      {
        var version :| version in rows;
        rows := rows - {version};
        if version !in byName {
          return Err(MissingFromRelease(version));
        }
        if db.history[version].Some? && db.history[version].value != digest(byName[version].contents) {
          assert byName[version] in files && byName[version].name == version;
          return Err(Modified(version));
        }
        applied := applied + {version};
      }
      assert Accepts(old(db), files, digest) by {
        forall f | f in files ensures f.name in byName && byName[f.name] == f {
        }
      }
      r := Run(files, applied, stop);
    }

    /** The two loops of the run, once the history has been accepted. */
    method Run(files: seq<File>, applied: set<string>, stop: nat) returns (r: Result<(), MigrateError>)
      requires forall i, j | 0 <= i < j < |files| :: files[i].name != files[j].name
      requires applied == db.history.Keys
      modifies this
      ensures db == RunUntil(old(db), files, digest, stop)
      ensures r == if Finishes(files, stop) then Ok(()) else Err(Stopped)
    {
      hide SealAll, ApplyAll;
      NoneYet(db, files, digest);
      for n := 0 to |files|
        invariant n <= stop && db == SealAll(old(db), files[..n], digest)
        invariant db.history.Keys == applied
      {
        if n == stop {
          return Err(Stopped);
        }
        SealNext(old(db), files, digest, n);
        if files[n].name in applied {
          if db.history[files[n].name].None? {
            db := db.(history := db.history[files[n].name := Some(digest(files[n].contents))]);
          }
        }
      }
      assert files[..|files|] == files;
      NoneYet(SealAll(old(db), files, digest), files, digest);
      for n := 0 to |files|
        invariant |files| + n <= stop
        invariant db == ApplyAll(SealAll(old(db), files, digest), files[..n], digest)
        invariant forall m | n <= m < |files| :: files[m].name in db.history <==> files[m].name in applied
      {
        if |files| + n == stop {
          return Err(Stopped);
        }
        ApplyNext(SealAll(old(db), files, digest), files, digest, n);
        if files[n].name in applied {
          continue;
        }
        db := Db(db.history[files[n].name := Some(digest(files[n].contents))], db.schema + [files[n].contents]);
      }
      r := Ok(());
    }
  }
}
