/** What a run of the cluster backup leaves in the object store, on the volumes and in its report. */
module ClusterBackupLaws {
  import opened Wrappers
  import opened Files
  import opened ClusterBackup

  /** `ls` lists no name twice, and the archive name starts as the glob wants it. */
  ghost predicate Listed(r: Run)
  {
    && (forall i, j | 0 <= i < j < |r.listing| :: r.listing[i] != r.listing[j])
    && "redis-bak-" <= r.base
  }

  /** No file and no object has a name of this run yet. */
  ghost predicate FreshNames(r: Run, store: Store)
  {
    && (forall d, e | d in r.listing && e in store.disk :: r.Name(d) !in store.disk[e])
    && (forall d | d in r.listing :: r.Path(d) !in store.bucket)
  }

  ghost predicate DeletesWork(r: Run)
  {
    forall d | d in r.listing :: r.deletes(r.Path(d))
  }

  lemma NamesAreInjective(r: Run, d: string, e: string)
    requires r.Name(d) == r.Name(e) || r.Path(d) == r.Path(e)
    ensures d == e
  {
    assert r.Path(d)[|r.url|..] == r.Name(d) && r.Path(e)[|r.url|..] == r.Name(e);
    var prefix := r.base + "-";
    assert r.Name(d) == prefix + (d + ".tar.gz") && r.Name(e) == prefix + (e + ".tar.gz");
    assert d + ".tar.gz" == r.Name(d)[|prefix|..] && e + ".tar.gz" == r.Name(e)[|prefix|..];
    assert d == (d + ".tar.gz")[..|d|] && e == (e + ".tar.gz")[..|e|];
  }

  lemma NamesAreBackups(r: Run, d: string)
    requires "redis-bak-" <= r.base
    ensures IsBackup(r.Name(d))
  {
  }

  /** An archive of exactly the files of a directory that are not hidden. */
  ghost predicate HoldsVisible(file: File, dir: Dir)
  {
    && file.Archive?
    && forall name ::
         && (name in file.entries <==> name in dir && name != "" && name[0] != '.')
         && (name in file.entries ==> file.entries[name] == dir[name])
  }

  /** The archive of directory `d`, and its object. */
  function FileName(r: Run, d: string): string
  {
    r.base + "-" + d + ".tar.gz"
  }

  function Key(r: Run, d: string): string
  {
    r.url + (r.base + "-" + d + ".tar.gz")
  }

  /** The directory holds its archive besides what it held. */
  ghost predicate HoldsArchive(r: Run, d: string, before: Dir, after: Dir)
  {
    var name := FileName(r, d);
    && name in after && after == before[name := after[name]] && HoldsVisible(after[name], before)
  }

  // ---------------------------------------------------------------- phase one

  /** A directory after its archive has been made. */
  function Archived(r: Run, content: Dir, d: string): (archived: Dir)
    ensures HoldsArchive(r, d, content, archived)
  {
    content[r.Name(d) := Tar(content)]
  }

  /** The first `k` directories hold their archives, and nothing else has changed. */
  ghost predicate TarredUpTo(r: Run, start: Store, k: nat, now: Store)
    requires k <= |r.listing|
  {
    && now.bucket == start.bucket && now.disk.Keys == start.disk.Keys
    && (forall i | 0 <= i < k :: r.listing[i] in start.disk)
    && forall d | d in start.disk ::
         now.disk[d] == if d in r.listing[..k] then Archived(r, start.disk[d], d) else start.disk[d]
  }

  function SizeOf(answer: TarAnswer): nat
  {
    if answer.size.Some? then answer.size.value else 0
  }

  /** The sum of the sizes `du` printed for the first `k` archives. */
  function TotalSize(r: Run, k: nat): nat
    requires k <= |r.listing|
  {
    if k == 0 then 0 else TotalSize(r, k - 1) + SizeOf(r.tars(r.listing[k - 1]))
  }

  lemma TarStep(r: Run, start: Store, k: nat, before: Store, now: Store)
    requires Listed(r) && k < |r.listing| && TarredUpTo(r, start, k, before)
    requires var d := r.listing[k];
      d in before.disk && now == before.(disk := before.disk[d := Archived(r, before.disk[d], d)])
    ensures TarredUpTo(r, start, k + 1, now)
  {
    var d := r.listing[k];
    assert r.listing[..k + 1] == r.listing[..k] + [d];
    assert d !in r.listing[..k];
  }

  lemma PathsGrow(r: Run, k: nat)
    requires k < |r.listing|
    ensures Paths(r, r.listing[..k + 1]) == Paths(r, r.listing[..k]) + [r.Path(r.listing[k])]
  {
  }

  lemma {:induction false} TarPhaseGoes(r: Run, start: Store, k: nat)
    requires Listed(r) && k <= |r.listing| && TarPhase(r, start, k).Going?
    ensures var now := TarPhase(r, start, k);
      TarredUpTo(r, start, k, now.store) && now.list == Paths(r, r.listing[..k]) && now.size == TotalSize(r, k)
    ensures forall i | 0 <= i < k :: r.tars(r.listing[i]).ok && r.tars(r.listing[i]).size.Some?
  {
    if k > 0 {
      var n: nat := k - 1;
      TarPhaseGoes(r, start, n);
      var before, now, d := TarPhase(r, start, n), TarPhase(r, start, k), r.listing[n];
      assert now == TarOne(r, before.store, before.list, before.size, d);
      TarStep(r, start, n, before.store, now.store);
      assert n + 1 == k;
      assert now.size == TotalSize(r, n) + SizeOf(r.tars(d));
      PathsGrow(r, n);
    }
  }

  /** If the first phase ends the script, it is one directory that does it. */
  lemma {:induction false} TarPhaseStops(r: Run, start: Store, k: nat) returns (stop: nat)
    requires k <= |r.listing| && TarPhase(r, start, k).Ended?
    ensures stop < k && TarPhase(r, start, stop).Going?
    ensures var before := TarPhase(r, start, stop);
      TarPhase(r, start, k) == TarOne(r, before.store, before.list, before.size, r.listing[stop])
  {
    if TarPhase(r, start, k - 1).Ended? {
      stop := TarPhaseStops(r, start, k - 1);
    } else {
      stop := k - 1;
    }
  }

  // ---------------------------------------------------------------- phase two

  /** The store between the phases: every directory holds its archive, and only its own. */
  ghost predicate ReadyToUpload(r: Run, store: Store)
  {
    && Listed(r)
    && (forall d | d in r.listing :: d in store.disk && r.Name(d) in store.disk[d])
    && (forall d, e | d in r.listing && e in r.listing && d != e :: r.Name(d) !in store.disk[e])
  }

  /** The first `k` archives are uploaded and their directories cleaned; the rest has not been touched. */
  ghost predicate UploadedUpTo(r: Run, start: Store, k: nat, now: Store)
    requires k <= |r.listing| && ReadyToUpload(r, start)
  {
    && now.disk.Keys == start.disk.Keys
    && (forall d | d in start.disk :: now.disk[d] ==
          if d in r.listing[..k] then Without(start.disk[d], Backups(start.disk[d]) - r.puts(d).kept)
            else start.disk[d])
    && (forall d | d in r.listing[..k] :: r.Path(d) in now.bucket && now.bucket[r.Path(d)] == start.disk[d][r.Name(d)])
    && (forall d | d in r.listing[k..] :: r.Path(d) in now.bucket <==> r.Path(d) in start.bucket)
    && start.bucket.Keys <= now.bucket.Keys
  }

  /** The upload of directory `d` sends its archive and none of the other directories' ones. */
  lemma UploadSends(r: Run, start: Store, bucket: map<string, File>, d: string, content: Dir, e: string)
    requires ReadyToUpload(r, start) && d in r.listing && e in r.listing && content == start.disk[d]
    ensures var after := Put(bucket, content, Backups(content), r.url);
      if e == d then r.Path(e) in after && after[r.Path(e)] == content[r.Name(e)]
      else
        && (r.Path(e) in after <==> r.Path(e) in bucket)
        && (r.Path(e) in bucket ==> after[r.Path(e)] == bucket[r.Path(e)])
  {
    NamesAreBackups(r, d);
    PutAt(bucket, content, Backups(content), r.url, r.Name(e));
  }

  /** The bucket after directory `k`, from the one before it. */
  lemma UploadBucket(r: Run, start: Store, k: nat, before: Store, bucket: map<string, File>)
    requires ReadyToUpload(r, start) && k < |r.listing| && UploadedUpTo(r, start, k, before)
    requires r.listing[k] in before.disk && before.disk[r.listing[k]] == start.disk[r.listing[k]]
    requires var content := start.disk[r.listing[k]]; bucket == Put(before.bucket, content, Backups(content), r.url)
    ensures forall d | d in r.listing[..k + 1] :: r.Path(d) in bucket && bucket[r.Path(d)] == start.disk[d][r.Name(d)]
    ensures forall d | d in r.listing[k + 1..] :: r.Path(d) in bucket <==> r.Path(d) in start.bucket
    ensures start.bucket.Keys <= bucket.Keys
  {
    var d := r.listing[k];
    var content := start.disk[d];
    assert r.listing[..k + 1] == r.listing[..k] + [d] && r.listing[k..] == [d] + r.listing[k + 1..];
    PutKeeps(before.bucket, content, Backups(content), r.url);
    UploadSends(r, start, before.bucket, d, content, d);
    forall e | e in r.listing[..k] ensures r.Path(e) in bucket && bucket[r.Path(e)] == start.disk[e][r.Name(e)] {
      UploadSends(r, start, before.bucket, d, content, e);
    }
    forall e | e in r.listing[k + 1..] ensures r.Path(e) in bucket <==> r.Path(e) in start.bucket {
      UploadSends(r, start, before.bucket, d, content, e);
    }
  }

  lemma UploadDisk(r: Run, start: Store, k: nat, before: Store, now: Store)
    requires ReadyToUpload(r, start) && k < |r.listing| && UploadedUpTo(r, start, k, before)
    requires r.listing[k] !in r.listing[..k] && r.listing[k] in before.disk
    requires var d := r.listing[k];
      now.disk == before.disk[d := Without(before.disk[d], Backups(before.disk[d]) - r.puts(d).kept)]
    ensures now.disk.Keys == start.disk.Keys
    ensures forall d | d in start.disk ::
      now.disk[d] == if d in r.listing[..k + 1] then Without(start.disk[d], Backups(start.disk[d]) - r.puts(d).kept)
        else start.disk[d]
  {
    assert r.listing[..k + 1] == r.listing[..k] + [r.listing[k]];
  }

  lemma UploadStep(r: Run, start: Store, k: nat, before: Store, now: Store)
    requires ReadyToUpload(r, start) && k < |r.listing| && UploadedUpTo(r, start, k, before)
    requires var d := r.listing[k];
      d in before.disk &&
        now == Store(before.disk[d := Without(before.disk[d], Backups(before.disk[d]) - r.puts(d).kept)],
                                       Put(before.bucket, before.disk[d], Backups(before.disk[d]), r.url))
    ensures UploadedUpTo(r, start, k + 1, now)
  {
    var d := r.listing[k];
    assert d !in r.listing[..k];
    UploadBucket(r, start, k, before, now.bucket);
    UploadDisk(r, start, k, before, now);
  }

  lemma {:induction false} UploadPhaseGoes(r: Run, start: Store, list: seq<string>, size: nat, k: nat)
    requires ReadyToUpload(r, start) && k <= |r.listing| && UploadPhase(r, start, list, size, k).Going?
    ensures var now := UploadPhase(r, start, list, size, k);
      UploadedUpTo(r, start, k, now.store) && now.list == list && now.size == size
    ensures forall i | 0 <= i < k :: r.puts(r.listing[i]).ok
  {
    if k == 0 {
      assert r.listing[0..] == r.listing;
    } else {
      UploadPhaseGoes(r, start, list, size, k - 1);
      UploadStep(r, start, k - 1, UploadPhase(r, start, list, size, k - 1).store,
        UploadPhase(r, start, list, size, k).store);
    }
  }

  /** If the second phase ends the script, it is one upload that does it. */
  lemma {:induction false} UploadPhaseStops(r: Run, start: Store, list: seq<string>, size: nat, k: nat)
    returns (stop: nat)
    requires ReadyToUpload(r, start) && k <= |r.listing| && UploadPhase(r, start, list, size, k).Ended?
    ensures stop < k && UploadPhase(r, start, list, size, stop).Going?
    ensures var before := UploadPhase(r, start, list, size, stop).store;
      && r.listing[stop] in before.disk && !r.puts(r.listing[stop]).ok
      && UploadPhase(r, start, list, size, k) == UploadOne(r, before, list, size, r.listing[stop])
  {
    if UploadPhase(r, start, list, size, k - 1).Ended? {
      stop := UploadPhaseStops(r, start, list, size, k - 1);
    } else {
      stop := k - 1;
      UploadPhaseGoes(r, start, list, size, k - 1);
      assert r.listing[k - 1] in r.listing;
    }
  }

  // ---------------------------------------------------------------- where a run ends

  /** The step at which a run ends. */
  datatype End = Miscounted | TarStop(at: nat) | UploadStop(at: nat) | Complete

  /** The store at the end of the first phase. */
  function Tarred(r: Run, start: Store): Store
  {
    TarPhase(r, start, |r.listing|).store
  }

  /** The second phase after `k` directories. */
  function Uploading(r: Run, start: Store, k: nat): Progress
    requires k <= |r.listing| && TarPhase(r, start, |r.listing|).Going?
  {
    var archived := TarPhase(r, start, |r.listing|);
    UploadPhase(r, archived.store, archived.list, archived.size, k)
  }

  ghost predicate EndsAt(r: Run, start: Store, end: End)
  {
    var n := |r.listing|;
    match end
    case Miscounted => r.primaries != Some(n)
    case TarStop(k) =>
      && r.primaries == Some(n) && k < n && TarPhase(r, start, k).Going?
      && var before := TarPhase(r, start, k);
      Result(r, start) == TarOne(r, before.store, before.list, before.size, r.listing[k])
    case UploadStop(k) =>
      && r.primaries == Some(n) && k < n && TarPhase(r, start, n).Going?
      && Uploading(r, start, k).Going? && !r.puts(r.listing[k]).ok
      && r.listing[k] in Uploading(r, start, k).store.disk
      && Result(r, start)
           == UploadOne(r, Uploading(r, start, k).store, TarPhase(r, start, n).list, TarPhase(r, start, n).size,
             r.listing[k])
    case Complete =>
      r.primaries == Some(n) && TarPhase(r, start, n).Going? && Uploading(r, start, n).Going?
  }

  /** The archives do not get in each other's way. */
  lemma TarredIsReady(r: Run, start: Store)
    requires Listed(r) && FreshNames(r, start) && TarPhase(r, start, |r.listing|).Going?
    ensures ReadyToUpload(r, Tarred(r, start))
    ensures TarredUpTo(r, start, |r.listing|, Tarred(r, start))
    ensures forall d | d in r.listing :: d in start.disk && Tarred(r, start).disk[d] == Archived(r, start.disk[d], d)
  {
    TarPhaseGoes(r, start, |r.listing|);
    assert r.listing[..|r.listing|] == r.listing;
    forall d, e | d in r.listing && e in r.listing && d != e ensures r.Name(d) !in Tarred(r, start).disk[e] {
      if r.Name(d) == r.Name(e) {
        NamesAreInjective(r, d, e);
      }
    }
  }

  lemma FindEnd(r: Run, start: Store) returns (end: End)
    requires Listed(r) && FreshNames(r, start)
    ensures EndsAt(r, start, end)
  {
    var n := |r.listing|;
    if r.primaries != Some(n) {
      end := Miscounted;
    } else if TarPhase(r, start, n).Ended? {
      var stop := TarPhaseStops(r, start, n);
      end := TarStop(stop);
    } else {
      TarredIsReady(r, start);
      var archived := TarPhase(r, start, n);
      if UploadPhase(r, archived.store, archived.list, archived.size, n).Ended? {
        var stop := UploadPhaseStops(r, archived.store, archived.list, archived.size, n);
        end := UploadStop(stop);
      } else {
        end := Complete;
      }
    }
  }

  // ---------------------------------------------------------------- the object store

  lemma ListedPaths(r: Run, path: string)
    ensures path in Paths(r, r.listing) <==> exists d :: d in r.listing && path == r.Path(d)
  {
    var paths := Paths(r, r.listing);
    if path in paths {
      var i :| 0 <= i < |paths| && paths[i] == path;
      assert r.listing[i] in r.listing;
    }
    forall d | d in r.listing && path == r.Path(d) ensures path in paths {
      var i :| 0 <= i < |r.listing| && r.listing[i] == d;
      assert paths[i] == path;
    }
  }

  /** While the uploads go on, exactly the archives of the directories done are in the store. */
  lemma UploadedSoFar(r: Run, start: Store, k: nat, d: string)
    requires Listed(r) && FreshNames(r, start) && TarPhase(r, start, |r.listing|).Going? && k <= |r.listing|
    requires Uploading(r, start, k).Going? && d in r.listing
    ensures d in start.disk
    ensures Key(r, d) in Uploading(r, start, k).store.bucket <==> d in r.listing[..k]
    ensures d in r.listing[..k] ==> Uploading(r, start, k).store.bucket[r.Path(d)] == Tar(start.disk[d])
    ensures d !in r.listing[..k] ==>
      d in Uploading(r, start, k).store.disk && Uploading(r, start, k).store.disk[d] == Archived(r, start.disk[d], d)
  {
    TarredIsReady(r, start);
    var archived := TarPhase(r, start, |r.listing|);
    UploadPhaseGoes(r, archived.store, archived.list, archived.size, k);
    assert r.listing == r.listing[..k] + r.listing[k..];
    assert d in r.listing[..k] || d in r.listing[k..];
  }

  /** The store after the takeback of a failed upload at directory `k`, for whatever deletes work. */
  lemma TakebackLeaves(r: Run, start: Store, k: nat, d: string)
    requires Listed(r) && FreshNames(r, start) && EndsAt(r, start, UploadStop(k)) && d in r.listing
    ensures Key(r, d) in Result(r, start).store.bucket <==>
      (d in r.listing[..k] || (d == r.listing[k] && FileName(r, d) in r.puts(d).sent)) && !r.deletes(Key(r, d))
  {
    var last, n := r.listing[k], |r.listing|;
    UploadedSoFar(r, start, k, d);
    UploadedSoFar(r, start, k, last);
    TarPhaseGoes(r, start, n);
    assert r.listing[..n] == r.listing;
    ListedPaths(r, r.Path(d));
    var before := Uploading(r, start, k).store;
    assert last !in r.listing[..k];
    PutAt(before.bucket, before.disk[last], r.puts(last).sent, r.url, r.Name(d));
    NamesAreBackups(r, d);
    assert r.Name(d) in before.disk[last] <==> d == last by {
      if r.Name(d) == r.Name(last) {
        NamesAreInjective(r, d, last);
      }
    }
  }

  /** A successful run: every archive is in the store with the content its volume had. */
  lemma CompleteUploads(r: Run, start: Store, d: string)
    requires Listed(r) && FreshNames(r, start) && EndsAt(r, start, Complete) && d in r.listing
    ensures d in start.disk
    ensures r.Path(d) in Result(r, start).store.bucket
    ensures Result(r, start).store.bucket[r.Path(d)] == Tar(start.disk[d])
    ensures Key(r, d) in Result(r, start).store.bucket &&
      HoldsVisible(Result(r, start).store.bucket[Key(r, d)], start.disk[d])
  {
    UploadedSoFar(r, start, |r.listing|, d);
    assert r.listing[..|r.listing|] == r.listing;
  }

  /** All or nothing: whichever step fails and whatever old archives lie about, if the names are
      fresh and the deletes work, Succeed means that every archive of the run is in the store with
      its volume's content, and any other end means that none is. */
  lemma AllOrNothing(r: Run, start: Store)
    requires Listed(r) && FreshNames(r, start) && DeletesWork(r)
    ensures var end := Result(r, start);
      && (end.outcome == Succeed ==> forall d | d in r.listing ::
            d in start.disk && Key(r, d) in end.store.bucket &&
            HoldsVisible(end.store.bucket[Key(r, d)], start.disk[d]))
      && (end.outcome != Succeed ==> forall d | d in r.listing :: Key(r, d) !in end.store.bucket)
  {
    var stop := FindEnd(r, start);
    match stop
    case Miscounted =>
    case TarStop(k) => TarPhaseKeepsBucket(r, start, k);
    case UploadStop(k) =>
      forall d | d in r.listing ensures Key(r, d) !in Result(r, start).store.bucket {
        TakebackLeaves(r, start, k, d);
      }
    case Complete =>
      forall d | d in r.listing
        ensures d in start.disk && Key(r, d) in Result(r, start).store.bucket
        ensures HoldsVisible(Result(r, start).store.bucket[Key(r, d)], start.disk[d])
      {
        CompleteUploads(r, start, d);
      }
  }

  lemma {:induction false} TarPhaseKeepsBucket(r: Run, start: Store, k: nat)
    requires k <= |r.listing|
    ensures TarPhase(r, start, k).store.bucket == start.bucket
    ensures TarPhase(r, start, k).Going? ==>
      forall path | path in TarPhase(r, start, k).list :: path in Paths(r, r.listing)
  {
    if k > 0 {
      TarPhaseKeepsBucket(r, start, k - 1);
      assert Paths(r, r.listing)[k - 1] == r.Path(r.listing[k - 1]);
    }
  }

  lemma {:induction false} UploadPhaseKeepsBucket(r: Run, start: Store, list: seq<string>, size: nat, k: nat)
    requires k <= |r.listing|
    ensures forall key | key in start.bucket :: key in UploadPhase(r, start, list, size, k).store.bucket || key in list
  {
    if k > 0 {
      UploadPhaseKeepsBucket(r, start, list, size, k - 1);
      var before, d := UploadPhase(r, start, list, size, k - 1), r.listing[k - 1];
      if before.Going? && d in before.store.disk {
        var content := before.store.disk[d];
        PutKeeps(before.store.bucket, content, r.puts(d).sent, r.url);
        PutKeeps(before.store.bucket, content, Backups(content), r.url);
      }
    }
  }

  /** Whatever happens, and without any assumption on the names: an object that disappears has the
      path of an archive of this run. */
  lemma OnlyOwnObjectsAreRemoved(r: Run, start: Store, key: string)
    requires key in start.bucket && key !in Paths(r, r.listing)
    ensures key in Result(r, start).store.bucket
  {
    var n := |r.listing|;
    TarPhaseKeepsBucket(r, start, n);
    var archived := TarPhase(r, start, n);
    if archived.Going? {
      UploadPhaseKeepsBucket(r, archived.store, archived.list, archived.size, n);
    }
  }

  // ---------------------------------------------------------------- every object

  /** Directory `d` holds a backup file of this name once it has its archive. */
  predicate Offers(r: Run, start: Store, d: string, name: string)
    requires d in start.disk
  {
    "redis-bak-" <= name && (name in start.disk[d] || name == FileName(r, d))
  }

  /** The object of this name comes from the last of the first `k` directories that offer it, an older
      backup file just as an archive of this run; an object that none of them offers is as it was. */
  ghost predicate ComesFrom(r: Run, start: Store, bucket: map<string, File>, name: string, k: nat, last: Option<nat>)
    requires k <= |r.listing| && forall d | d in r.listing :: d in start.disk
  {
    var key := r.url + name;
    match last
    case None =>
      && (forall i | 0 <= i < k :: !Offers(r, start, r.listing[i], name))
      && (key in bucket <==> key in start.bucket) && (key in bucket ==> bucket[key] == start.bucket[key])
    case Some(i) =>
      && i < k && Offers(r, start, r.listing[i], name) && key in bucket
      && (forall j | i < j < k :: !Offers(r, start, r.listing[j], name))
      && (if name == FileName(r, r.listing[i]) then HoldsVisible(bucket[key], start.disk[r.listing[i]])
          else bucket[key] == start.disk[r.listing[i]][name])
  }

  lemma {:induction false} UploadingComesFrom(r: Run, start: Store, k: nat, name: string) returns (last: Option<nat>)
    requires Listed(r) && FreshNames(r, start) && TarPhase(r, start, |r.listing|).Going? && k <= |r.listing|
    requires Uploading(r, start, k).Going? && forall d | d in r.listing :: d in start.disk
    ensures ComesFrom(r, start, Uploading(r, start, k).store.bucket, name, k, last)
  {
    if k == 0 {
      AllArchived(r, start);
      last := None;
    } else {
      var n: nat := k - 1;
      assert n + 1 == k;
      UploadingBefore(r, start, n);
      var before := UploadingComesFrom(r, start, n, name);
      last := NextComesFrom(r, start, n, name, before);
    }
  }

  lemma UploadingBefore(r: Run, start: Store, k: nat)
    requires TarPhase(r, start, |r.listing|).Going? && k < |r.listing| && Uploading(r, start, k + 1).Going?
    ensures Uploading(r, start, k).Going?
  {
  }

  lemma NextComesFrom(r: Run, start: Store, k: nat, name: string, before: Option<nat>) returns (last: Option<nat>)
    requires Listed(r) && FreshNames(r, start) && TarPhase(r, start, |r.listing|).Going? && k < |r.listing|
    requires Uploading(r, start, k).Going? && Uploading(r, start, k + 1).Going?
    requires forall d | d in r.listing :: d in start.disk
    requires ComesFrom(r, start, Uploading(r, start, k).store.bucket, name, k, before)
    ensures ComesFrom(r, start, Uploading(r, start, k + 1).store.bucket, name, k + 1, last)
  {
    UploadingStep(r, start, k);
    last := UploadOffers(r, start, Uploading(r, start, k).store.bucket, name, k, before);
  }

  lemma AllArchived(r: Run, start: Store)
    requires Listed(r) && FreshNames(r, start) && TarPhase(r, start, |r.listing|).Going?
    ensures forall d | d in r.listing :: d in start.disk
    ensures Uploading(r, start, 0).store.bucket == start.bucket
  {
    TarredIsReady(r, start);
  }

  /** The next upload takes the directory as the first phase has left it. */
  lemma UploadingStep(r: Run, start: Store, k: nat)
    requires Listed(r) && FreshNames(r, start) && TarPhase(r, start, |r.listing|).Going? && k < |r.listing|
    requires Uploading(r, start, k).Going? && Uploading(r, start, k + 1).Going?
    ensures var d := r.listing[k]; d in start.disk && var content := Archived(r, start.disk[d], d);
      Uploading(r, start, k + 1).store.bucket
        == Put(Uploading(r, start, k).store.bucket, content, Backups(content), r.url)
  {
    UploadedSoFar(r, start, k, r.listing[k]);
    assert r.listing[k] !in r.listing[..k];
    var archived := TarPhase(r, start, |r.listing|);
    UploadPhaseStep(r, archived.store, archived.list, archived.size, k);
  }

  lemma UploadOffers(r: Run, start: Store, bucket: map<string, File>, name: string, k: nat, before: Option<nat>)
    returns (last: Option<nat>)
    requires k < |r.listing| && forall d | d in r.listing :: d in start.disk
    requires ComesFrom(r, start, bucket, name, k, before)
    ensures var content := Archived(r, start.disk[r.listing[k]], r.listing[k]);
      ComesFrom(r, start, Put(bucket, content, Backups(content), r.url), name, k + 1, last)
  {
    var content := Archived(r, start.disk[r.listing[k]], r.listing[k]);
    PutAt(bucket, content, Backups(content), r.url, name);
    last := if Offers(r, start, r.listing[k], name) then Some(k) else before;
  }

  /** A successful run: every object, whether this run has archived it or it lay about before. */
  lemma CompleteBucket(r: Run, start: Store, name: string) returns (last: Option<nat>)
    requires Listed(r) && FreshNames(r, start) && Result(r, start).outcome == Succeed
    ensures forall d | d in r.listing :: d in start.disk
    ensures ComesFrom(r, start, Result(r, start).store.bucket, name, |r.listing|, last)
  {
    var end := FindEnd(r, start);
    assert end == Complete;
    AllArchived(r, start);
    last := UploadingComesFrom(r, start, |r.listing|, name);
  }

  /** A failed upload at directory `k`: what it has sent has replaced what the directories before it
      had sent, and then the objects of this run are gone whose deletes work, and no others. */
  lemma FailedUploadBucket(r: Run, start: Store, k: nat, name: string) returns (last: Option<nat>)
    requires Listed(r) && FreshNames(r, start) && EndsAt(r, start, UploadStop(k))
    ensures forall d | d in r.listing :: d in start.disk
    ensures var end, key, d := Result(r, start).store.bucket, r.url + name, r.listing[k];
      if (exists e :: e in r.listing && key == Key(r, e)) && r.deletes(key) then key !in end
      else if Offers(r, start, d, name) && name in r.puts(d).sent
      then key in end && if name == FileName(r, d) then HoldsVisible(end[key], start.disk[d])
                         else end[key] == start.disk[d][name]
      else ComesFrom(r, start, end, name, k, last)
  {
    var d, n := r.listing[k], |r.listing|;
    AllArchived(r, start);
    last := UploadingComesFrom(r, start, k, name);
    UploadedSoFar(r, start, k, d);
    assert d !in r.listing[..k];
    TarPhaseGoes(r, start, n);
    assert r.listing[..n] == r.listing;
    ListedPaths(r, r.url + name);
    var before := Uploading(r, start, k).store;
    PutAt(before.bucket, before.disk[d], r.puts(d).sent, r.url, name);
  }

  // ---------------------------------------------------------------- the report

  /** The number of directories archived before the run ended. */
  predicate EndsBefore(r: Run, start: Store, k: nat)
    requires k <= |r.listing|
  {
    forall i | 0 <= i < k :: r.listing[i] in start.disk && r.tars(r.listing[i]).ok && r.tars(r.listing[i]).size.Some?
  }

  predicate IsFailure(report: Option<Report>, files: seq<string>)
  {
    report.Some? && report.value.filePath == files && report.value.fileSize == 0 && report.value.status == "Failed"
  }

  /** The report says what happened: on success every path in listing order and the sum of the
      sizes; on failure size 0 and, through the shared list, exactly the archives made so far. */
  lemma ReportIsFaithful(r: Run, start: Store) returns (made: nat)
    requires Listed(r) && FreshNames(r, start)
    ensures made <= |r.listing| && EndsBefore(r, start, made)
    ensures Result(r, start).outcome == Succeed ==> made == |r.listing|
    ensures Result(r, start).outcome == Succeed ==>
      Result(r, start).report == Some(Report(Paths(r, r.listing), TotalSize(r, |r.listing|), "Succeed", NoCause))
    ensures Result(r, start).outcome == Failed ==>
      IsFailure(Result(r, start).report, Paths(r, r.listing[..made]))
    ensures Result(r, start).outcome == Failed && Result(r, start).report.value.cause.TarFailed? ==>
      FirstFailure(r, start, made) && Result(r, start).report.value.cause.dir == r.listing[made]
    ensures Result(r, start).outcome == Aborted ==> Result(r, start).report == None
  {
    var stop := FindEnd(r, start);
    var n := |r.listing|;
    assert r.listing[..n] == r.listing && r.listing[..0] == [];
    match stop
    case Miscounted => made := 0;
    case TarStop(k) =>
      TarPhaseGoes(r, start, k);
      made := k;
    case UploadStop(k) =>
      TarPhaseGoes(r, start, n);
      made := n;
    case Complete =>
      TarPhaseGoes(r, start, n);
      TarredIsReady(r, start);
      UploadPhaseGoes(r, Tarred(r, start), TarPhase(r, start, n).list, TarPhase(r, start, n).size, n);
      made := n;
  }

  /** With the wrong number of directories, or a count that is no number, nothing is touched at all. */
  lemma MiscountTouchesNothing(r: Run, start: Store)
    requires r.primaries != Some(|r.listing|)
    ensures Result(r, start).store == start && Result(r, start).outcome != Succeed
    ensures Result(r, start).outcome == Failed <==> r.primaries.Some?
    ensures Result(r, start).outcome == Failed ==>
      IsFailure(Result(r, start).report, []) && Result(r, start).report.value.cause == WrongCount
  {
  }

  /** A run that the first phase ends reports if it is a failing archive that ends it. */
  lemma TarStopReports(r: Run, start: Store, k: nat)
    requires Listed(r) && EndsAt(r, start, TarStop(k))
    ensures Result(r, start).report.Some? <==> FirstFailure(r, start, k)
    ensures !EndsBefore(r, start, |r.listing|)
    ensures forall j | j != k :: !FirstFailure(r, start, j)
  {
    TarPhaseGoes(r, start, k);
    assert EndsBefore(r, start, k);
  }

  lemma TarredReports(r: Run, start: Store)
    requires Listed(r) && TarPhase(r, start, |r.listing|).Going?
    ensures EndsBefore(r, start, |r.listing|)
  {
    TarPhaseGoes(r, start, |r.listing|);
  }

  /** Exactly one report is written unless the count is no number, or a directory before the first
      failing archive cannot be entered or has an archive without a readable size. */
  lemma ReportIsWrittenExactlyIf(r: Run, start: Store)
    requires Listed(r) && FreshNames(r, start)
    ensures Result(r, start).report.Some? <==>
      && r.primaries.Some?
      && (r.primaries.value != |r.listing| || (exists k :: FirstFailure(r, start, k)) ||
           EndsBefore(r, start, |r.listing|))
  {
    var stop := FindEnd(r, start);
    match stop
    case Miscounted =>
    case TarStop(k) => TarStopReports(r, start, k);
    case UploadStop(_) => TarredReports(r, start);
    case Complete => TarredReports(r, start);
  }

  /** Directory `k` is the first whose archive fails, and everything before it went well. */
  predicate FirstFailure(r: Run, start: Store, k: nat)
  {
    k < |r.listing| && EndsBefore(r, start, k) && r.listing[k] in start.disk && !r.tars(r.listing[k]).ok
  }

  // ---------------------------------------------------------------- the volumes

  /** The directory after the archive has been made and `rm` has run: of the files whose name starts
      as a backup's, the archive among them, only what could not be removed is left. */
  ghost predicate Cleaned(r: Run, d: string, before: Dir, after: Dir)
  {
    && (forall name :: name in after <==>
          && (name in before || name == FileName(r, d))
          && ("redis-bak-" <= name ==> name in r.puts(d).kept))
    && (forall name | name in after && name != FileName(r, d) :: after[name] == before[name])
    && (FileName(r, d) in after ==> HoldsVisible(after[FileName(r, d)], before))
  }

  lemma RemovedIsCleaned(r: Run, d: string, before: Dir)
    requires "redis-bak-" <= r.base
    ensures var archived := Archived(r, before, d);
      Cleaned(r, d, before, Without(archived, Backups(archived) - r.puts(d).kept))
  {
  }

  /** After Succeed no directory holds a backup file, old ones included, but for those that `rm` has
      failed to remove. After a failed upload the same holds of the directories before it, and it and
      those after it still hold their archives. In every other case the object store has not been
      touched. */
  lemma WhatIsLeftOnTheVolumes(r: Run, start: Store)
    requires Listed(r) && FreshNames(r, start)
    ensures var end := Result(r, start);
      && (end.outcome == Succeed ==> forall d | d in r.listing ::
            d in start.disk && d in end.store.disk && Cleaned(r, d, start.disk[d], end.store.disk[d]))
      && (end.outcome != Succeed ==> end.store.bucket == start.bucket || exists k :: UploadFailedAt(r, start, end, k))
  {
    var stop := FindEnd(r, start);
    var n := |r.listing|;
    match stop
    case Miscounted =>
    case TarStop(k) => TarPhaseKeepsBucket(r, start, k);
    case UploadStop(k) => WhatAFailureLeaves(r, start, k);
    case Complete =>
      TarredIsReady(r, start);
      UploadPhaseGoes(r, Tarred(r, start), TarPhase(r, start, n).list, TarPhase(r, start, n).size, n);
      assert r.listing[..n] == r.listing;
      forall d | d in r.listing
        ensures d in start.disk && d in Result(r, start).store.disk &&
          Cleaned(r, d, start.disk[d], Result(r, start).store.disk[d])
      {
        RemovedIsCleaned(r, d, start.disk[d]);
      }
  }

  lemma WhatAFailureLeaves(r: Run, start: Store, k: nat)
    requires Listed(r) && FreshNames(r, start) && EndsAt(r, start, UploadStop(k))
    ensures UploadFailedAt(r, start, Result(r, start), k)
  {
    var end, n := Result(r, start), |r.listing|;
    TarredIsReady(r, start);
    UploadPhaseGoes(r, Tarred(r, start), TarPhase(r, start, n).list, TarPhase(r, start, n).size, k);
    forall d | d in r.listing[..k]
      ensures d in start.disk && d in end.store.disk && Cleaned(r, d, start.disk[d], end.store.disk[d])
    {
      assert d in r.listing;
      RemovedIsCleaned(r, d, start.disk[d]);
    }
    forall d | d in r.listing[k..]
      ensures d in start.disk && d in end.store.disk && HoldsArchive(r, d, start.disk[d], end.store.disk[d])
    {
      assert d in r.listing && d !in r.listing[..k];
    }
  }

  ghost predicate UploadFailedAt(r: Run, start: Store, end: Progress, k: nat)
    requires end.Ended?
  {
    && k < |r.listing| && end.report.Some? && end.report.value.cause == UploadFailed(r.listing[k])
    && (forall d | d in r.listing[..k] ::
          d in start.disk && d in end.store.disk && Cleaned(r, d, start.disk[d], end.store.disk[d]))
    && forall d | d in r.listing[k..] ::
         d in start.disk && d in end.store.disk && HoldsArchive(r, d, start.disk[d], end.store.disk[d])
  }

  /** The first `k` directories hold their archives, and only the next one may have changed too. */
  ghost predicate ArchivedUpTo(r: Run, start: Store, k: nat, end: Store)
    requires k < |r.listing|
  {
    && end.bucket == start.bucket && end.disk.Keys == start.disk.Keys
    && (forall e | e in r.listing[..k] :: e in start.disk && HoldsArchive(r, e, start.disk[e], end.disk[e]))
    && (forall e | e in start.disk && e !in r.listing[..k + 1] :: end.disk[e] == start.disk[e])
  }

  /** A failure of the first phase: the directories before it hold their archives, it holds what tar
      has left of its own and otherwise what it held, and everything else is as it was. */
  lemma FirstPhaseFailureLeaves(r: Run, start: Store, k: nat)
    requires Listed(r) && FreshNames(r, start) && EndsAt(r, start, TarStop(k))
    ensures ArchivedUpTo(r, start, k, Result(r, start).store)
    ensures LeftByTar(r, start, r.listing[k], Result(r, start))
  {
    TarPhaseGoes(r, start, k);
    TarStopLeaves(r, start, k, TarPhase(r, start, k));
  }

  lemma TarStopLeaves(r: Run, start: Store, k: nat, before: Progress)
    requires Listed(r) && k < |r.listing| && before.Going? && TarredUpTo(r, start, k, before.store)
    requires TarOne(r, before.store, before.list, before.size, r.listing[k]).Ended?
    ensures var end := TarOne(r, before.store, before.list, before.size, r.listing[k]);
      ArchivedUpTo(r, start, k, end.store) && LeftByTar(r, start, r.listing[k], end)
  {
    var d := r.listing[k];
    assert r.listing[..k + 1] == r.listing[..k] + [d];
    assert d !in r.listing[..k];
    TarStops(r, start, before.store, before.list, before.size, d);
    TarredHolds(r, start, k, before.store);
  }

  lemma TarredHolds(r: Run, start: Store, k: nat, now: Store)
    requires k <= |r.listing| && TarredUpTo(r, start, k, now)
    ensures forall e | e in r.listing[..k] ::
      e in start.disk && e in now.disk && HoldsArchive(r, e, start.disk[e], now.disk[e])
  {
    forall e | e in r.listing[..k] ensures e in start.disk && HoldsArchive(r, e, start.disk[e], now.disk[e]) {
      assert now.disk[e] == Archived(r, start.disk[e], e);
    }
  }

  /** The directory whose archive has ended the run: it is not there, its archive cannot be sized, or
      tar has failed and left part of one or nothing. */
  ghost predicate LeftByTar(r: Run, start: Store, d: string, end: Progress)
    requires end.Ended?
  {
    if d !in start.disk then end.outcome == Aborted && d !in end.store.disk
    else
      && d in end.store.disk
      && if r.tars(d).ok
         then end.outcome == Aborted && r.tars(d).size.None? && HoldsArchive(r, d, start.disk[d], end.store.disk[d])
         else end.outcome == Failed && match r.tars(d).partial
              case None => end.store.disk[d] == start.disk[d]
              case Some(part) => end.store.disk[d] == start.disk[d][FileName(r, d) := part]
  }

  lemma TarStops(r: Run, start: Store, before: Store, list: seq<string>, size: nat, d: string)
    requires TarOne(r, before, list, size, d).Ended? && before.disk.Keys == start.disk.Keys
    requires d in start.disk ==> before.disk[d] == start.disk[d]
    ensures LeftByTar(r, start, d, TarOne(r, before, list, size, d))
    ensures TarOne(r, before, list, size, d).store.bucket == before.bucket
    ensures TarOne(r, before, list, size, d).store.disk.Keys == start.disk.Keys
    ensures forall e | e in start.disk && e != d :: TarOne(r, before, list, size, d).store.disk[e] == before.disk[e]
  {
    if d in before.disk && r.tars(d).ok {
      assert before.disk[d := before.disk[d][r.Name(d) := Tar(before.disk[d])]][d] == Archived(r, before.disk[d], d);
    }
  }
}
