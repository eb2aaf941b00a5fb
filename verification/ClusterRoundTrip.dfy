/** A cluster backup followed by a recovery from the paths in its report. */
module ClusterRoundTrip {
  import opened Files
  import Text
  import B = ClusterBackup
  import L = ClusterBackupLaws
  import R = ClusterRecover

  lemma PathsAreDistinct(b: B.Run)
    requires L.Listed(b)
    ensures forall i, j | 0 <= i < j < |b.listing| :: B.Paths(b, b.listing)[i] != B.Paths(b, b.listing)[j]
  {
    forall i, j | 0 <= i < j < |b.listing| ensures B.Paths(b, b.listing)[i] != B.Paths(b, b.listing)[j] {
      if B.Paths(b, b.listing)[i] == B.Paths(b, b.listing)[j] {
        L.NamesAreInjective(b, b.listing[i], b.listing[j]);
      }
    }
  }

  /** The directory is this one, but for the fetched file if that could not be removed. */
  ghost predicate Holds(r: R.Run, dir: Dir, wanted: Dir)
  {
    Without(dir, {R.LOCAL}) == wanted && (R.RemovesWork(r) ==> dir == wanted)
  }

  /** Every file of the volume that is not hidden has arrived, over what was there before; node.conf is
      rewritten, and of the fetched file nothing is said. */
  ghost predicate Returned(content: Dir, before: Dir, now: Dir)
  {
    forall name | name != "redis-bak.tar.gz" ::
      if name in content && name != "" && name[0] != '.' then R.Landed(name, content[name], now)
      else if name in before then R.Landed(name, before[name], now)
      else name !in now
  }

  lemma HoldsReturned(r: R.Run, content: Dir, before: Dir, now: Dir)
    requires Holds(r, now, R.Recovered(before, Visible(content)))
    ensures Returned(content, before, now) && (R.RemovesWork(r) ==> "redis-bak.tar.gz" !in now)
  {
    R.RecoveredIsRestored(before, Visible(content), now);
  }

  /** Recovering from distinct URLs of archives of `contents`. */
  lemma RecoverAll(r: R.Run, bucket: map<string, File>, volumes: map<nat, Dir>, contents: seq<Dir>)
    requires |contents| == |r.Urls()|
    requires forall k | 0 <= k < |contents| :: r.Urls()[k] in bucket && bucket[r.Urls()[k]] == Tar(contents[k])
    requires forall k | 0 <= k < |contents| :: R.IsFirst(r.Urls(), k)
    requires R.Recoverable(r, bucket, volumes)
    ensures var end := R.Result(r, bucket, volumes);
      && end.Going? && end.volumes.Keys == volumes.Keys
      && (forall k | 0 <= k < |contents| :: Holds(r, end.volumes[k], R.Recovered(volumes[k], Visible(contents[k]))))
      && (forall k | k in volumes && k >= |contents| :: end.volumes[k] == volumes[k])
  {
    R.RecoverableSucceeds(r, bucket, volumes, |contents|);
    R.RecoveryPlacesFirstOccurrences(r, bucket, volumes);
    var end := R.Result(r, bucket, volumes).volumes;
    forall k | 0 <= k < |contents| ensures Holds(r, end[k], R.Recovered(volumes[k], Visible(contents[k]))) {
      RecoverOne(r, bucket, volumes[k], k, contents[k], end[k]);
    }
    forall k | k in volumes && k >= |contents| ensures end[k] == volumes[k] {
      assert R.Placed(r.Urls(), R.RemovesWork(r), bucket, volumes[k], |contents|, k, end[k]);
    }
  }

  lemma RecoverOne(r: R.Run, bucket: map<string, File>, before: Dir, k: nat, content: Dir, now: Dir)
    requires k < |r.Urls()| && r.Urls()[k] in bucket && bucket[r.Urls()[k]] == Tar(content)
    requires R.AreArchives(r.Urls(), bucket, |r.Urls()|) && R.IsFirst(r.Urls(), k)
    requires R.Placed(r.Urls(), R.RemovesWork(r), bucket, before, |r.Urls()|, k, now)
    ensures Holds(r, now, R.Recovered(before, Visible(content)))
  {
    if R.LOCAL !in now {
      R.PlacedExactly(r.Urls(), R.RemovesWork(r), bucket, before, |r.Urls()|, k, now);
    }
  }

  /** What the listed volumes held when the backup started. */
  ghost function Contents(b: B.Run, start: B.Store): seq<Dir>
    requires forall d | d in b.listing :: d in start.disk
  {
    seq(|b.listing|, k requires 0 <= k < |b.listing| => start.disk[b.listing[k]])
  }

  /** The bucket after a successful backup, path by path. */
  lemma UploadedContents(b: B.Run, start: B.Store)
    requires L.Listed(b) && L.FreshNames(b, start) && B.Result(b, start).outcome == B.Succeed
    ensures forall d | d in b.listing :: d in start.disk
    ensures forall k | 0 <= k < |b.listing| ::
      var bucket := B.Result(b, start).store.bucket; var path := B.Paths(b, b.listing)[k];
      path in bucket && bucket[path] == Tar(Contents(b, start)[k])
  {
    ReportedPaths(b, start);
    forall d | d in b.listing ensures d in start.disk {
      L.CompleteUploads(b, start, d);
    }
    forall k | 0 <= k < |b.listing|
      ensures var bucket := B.Result(b, start).store.bucket; var path := B.Paths(b, b.listing)[k];
        path in bucket && bucket[path] == Tar(Contents(b, start)[k])
    {
      L.CompleteUploads(b, start, b.listing[k]);
    }
  }

  /** Round trip: join the paths of a successful report with commas and recover from them, with
      every fetch and unpacking succeeding and no file of the fetched name on the volumes. Then
      data-k holds what the k-th listed volume held, over what was there before, with node.conf
      rewritten. Hidden files are not backed up. */
  lemma BackupThenRecover(b: B.Run, start: B.Store, r: R.Run, volumes: map<nat, Dir>)
    requires L.Listed(b) && L.FreshNames(b, start) && b.listing != []
    requires forall d | d in b.listing :: ',' !in b.Path(d)
    requires B.Result(b, start).outcome == B.Succeed && B.Result(b, start).report.Some?
    requires r.urls == Text.Join(B.Result(b, start).report.value.filePath, ',')
    requires r.setupOk && forall k: nat :: r.answers(k).getOk && r.answers(k).tarOk
    requires forall k | 0 <= k < |b.listing| :: k in volumes && R.LOCAL !in volumes[k]
    ensures forall d | d in b.listing :: d in start.disk
    ensures var end := R.Result(r, B.Result(b, start).store.bucket, volumes);
      && end.Going? && end.volumes.Keys == volumes.Keys
      && (forall k | 0 <= k < |b.listing| ::
           && Returned(start.disk[b.listing[k]], volumes[k], end.volumes[k])
           && (R.RemovesWork(r) ==> "redis-bak.tar.gz" !in end.volumes[k]))
      && (forall k | k in volumes && k >= |b.listing| :: end.volumes[k] == volumes[k])
  {
    var paths := B.Paths(b, b.listing);
    ReportedPaths(b, start);
    assert Text.AllFree(paths, ',');
    Text.SplitJoin(paths, ',');
    assert r.Urls() == paths;
    UploadedContents(b, start);
    PathsAreDistinct(b);
    RecoverAll(r, B.Result(b, start).store.bucket, volumes, Contents(b, start));
    var end := R.Result(r, B.Result(b, start).store.bucket, volumes).volumes;
    forall k | 0 <= k < |b.listing|
      ensures Returned(start.disk[b.listing[k]], volumes[k], end[k])
      ensures R.RemovesWork(r) ==> "redis-bak.tar.gz" !in end[k]
    {
      HoldsReturned(r, Contents(b, start)[k], volumes[k], end[k]);
    }
  }

  lemma ReportedPaths(b: B.Run, start: B.Store)
    requires L.Listed(b) && L.FreshNames(b, start) && B.Result(b, start).outcome == B.Succeed
    ensures L.EndsAt(b, start, L.Complete)
    ensures B.Result(b, start).report.Some? && B.Result(b, start).report.value.filePath == B.Paths(b, b.listing)
  {
    var end := L.FindEnd(b, start);
    assert end == L.Complete;
    var made := L.ReportIsFaithful(b, start);
  }

  /** Into empty volumes: the files that are not hidden come back, and of these only node.conf differs. */
  lemma RecoveredIntoEmpty(content: Dir, now: Dir)
    requires Returned(content, map[], now) && "redis-bak.tar.gz" !in content && "redis-bak.tar.gz" !in now
    ensures forall name :: name in now <==> name in content && name != "" && name[0] != '.'
    ensures forall name | name in now && name != "node.conf" :: now[name] == content[name]
    ensures "node.conf" in content && content["node.conf"].Plain? ==>
      R.Landed("node.conf", content["node.conf"], now)
  {
    assert forall name :: name in now ==> name in content && R.Landed(name, content[name], now);
  }
}
