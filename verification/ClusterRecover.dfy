/** python/redis_cluster_recover.py: fetch every archive of a cluster backup into the volume of its
    index, unpack it there, and point node.conf at the local node. */
module ClusterRecover {
  import opened Wrappers
  import opened Files
  import NodeConf
  import Text

  const LOCAL := "redis-bak.tar.gz"
  const NODE_CONF := "node.conf"

  /** How the commands for one URL end. A failed fetch may leave part of a file, a failed tar may
      have unpacked some of the archive. */
  datatype Answer = Answer(getOk: bool, junk: Option<File>, tarOk: bool, unpacked: set<string>, rmOk: bool)

  /** `volumes[k]` is /data/data-k. */
  datatype Run = Run(setupOk: bool, urls: string, answers: nat -> Answer)
  {
    function Urls(): seq<string>
    {
      Text.Split(urls, ',')
    }
  }

  /** list.index: the first position of an element. */
  function IndexOf(list: seq<string>, x: string): (i: nat)
    requires x in list
    ensures i < |list| && list[i] == x && forall j | 0 <= j < i :: list[j] != x
  {
    if list[0] == x then 0 else 1 + IndexOf(list[1..], x)
  }

  function Sed(dir: Dir): Dir
  {
    if NODE_CONF in dir && dir[NODE_CONF].Plain?
    then dir[NODE_CONF := Plain(NodeConf.Rewrite(dir[NODE_CONF].lines))]
    else dir
  }

  /** What a directory holds after an archive has been unpacked into it. */
  function Recovered(dir: Dir, entries: map<string, File>): Dir
  {
    Without(Sed(dir + entries), {LOCAL})
  }

  function PartOf(entries: map<string, File>, names: set<string>): map<string, File>
  {
    map name | name in entries && name in names :: entries[name]
  }

  datatype Progress = Going(volumes: map<nat, Dir>) | Failed(volumes: map<nat, Dir>)

  /** One turn of the loop. s3cmd get refuses to overwrite a file, and sed runs before the status
      of tar is looked at. */
  function FetchOne(bucket: map<string, File>, volumes: map<nat, Dir>, url: string, index: nat,
    answer: Answer): Progress
  {
    if index !in volumes then Failed(volumes)
    else
      var dir := volumes[index];
      if !answer.getOk || url !in bucket || LOCAL in dir then
        Failed(if answer.junk.Some? && LOCAL !in dir
               then volumes[index := dir[LOCAL := answer.junk.value]]
               else volumes)
      else
        var fetched := dir[LOCAL := bucket[url]];
        if !answer.tarOk || !bucket[url].Archive? then
          var part := if bucket[url].Archive? then fetched + PartOf(bucket[url].entries, answer.unpacked) else fetched;
          Failed(volumes[index := Sed(part)])
        else
          var unpacked := Sed(fetched + bucket[url].entries);
          Going(volumes[index := if answer.rmOk then Without(unpacked, {LOCAL}) else unpacked])
  }

  function FetchPhase(r: Run, bucket: map<string, File>, volumes: map<nat, Dir>, k: nat): Progress
    requires k <= |r.Urls()|
  {
    if k == 0 then Going(volumes)
    else
      var before := FetchPhase(r, bucket, volumes, k - 1);
      if before.Failed? then before
      else
        var url := r.Urls()[k - 1];
        FetchOne(bucket, before.volumes, url, IndexOf(r.Urls(), url), r.answers(k - 1))
  }

  function Result(r: Run, bucket: map<string, File>, volumes: map<nat, Dir>): Progress
  {
    if !r.setupOk then Failed(volumes) else FetchPhase(r, bucket, volumes, |r.Urls()|)
  }

  class Script {
    const r: Run
    const bucket: map<string, File>
    var volumes: map<nat, Dir>

    constructor (r: Run, bucket: map<string, File>, volumes: map<nat, Dir>)
      ensures this.r == r && this.bucket == bucket && this.volumes == volumes
    {
      this.r, this.bucket, this.volumes := r, bucket, volumes;
    }

    /** The fetch, the unpacking and the clean-up for one URL (lines 29-46). */
    method FetchTurn(url: string, index: nat, answer: Answer) returns (ok: bool)
      modifies this
      ensures var end := FetchOne(bucket, old(volumes), url, index, answer); ok == end.Going? && volumes == end.volumes
    {
      if index !in volumes {
        return false;
      }
      if !answer.getOk || url !in bucket || LOCAL in volumes[index] {
        if answer.junk.Some? && LOCAL !in volumes[index] {
          volumes := volumes[index := volumes[index][LOCAL := answer.junk.value]];
        }
        return false;
      }
      var dir := volumes[index][LOCAL := bucket[url]];
      if bucket[url].Archive? {
        dir := dir + if answer.tarOk then bucket[url].entries else PartOf(bucket[url].entries, answer.unpacked);
      }
      dir := Sed(dir);
      volumes := volumes[index := dir];
      if !answer.tarOk || !bucket[url].Archive? {
        return false;
      }
      if answer.rmOk {
        volumes := volumes[index := Without(dir, {LOCAL})];
      }
      ok := true;
    }

    /** redis_recover (lines 12-50); `ok` is false when it exits with an error. */
    method Recover() returns (ok: bool)
      modifies this
      ensures var end := Result(r, bucket, old(volumes)); ok == end.Going? && volumes == end.volumes
    {
      ghost var start := volumes;
      if !r.setupOk {
        return false;
      }
      var urls := r.Urls();
      var k := 0;
      while k < |urls|
        invariant k <= |urls|
        invariant FetchPhase(r, bucket, start, k) == Going(volumes)
      {
        var url := urls[k];
        var index := IndexOf(urls, url);
        var answer := r.answers(k);
        FetchPhaseStep(r, bucket, start, k);
        ok := FetchTurn(url, index, answer);
        if !ok {
          return;
        }
        k := k + 1;
      }
      ok := true;
    }
  }

  lemma {:induction false} FetchPhaseEnds(r: Run, bucket: map<string, File>, volumes: map<nat, Dir>, k: nat, n: nat)
    requires k <= n <= |r.Urls()| && FetchPhase(r, bucket, volumes, k).Failed?
    ensures FetchPhase(r, bucket, volumes, n) == FetchPhase(r, bucket, volumes, k)
    decreases n - k
  {
    if k < n {
      FetchPhaseEnds(r, bucket, volumes, k, n - 1);
    }
  }

  lemma FetchPhaseStep(r: Run, bucket: map<string, File>, volumes: map<nat, Dir>, k: nat)
    requires k < |r.Urls()| && FetchPhase(r, bucket, volumes, k).Going?
    ensures FetchPhase(r, bucket, volumes, k + 1)
         == FetchOne(bucket, FetchPhase(r, bucket, volumes, k).volumes, r.Urls()[k], IndexOf(r.Urls(), r.Urls()[k]),
           r.answers(k))
    ensures FetchPhase(r, bucket, volumes, k + 1).Failed? ==>
      FetchPhase(r, bucket, volumes, |r.Urls()|) == FetchPhase(r, bucket, volumes, k + 1)
  {
    var n := k + 1;
    assert n - 1 == k && !FetchPhase(r, bucket, volumes, k).Failed?;
    if FetchPhase(r, bucket, volumes, n).Failed? {
      FetchPhaseEnds(r, bucket, volumes, k + 1, |r.Urls()|);
    }
  }

  // ---------------------------------------------------------------- what is recovered where

  ghost predicate RemovesWork(r: Run)
  {
    forall k: nat :: r.answers(k).rmOk
  }

  /** Position `j` is the first one of its URL. */
  predicate IsFirst(urls: seq<string>, j: nat)
    requires j < |urls|
  {
    forall i | 0 <= i < j :: urls[i] != urls[j]
  }

  /** Unpacking the same archive again changes nothing. */
  lemma RecoveredTwice(dir: Dir, entries: map<string, File>)
    ensures Recovered(Recovered(dir, entries), entries) == Recovered(dir, entries)
  {
    var once := Recovered(dir, entries);
    if NODE_CONF in dir + entries && (dir + entries)[NODE_CONF].Plain? {
      NodeConf.RewriteTwice((dir + entries)[NODE_CONF].lines);
    }
    assert forall name :: name in Recovered(once, entries) <==> name in once;
    assert forall name | name in once :: Recovered(once, entries)[name] == once[name];
  }

  /** A fetch that goes on has unpacked its archive into the directory of its index, which had no
      file of the fetched name; that file is gone again if it could be removed. */
  lemma FetchGoesOn(bucket: map<string, File>, volumes: map<nat, Dir>, url: string, index: nat, answer: Answer)
    requires FetchOne(bucket, volumes, url, index, answer).Going?
    ensures index in volumes && LOCAL !in volumes[index] && url in bucket && bucket[url].Archive?
    ensures var after := FetchOne(bucket, volumes, url, index, answer).volumes;
      && index in after && after == volumes[index := after[index]]
      && Without(after[index], {LOCAL}) == Recovered(volumes[index], bucket[url].entries)
      && (answer.rmOk ==> LOCAL !in after[index])
  {
    var dir, entries := volumes[index], bucket[url].entries;
    SedIgnoresLocal(dir[LOCAL := bucket[url]] + entries, dir + entries);
  }

  lemma SedIgnoresLocal(a: Dir, b: Dir)
    requires Without(a, {LOCAL}) == Without(b, {LOCAL})
    ensures Without(Sed(a), {LOCAL}) == Without(Sed(b), {LOCAL})
  {
    assert NODE_CONF != LOCAL;
    assert NODE_CONF in a <==> NODE_CONF in Without(a, {LOCAL});
    assert NODE_CONF in b <==> NODE_CONF in Without(b, {LOCAL});
    assert NODE_CONF in a ==> a[NODE_CONF] == Without(a, {LOCAL})[NODE_CONF];
    assert NODE_CONF in b ==> b[NODE_CONF] == Without(b, {LOCAL})[NODE_CONF];
    if NODE_CONF in a && a[NODE_CONF].Plain? {
      var v := Plain(NodeConf.Rewrite(a[NODE_CONF].lines));
      assert Without(a[NODE_CONF := v], {LOCAL}) == Without(a, {LOCAL})[NODE_CONF := v];
      assert Without(b[NODE_CONF := v], {LOCAL}) == Without(b, {LOCAL})[NODE_CONF := v];
    }
  }

  /** The first `k` URLs name archives. */
  predicate AreArchives(urls: seq<string>, bucket: map<string, File>, k: nat)
    requires k <= |urls|
  {
    forall i | 0 <= i < k :: urls[i] in bucket && bucket[urls[i]].Archive?
  }

  /** Directory `j` after `k` URLs: recovered if URL j is a first occurrence among them, but for a
      leftover of the fetched file unless the directories are `clean`; and otherwise as before. */
  predicate Placed(urls: seq<string>, clean: bool, bucket: map<string, File>, before: Dir, k: nat, j: nat, now: Dir)
    requires k <= |urls| && AreArchives(urls, bucket, k)
  {
    if j < k && IsFirst(urls, j) then
      Without(now, {LOCAL}) == Recovered(before, bucket[urls[j]].entries) && (clean ==> LOCAL !in now)
    else now == before
  }

  predicate AllPlaced(urls: seq<string>, clean: bool, bucket: map<string, File>, start: map<nat, Dir>, k: nat,
    now: map<nat, Dir>)
    requires k <= |urls|
  {
    && AreArchives(urls, bucket, k) && now.Keys == start.Keys
    && (forall i | 0 <= i < k && IsFirst(urls, i) :: i in start)
    && forall j | j in start :: Placed(urls, clean, bucket, start[j], k, j, now[j])
  }

  /** After `k` URLs, the directories of the first occurrences among them are recovered, but for a
      leftover of the fetched file if it could not be removed; every other directory is as it was. */
  ghost predicate RecoveredUpTo(r: Run, bucket: map<string, File>, start: map<nat, Dir>, k: nat, now: map<nat, Dir>)
    requires k <= |r.Urls()|
  {
    AllPlaced(r.Urls(), RemovesWork(r), bucket, start, k, now)
  }

  /** Without a leftover the directory is exactly the recovered one. */
  lemma PlacedExactly(urls: seq<string>, clean: bool, bucket: map<string, File>, before: Dir, k: nat, j: nat, now: Dir)
    requires j < k <= |urls| && AreArchives(urls, bucket, k) && IsFirst(urls, j) && LOCAL !in now
    requires Placed(urls, clean, bucket, before, k, j, now)
    ensures now == Recovered(before, bucket[urls[j]].entries)
  {
    assert Without(now, {LOCAL}) == now;
  }

  lemma IndexIsFirst(urls: seq<string>, k: nat)
    requires k < |urls|
    ensures IndexOf(urls, urls[k]) <= k && IsFirst(urls, IndexOf(urls, urls[k]))
    ensures IsFirst(urls, k) ==> IndexOf(urls, urls[k]) == k
  {
  }

  /** The directory that URL k is unpacked into. */
  lemma PlacedAgain(urls: seq<string>, clean: bool, bucket: map<string, File>, before: Dir, k: nat, index: nat,
    dir: Dir, now: Dir)
    requires k < |urls| && AreArchives(urls, bucket, k + 1) && index == IndexOf(urls, urls[k])
    requires Placed(urls, clean, bucket, before, k, index, dir) && LOCAL !in dir
    requires Without(now, {LOCAL}) == Recovered(dir, bucket[urls[k]].entries) && (clean ==> LOCAL !in now)
    ensures Placed(urls, clean, bucket, before, k + 1, index, now)
  {
    IndexIsFirst(urls, k);
    if index < k {
      PlacedExactly(urls, clean, bucket, before, k, index, dir);
      RecoveredTwice(before, bucket[urls[k]].entries);
    }
  }

  lemma OthersStayPlaced(urls: seq<string>, clean: bool, bucket: map<string, File>, before: Dir, k: nat, j: nat,
    now: Dir)
    requires k < |urls| && AreArchives(urls, bucket, k + 1) && (j == k ==> !IsFirst(urls, k))
    requires Placed(urls, clean, bucket, before, k, j, now)
    ensures Placed(urls, clean, bucket, before, k + 1, j, now)
  {
  }

  /** `index` is the position of the first occurrence of URL k. */
  lemma RecoverStep(urls: seq<string>, clean: bool, bucket: map<string, File>, start: map<nat, Dir>, k: nat,
    before: map<nat, Dir>, index: nat, dir: Dir)
    requires k < |urls| && AreArchives(urls, bucket, k + 1) && (IsFirst(urls, k) ==> index == k)
    requires AllPlaced(urls, clean, bucket, start, k, before)
    requires index in start && Placed(urls, clean, bucket, start[index], k + 1, index, dir)
    ensures AllPlaced(urls, clean, bucket, start, k + 1, before[index := dir])
  {
    var now := before[index := dir];
    forall j | j in start ensures Placed(urls, clean, bucket, start[j], k + 1, j, now[j]) {
      if j != index {
        OthersStayPlaced(urls, clean, bucket, start[j], k, j, before[j]);
      }
    }
  }

  lemma RecoverTurn(r: Run, bucket: map<string, File>, start: map<nat, Dir>, k: nat, before: map<nat, Dir>)
    requires k < |r.Urls()| && RecoveredUpTo(r, bucket, start, k, before)
    requires FetchOne(bucket, before, r.Urls()[k], IndexOf(r.Urls(), r.Urls()[k]), r.answers(k)).Going?
    ensures RecoveredUpTo(r, bucket, start, k + 1,
      FetchOne(bucket, before, r.Urls()[k], IndexOf(r.Urls(), r.Urls()[k]), r.answers(k)).volumes)
  {
    var urls, url, clean := r.Urls(), r.Urls()[k], RemovesWork(r);
    var index := IndexOf(urls, url);
    FetchGoesOn(bucket, before, url, index, r.answers(k));
    var dir := FetchOne(bucket, before, url, index, r.answers(k)).volumes[index];
    assert clean ==> r.answers(k).rmOk;
    PlacedAgain(urls, clean, bucket, start[index], k, index, before[index], dir);
    IndexIsFirst(urls, k);
    RecoverStep(urls, clean, bucket, start, k, before, index, dir);
  }

  lemma {:induction false} FetchPhaseRecovers(r: Run, bucket: map<string, File>, start: map<nat, Dir>, k: nat)
    requires k <= |r.Urls()| && FetchPhase(r, bucket, start, k).Going?
    ensures RecoveredUpTo(r, bucket, start, k, FetchPhase(r, bucket, start, k).volumes)
  {
    if k > 0 {
      var n: nat := k - 1;
      FetchPhaseRecovers(r, bucket, start, n);
      var before, url := FetchPhase(r, bucket, start, n).volumes, r.Urls()[n];
      var after := FetchOne(bucket, before, url, IndexOf(r.Urls(), url), r.answers(n));
      assert FetchPhase(r, bucket, start, k) == after;
      RecoverTurn(r, bucket, start, n, before);
      assert n + 1 == k;
    }
  }

  /** Every fetch and every unpacking succeeds, every URL is an archive, and its volume is there and
      has no file of the name it is fetched under; and either the files fetched can be removed or
      no URL is repeated. */
  ghost predicate Recoverable(r: Run, bucket: map<string, File>, start: map<nat, Dir>)
  {
    && r.setupOk && (RemovesWork(r) || forall j | 0 <= j < |r.Urls()| :: IsFirst(r.Urls(), j))
    && (forall k: nat :: r.answers(k).getOk && r.answers(k).tarOk)
    && (forall k | 0 <= k < |r.Urls()| :: r.Urls()[k] in bucket && bucket[r.Urls()[k]].Archive?)
    && (forall k | 0 <= k < |r.Urls()| :: k in start && LOCAL !in start[k])
  }

  /** A fetch whose commands succeed goes on. */
  lemma FetchWorks(bucket: map<string, File>, volumes: map<nat, Dir>, url: string, index: nat, answer: Answer)
    requires answer.getOk && answer.tarOk && url in bucket && bucket[url].Archive?
    requires index in volumes && LOCAL !in volumes[index]
    ensures FetchOne(bucket, volumes, url, index, answer).Going?
  {
  }

  lemma RecoveredIsReady(r: Run, bucket: map<string, File>, start: map<nat, Dir>, k: nat, now: map<nat, Dir>)
    requires Recoverable(r, bucket, start) && k < |r.Urls()| && RecoveredUpTo(r, bucket, start, k, now)
    ensures var index := IndexOf(r.Urls(), r.Urls()[k]); index in now && LOCAL !in now[index]
  {
    IndexIsFirst(r.Urls(), k);
    var index := IndexOf(r.Urls(), r.Urls()[k]);
    assert index in start && LOCAL !in start[index];
    assert Placed(r.Urls(), RemovesWork(r), bucket, start[index], k, index, now[index]);
  }

  /** Then the recovery succeeds: what it needs of each volume it leaves behind. */
  lemma {:induction false} RecoverableSucceeds(r: Run, bucket: map<string, File>, start: map<nat, Dir>, k: nat)
    requires Recoverable(r, bucket, start) && k <= |r.Urls()|
    ensures FetchPhase(r, bucket, start, k).Going?
  {
    if k > 0 {
      var n: nat := k - 1;
      RecoverableSucceeds(r, bucket, start, n);
      FetchPhaseRecovers(r, bucket, start, n);
      var before, url := FetchPhase(r, bucket, start, n).volumes, r.Urls()[n];
      var index := IndexOf(r.Urls(), url);
      RecoveredIsReady(r, bucket, start, n, before);
      FetchWorks(bucket, before, url, index, r.answers(n));
      FetchPhaseStep(r, bucket, start, n);
      assert n + 1 == k;
    }
  }

  // ---------------------------------------------------------------- the same, file by file

  /** The line's first and second field, and what comes after them. */
  predicate Fields(line: string, first: string, second: string, rest: string)
  {
    line == first + " " + second + rest && ' ' !in first && ' ' !in second && (rest == "" || rest[0] == ' ')
  }

  /** A line of node.conf and what has become of it: the local address stands in the place of its
      second field. */
  ghost predicate PointsHere(line: string, now: string)
  {
    && (' ' !in line ==> now == line)
    && forall first, second, rest | Fields(line, first, second, rest) ::
         now == first + " " + "127.0.0.1:6379@16379" + rest
  }

  lemma RewritePointsHere(line: string)
    ensures PointsHere(line, NodeConf.RewriteLine(line))
  {
    var _, _, _ := NodeConf.RewriteCoversEveryLine(line);
    forall first, second, rest | Fields(line, first, second, rest)
      ensures NodeConf.RewriteLine(line) == first + " " + "127.0.0.1:6379@16379" + rest
    {
      NodeConf.RewriteReplacesTheSecondField(first, second, rest);
    }
  }

  /** The directory holds this file under this name, node.conf with every line rewritten. */
  ghost predicate Landed(name: string, file: File, now: Dir)
  {
    && name in now
    && if name == "node.conf" && file.Plain?
       then now[name].Plain? && |now[name].lines| == |file.lines| &&
         forall i | 0 <= i < |file.lines| :: PointsHere(file.lines[i], now[name].lines[i])
       else now[name] == file
  }

  /** Unpacked over what was there: every file of the archive, and every other file as it was; only
      of the fetched file nothing is said. */
  ghost predicate Restored(before: Dir, entries: map<string, File>, now: Dir)
  {
    forall name | name != "redis-bak.tar.gz" ::
      if name in entries then Landed(name, entries[name], now)
      else if name in before then Landed(name, before[name], now)
      else name !in now
  }

  lemma RecoveredIsRestored(before: Dir, entries: map<string, File>, now: Dir)
    requires Without(now, {LOCAL}) == Recovered(before, entries)
    ensures Restored(before, entries, now)
  {
    var all := before + entries;
    forall name | name != LOCAL && name in all ensures Landed(name, all[name], now) {
      assert name in Recovered(before, entries);
      assert now[name] == Sed(all)[name];
      if name == NODE_CONF && all[name].Plain? {
        RewrittenLands(all[name].lines);
      }
    }
    forall name | name != LOCAL && name !in all ensures name !in now {
      assert name !in Recovered(before, entries);
    }
  }

  lemma RewrittenLands(lines: seq<string>)
    ensures forall i | 0 <= i < |lines| :: PointsHere(lines[i], NodeConf.Rewrite(lines)[i])
  {
    forall i | 0 <= i < |lines| ensures PointsHere(lines[i], NodeConf.Rewrite(lines)[i]) {
      RewritePointsHere(lines[i]);
    }
  }

  /** The directories of the first occurrences among the first `k` URLs hold what their archives held,
      file by file, and every other directory is untouched. */
  ghost predicate RestoredUpTo(r: Run, bucket: map<string, File>, start: map<nat, Dir>, k: nat, now: map<nat, Dir>)
    requires k <= |r.Urls()| && AreArchives(r.Urls(), bucket, k)
  {
    && now.Keys == start.Keys
    && (forall j | 0 <= j < k && IsFirst(r.Urls(), j) ::
         && j in start && Restored(start[j], bucket[r.Urls()[j]].entries, now[j])
         && (RemovesWork(r) ==> "redis-bak.tar.gz" !in now[j]))
    && forall j | j in start && (j < k ==> !IsFirst(r.Urls(), j)) :: now[j] == start[j]
  }

  lemma RecoveredIsRestoredUpTo(r: Run, bucket: map<string, File>, start: map<nat, Dir>, k: nat, now: map<nat, Dir>)
    requires k <= |r.Urls()| && RecoveredUpTo(r, bucket, start, k, now)
    ensures RestoredUpTo(r, bucket, start, k, now)
  {
    forall j | 0 <= j < k && IsFirst(r.Urls(), j)
      ensures j in start && Restored(start[j], bucket[r.Urls()[j]].entries, now[j])
      ensures RemovesWork(r) ==> LOCAL !in now[j]
    {
      assert Placed(r.Urls(), RemovesWork(r), bucket, start[j], k, j, now[j]);
      RecoveredIsRestored(start[j], bucket[r.Urls()[j]].entries, now[j]);
    }
    forall j | j in start && (j < k ==> !IsFirst(r.Urls(), j)) ensures now[j] == start[j] {
      assert Placed(r.Urls(), RemovesWork(r), bucket, start[j], k, j, now[j]);
    }
  }

  /** Placement: after a successful recovery `data-j` holds an unpacked archive exactly when URL j is
      the first of its kind, and then that URL's, file by file; every other directory is untouched.
      The script does not look at the status of rm, so the archive itself may have been left too. */
  lemma RecoveryPlacesFirstOccurrences(r: Run, bucket: map<string, File>, start: map<nat, Dir>)
    requires Result(r, bucket, start).Going?
    ensures RecoveredUpTo(r, bucket, start, |r.Urls()|, Result(r, bucket, start).volumes)
    ensures RestoredUpTo(r, bucket, start, |r.Urls()|, Result(r, bucket, start).volumes)
  {
    FetchPhaseRecovers(r, bucket, start, |r.Urls()|);
    RecoveredIsRestoredUpTo(r, bucket, start, |r.Urls()|, Result(r, bucket, start).volumes);
  }

  /** The directory of a fetch that ends the recovery. If the fetch itself has failed, only the fetched
      file can be new. If it was the unpacking, some files of the archive have arrived, and node.conf
      has been rewritten all the same. */
  ghost predicate LeftBy(answer: Answer, bucket: map<string, File>, url: string, before: Dir, part: Dir, now: Dir)
  {
    if !answer.getOk || url !in bucket || "redis-bak.tar.gz" in before then
      now == if answer.junk.Some? && "redis-bak.tar.gz" !in before
             then before["redis-bak.tar.gz" := answer.junk.value] else before
    else
      && (forall name :: name in part <==>
            bucket[url].Archive? && name in bucket[url].entries && name in answer.unpacked)
      && (forall name | name in part :: part[name] == bucket[url].entries[name])
      && Restored(before, part, now)
  }

  lemma FailedFetchLeaves(bucket: map<string, File>, volumes: map<nat, Dir>, url: string, index: nat, answer: Answer)
    returns (part: Dir)
    requires FetchOne(bucket, volumes, url, index, answer).Failed?
    ensures var after := FetchOne(bucket, volumes, url, index, answer).volumes;
      if index !in volumes then after == volumes
      else index in after && LeftBy(answer, bucket, url, volumes[index], part, after[index])
  {
    part := if url in bucket && bucket[url].Archive? then PartOf(bucket[url].entries, answer.unpacked) else map[];
    if index in volumes && answer.getOk && url in bucket && LOCAL !in volumes[index] {
      var dir := volumes[index];
      var now := Sed(dir[LOCAL := bucket[url]] + part);
      assert dir[LOCAL := bucket[url]] + map[] == dir[LOCAL := bucket[url]];
      SedIgnoresLocal(dir[LOCAL := bucket[url]] + part, dir + part);
      RecoveredIsRestored(dir, part, now);
    }
  }

  /** A failed recovery leaves a recovered prefix: the URLs before the failing one are dealt with,
      and of the rest only the failing one's directory may have changed. */
  lemma FailureLeavesRecoveredPrefix(r: Run, bucket: map<string, File>, start: map<nat, Dir>)
    returns (k: nat, done: map<nat, Dir>, part: Dir)
    requires Result(r, bucket, start).Failed?
    ensures !r.setupOk ==> Result(r, bucket, start).volumes == start
    ensures r.setupOk ==>
      && k < |r.Urls()| && AreArchives(r.Urls(), bucket, k) && RestoredUpTo(r, bucket, start, k, done)
      && Result(r, bucket, start).volumes.Keys == start.Keys
      && var index := IndexOf(r.Urls(), r.Urls()[k]);
      && (forall j | j in start && j != index :: Result(r, bucket, start).volumes[j] == done[j])
      && (index in start ==> LeftBy(r.answers(k), bucket, r.Urls()[k], done[index], part,
            Result(r, bucket, start).volumes[index]))
  {
    if r.setupOk {
      k := FetchPhaseStops(r, bucket, start, |r.Urls()|);
      done := FetchPhase(r, bucket, start, k).volumes;
      FetchPhaseRecovers(r, bucket, start, k);
      RecoveredIsRestoredUpTo(r, bucket, start, k, done);
      FetchPhaseStep(r, bucket, start, k);
      part := FailedFetchLeaves(bucket, done, r.Urls()[k], IndexOf(r.Urls(), r.Urls()[k]), r.answers(k));
    } else {
      k, done, part := 0, start, map[];
    }
  }

  /** A leftover makes the next fetch for the same URL fail: a recovery that goes through has removed
      the file of every URL that comes again. */
  lemma LeftoverStopsRepeat(r: Run, bucket: map<string, File>, start: map<nat, Dir>, j: nat, k: nat)
    requires j < k < |r.Urls()| && r.Urls()[j] == r.Urls()[k] && IsFirst(r.Urls(), j) && Result(r, bucket, start).Going?
    ensures j in FetchPhase(r, bucket, start, k).volumes && LOCAL !in FetchPhase(r, bucket, start, k).volumes[j]
  {
    var url, before := r.Urls()[k], FetchPhase(r, bucket, start, k);
    StaysGoing(r, bucket, start, k);
    StaysGoing(r, bucket, start, k + 1);
    FetchPhaseStep(r, bucket, start, k);
    IndexIsFirst(r.Urls(), j);
    FirstIsUnique(r.Urls(), j, IndexOf(r.Urls(), url));
    FetchGoesOn(bucket, before.volumes, url, j, r.answers(k));
  }

  /** A fetch that goes on leaves the fetched file exactly if rm fails; it is the object, unless the
      archive holds a file of that name. */
  lemma FetchLeavesFetched(bucket: map<string, File>, volumes: map<nat, Dir>, url: string, index: nat, answer: Answer)
    requires FetchOne(bucket, volumes, url, index, answer).Going?
    ensures index in FetchOne(bucket, volumes, url, index, answer).volumes && url in bucket && bucket[url].Archive?
    ensures Leftover(bucket[url], answer.rmOk, FetchOne(bucket, volumes, url, index, answer).volumes[index])
  {
  }

  predicate Leftover(archive: File, rmOk: bool, now: Dir)
    requires archive.Archive?
  {
    var name := "redis-bak.tar.gz";
    && (name in now <==> !rmOk)
    && (!rmOk ==> now[name] == if name in archive.entries then archive.entries[name] else archive)
  }

  /** So data-j is left with it exactly if rm fails at the last of the first `k` URLs that equals URL j. */
  lemma {:induction false} LeftoverOfLastFetch(r: Run, bucket: map<string, File>, start: map<nat, Dir>, j: nat, i: nat,
    k: nat)
    requires j <= i < k <= |r.Urls()| && FetchPhase(r, bucket, start, k).Going?
    requires r.Urls()[i] == r.Urls()[j] && IsFirst(r.Urls(), j) && forall l | i < l < k :: r.Urls()[l] != r.Urls()[j]
    ensures j in FetchPhase(r, bucket, start, k).volumes && r.Urls()[j] in bucket && bucket[r.Urls()[j]].Archive?
    ensures Leftover(bucket[r.Urls()[j]], r.answers(i).rmOk, FetchPhase(r, bucket, start, k).volumes[j])
  {
    var n: nat := k - 1;
    var url, before := r.Urls()[n], FetchPhase(r, bucket, start, n);
    assert before.Going?;
    FetchPhaseStep(r, bucket, start, n);
    FetchGoesOn(bucket, before.volumes, url, IndexOf(r.Urls(), url), r.answers(n));
    if n == i {
      IndexIsFirst(r.Urls(), n);
      FirstIsUnique(r.Urls(), j, IndexOf(r.Urls(), url));
      FetchLeavesFetched(bucket, before.volumes, url, j, r.answers(n));
    } else {
      LeftoverOfLastFetch(r, bucket, start, j, i, n);
    }
  }

  lemma FirstIsUnique(urls: seq<string>, j: nat, i: nat)
    requires j < |urls| && i < |urls| && urls[i] == urls[j] && IsFirst(urls, i) && IsFirst(urls, j)
    ensures i == j
  {
  }

  lemma StaysGoing(r: Run, bucket: map<string, File>, start: map<nat, Dir>, k: nat)
    requires k <= |r.Urls()| && Result(r, bucket, start).Going?
    ensures FetchPhase(r, bucket, start, k).Going?
  {
    if FetchPhase(r, bucket, start, k).Failed? {
      FetchPhaseEnds(r, bucket, start, k, |r.Urls()|);
    }
  }

  lemma {:induction false} FetchPhaseStops(r: Run, bucket: map<string, File>, start: map<nat, Dir>, n: nat)
    returns (k: nat)
    requires n <= |r.Urls()| && FetchPhase(r, bucket, start, n).Failed?
    ensures k < n && FetchPhase(r, bucket, start, k).Going? && FetchPhase(r, bucket, start, k + 1).Failed?
  {
    if FetchPhase(r, bucket, start, n - 1).Failed? {
      k := FetchPhaseStops(r, bucket, start, n - 1);
    } else {
      k := n - 1;
    }
  }
}
