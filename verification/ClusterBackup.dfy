/** python/redis_cluster_backup.py: archive every primary's volume, then upload every archive, and
    take the uploads back if one of them fails. */
module ClusterBackup {
  import opened Wrappers
  import opened Files

  datatype Store = Store(disk: map<string, Dir>, bucket: map<string, File>)

  /** A failed tar may leave part of an archive; `du` may print something that is no number. */
  datatype TarAnswer = TarAnswer(ok: bool, partial: Option<File>, size: Option<nat>)

  /** A failed put may have sent some of the files; `rm` may leave some behind. */
  datatype PutAnswer = PutAnswer(ok: bool, sent: set<string>, kept: set<string>)

  datatype Cause = NoCause | WrongCount | TarFailed(dir: string) | UploadFailed(dir: string)

  datatype Report = Report(filePath: seq<string>, fileSize: nat, status: string, cause: Cause)

  /** Aborted: an exception before any report was written. */
  datatype Outcome = Succeed | Failed | Aborted

  /** One run of the script: its names, the lines of `ls / | grep data`, and how its commands end. */
  datatype Run = Run(
    base: string, url: string, listing: seq<string>, primaries: Option<nat>,
    tars: string -> TarAnswer, puts: string -> PutAnswer, deletes: string -> bool)
  {
    function Name(dir: string): string
    {
      base + "-" + dir + ".tar.gz"
    }

    function Path(dir: string): string
    {
      url + Name(dir)
    }
  }

  function Paths(r: Run, dirs: seq<string>): (paths: seq<string>)
    ensures |paths| == |dirs| && forall i | 0 <= i < |dirs| :: paths[i] == r.Path(dirs[i])
  {
    seq(|dirs|, i requires 0 <= i < |dirs| => r.Path(dirs[i]))
  }

  /** A phase goes on with the files archived so far and their size, or has ended the script. */
  datatype Progress =
    | Going(store: Store, list: seq<string>, size: nat)
    | Ended(store: Store, outcome: Outcome, report: Option<Report>)

  // ---------------------------------------------------------------- the two phases, one directory at a time

  function TarOne(r: Run, store: Store, list: seq<string>, size: nat, dir: string): Progress
  {
    if dir !in store.disk then Ended(store, Aborted, None)
    else
      var answer := r.tars(dir);
      var content := store.disk[dir];
      if !answer.ok then
        var left := if answer.partial.Some? then store.disk[dir := content[r.Name(dir) := answer.partial.value]]
          else store.disk;
        Ended(store.(disk := left), Failed, Some(Report(list, 0, "Failed", TarFailed(dir))))
      else
        var archived := store.(disk := store.disk[dir := content[r.Name(dir) := Tar(content)]]);
        if answer.size.None? then Ended(archived, Aborted, None)
        else Going(archived, list + [r.Path(dir)], size + answer.size.value)
  }

  function TarPhase(r: Run, store: Store, k: nat): Progress
    requires k <= |r.listing|
  {
    if k == 0 then Going(store, [], 0)
    else
      var before := TarPhase(r, store, k - 1);
      if before.Ended? then before else TarOne(r, before.store, before.list, before.size, r.listing[k - 1])
  }

  /** Every listed object whose delete succeeds goes; the script does not look at the status. */
  function Deleted(r: Run, list: seq<string>): set<string>
  {
    set path | path in list && r.deletes(path)
  }

  function UploadOne(r: Run, store: Store, list: seq<string>, size: nat, dir: string): Progress
  {
    if dir !in store.disk then Ended(store, Aborted, None)
    else
      var answer := r.puts(dir);
      var content := store.disk[dir];
      if !answer.ok then
        var bucket := Put(store.bucket, content, answer.sent, r.url);
        Ended(store.(bucket := bucket - Deleted(r, list)), Failed, Some(Report(list, 0, "Failed", UploadFailed(dir))))
      else
        Going(Store(store.disk[dir := Without(content, Backups(content) - answer.kept)],
                    Put(store.bucket, content, Backups(content), r.url)),
              list, size)
  }

  function UploadPhase(r: Run, store: Store, list: seq<string>, size: nat, k: nat): Progress
    requires k <= |r.listing|
  {
    if k == 0 then Going(store, list, size)
    else
      var before := UploadPhase(r, store, list, size, k - 1);
      if before.Ended? then before else UploadOne(r, before.store, list, size, r.listing[k - 1])
  }

  /** The whole script. */
  function Result(r: Run, store: Store): (end: Progress)
    ensures end.Ended?
  {
    if r.primaries.None? then Ended(store, Aborted, None)
    else if |r.listing| != r.primaries.value then Ended(store, Failed, Some(Report([], 0, "Failed", WrongCount)))
    else
      var archived := TarPhase(r, store, |r.listing|);
      if archived.Ended? then archived
      else
        var uploaded := UploadPhase(r, archived.store, archived.list, archived.size, |r.listing|);
        if uploaded.Ended? then uploaded
        else Ended(uploaded.store, Succeed, Some(Report(archived.list, archived.size, "Succeed", NoCause)))
  }

  // ---------------------------------------------------------------- the script

  /** A Python list: `backup_data["filePath"]` and `backup_file_list` are one object. */
  class PathList {
    var items: seq<string>

    constructor ()
      ensures items == []
    {
      items := [];
    }
  }

  /** The dictionary `backup_data`. */
  class BackupData {
    const filePath: PathList
    var fileSize: nat
    var status: string
    var cause: Cause

    constructor (filePath: PathList)
      ensures this.filePath == filePath && fileSize == 0 && status == "Failed" && cause == NoCause
    {
      this.filePath := filePath;
      fileSize, status, cause := 0, "Failed", NoCause;
    }

    /** What json.dumps makes of it now. */
    function Dump(): Report
      reads this, filePath
    {
      Report(filePath.items, fileSize, status, cause)
    }
  }

  class Script {
    const r: Run
    var disk: map<string, Dir>
    var bucket: map<string, File>
    var reports: seq<Report>      // the values redis_conn was called with

    constructor (r: Run, disk: map<string, Dir>, bucket: map<string, File>)
      ensures this.r == r && this.disk == disk && this.bucket == bucket && reports == []
    {
      this.r, this.disk, this.bucket, this.reports := r, disk, bucket, [];
    }

    function State(): Store
      reads this
    {
      Store(disk, bucket)
    }

    /** The script ends like this: in this state, with this outcome, and with at most one more report. */
    twostate predicate EndsLike(end: Progress, outcome: Outcome)
      reads this
    {
      && end.Ended? && outcome == end.outcome && State() == end.store
      && reports == old(reports) + if end.report.Some? then [end.report.value] else []
    }

    /** backup(keyname), lines 24-86. */
    method Backup() returns (outcome: Outcome)
      modifies this
      ensures EndsLike(Result(r, old(State())), outcome)
    {
      ghost var start := State();
      var fileSize: nat := 0;
      var list := new PathList();
      var data := new BackupData(list);
      if r.primaries.None? {
        return Aborted;
      }
      if |r.listing| != r.primaries.value {
        data.cause := WrongCount;
        reports := reports + [data.Dump()];
        return Failed;
      }
      var k := 0;
      while k < |r.listing|
        invariant k <= |r.listing| && fresh(list) && fresh(data) && data.filePath == list && list as object != this
        invariant data.fileSize == 0 && data.status == "Failed" && data.cause == NoCause
        invariant TarPhase(r, start, k) == Going(State(), list.items, fileSize)
        invariant reports == old(reports)
      {
        var dir := r.listing[k];
        TarPhaseStep(r, start, k);
        if dir !in disk {
          return Aborted;
        }
        var answer := r.tars(dir);
        if !answer.ok {
          if answer.partial.Some? {
            disk := disk[dir := disk[dir][r.Name(dir) := answer.partial.value]];
          }
          data.cause := TarFailed(dir);
          reports := reports + [data.Dump()];
          return Failed;
        }
        disk := disk[dir := disk[dir][r.Name(dir) := Tar(disk[dir])]];
        list.items := list.items + [r.Path(dir)];
        if answer.size.None? {
          return Aborted;
        }
        fileSize := fileSize + answer.size.value;
        k := k + 1;
      }
      outcome := Upload(list, data, fileSize, State());
    }

    /** The second loop and the final report, lines 60-84. */
    method Upload(list: PathList, data: BackupData, fileSize: nat, ghost archived: Store) returns (outcome: Outcome)
      requires data.filePath == list && list as object != this && data.fileSize == 0
      requires data.status == "Failed" && data.cause == NoCause && archived == State()
      modifies this, data
      ensures var uploaded := UploadPhase(r, archived, list.items, fileSize, |r.listing|);
        EndsLike(if uploaded.Ended? then uploaded
                 else Ended(uploaded.store, Succeed, Some(Report(list.items, fileSize, "Succeed", NoCause))), outcome)
    {
      var k := 0;
      while k < |r.listing|
        invariant k <= |r.listing|
        invariant data.fileSize == 0 && data.status == "Failed" && data.cause == NoCause
        invariant UploadPhase(r, archived, list.items, fileSize, k) == Going(State(), list.items, fileSize)
        invariant reports == old(reports)
      {
        var dir := r.listing[k];
        UploadPhaseStep(r, archived, list.items, fileSize, k);
        if dir !in disk {
          return Aborted;
        }
        var answer := r.puts(dir);
        bucket := Put(bucket, disk[dir], if answer.ok then Backups(disk[dir]) else answer.sent, r.url);
        if !answer.ok {
          data.cause := UploadFailed(dir);
          Compensate(list.items);
          reports := reports + [data.Dump()];
          return Failed;
        }
        disk := disk[dir := Without(disk[dir], Backups(disk[dir]) - answer.kept)];
        k := k + 1;
      }
      data.status := "Succeed";
      data.fileSize := fileSize;
      reports := reports + [data.Dump()];
      outcome := Succeed;
    }

    /** The loop of `s3cmd del` over everything archived by this run, lines 69-74. */
    method Compensate(list: seq<string>)
      modifies this`bucket
      ensures bucket == old(bucket) - Deleted(r, list)
    {
      var i := 0;
      while i < |list|
        invariant i <= |list|
        invariant bucket == old(bucket) - Deleted(r, list[..i])
      {
        assert list[..i + 1] == list[..i] + [list[i]];
        assert Deleted(r, list[..i + 1]) == Deleted(r, list[..i]) + if r.deletes(list[i]) then {list[i]} else {};
        if r.deletes(list[i]) {
          bucket := bucket - {list[i]};
        }
        i := i + 1;
      }
      assert list[..|list|] == list;
    }
  }

  /** A phase that has ended stays ended. */
  lemma {:induction false} TarPhaseEnds(r: Run, store: Store, k: nat, n: nat)
    requires k <= n <= |r.listing| && TarPhase(r, store, k).Ended?
    ensures TarPhase(r, store, n) == TarPhase(r, store, k)
    decreases n - k
  {
    if k < n {
      TarPhaseEnds(r, store, k, n - 1);
    }
  }

  lemma TarPhaseStep(r: Run, store: Store, k: nat)
    requires k < |r.listing| && TarPhase(r, store, k).Going?
    ensures var now := TarPhase(r, store, k);
      TarPhase(r, store, k + 1) == TarOne(r, now.store, now.list, now.size, r.listing[k])
    ensures TarPhase(r, store, k + 1).Ended? ==> TarPhase(r, store, |r.listing|) == TarPhase(r, store, k + 1)
  {
    if TarPhase(r, store, k + 1).Ended? {
      TarPhaseEnds(r, store, k + 1, |r.listing|);
    }
  }

  lemma {:induction false} UploadPhaseEnds(r: Run, store: Store, list: seq<string>, size: nat, k: nat, n: nat)
    requires k <= n <= |r.listing| && UploadPhase(r, store, list, size, k).Ended?
    ensures UploadPhase(r, store, list, size, n) == UploadPhase(r, store, list, size, k)
    decreases n - k
  {
    if k < n {
      UploadPhaseEnds(r, store, list, size, k, n - 1);
    }
  }

  lemma UploadPhaseStep(r: Run, store: Store, list: seq<string>, size: nat, k: nat)
    requires k < |r.listing| && UploadPhase(r, store, list, size, k).Going?
    ensures UploadPhase(r, store, list, size, k + 1)
         == UploadOne(r, UploadPhase(r, store, list, size, k).store, list, size, r.listing[k])
    ensures UploadPhase(r, store, list, size, k + 1).Ended? ==>
      UploadPhase(r, store, list, size, |r.listing|) == UploadPhase(r, store, list, size, k + 1)
  {
    if UploadPhase(r, store, list, size, k + 1).Ended? {
      UploadPhaseEnds(r, store, list, size, k + 1, |r.listing|);
    }
  }
}
