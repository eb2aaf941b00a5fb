/** The RedisBackup resource and the cluster objects its handlers read and write. */
module BackupTypes {

  /** What a backup was, or should be, built from (api/v1alpha1/redisbackup_types.go). */
  datatype LastBackupInfo = LastBackupInfo(secretName: string, url: string, schedule: string)

  const NO_INFO := LastBackupInfo("", "", "")

  datatype Spec = Spec(clusterName: string, secretName: string, url: string, schedule: string)
  {
    function Info(): LastBackupInfo
    {
      LastBackupInfo(secretName, url, schedule)
    }

    /** An empty schedule asks for a single Job, any other one for a CronJob. */
    predicate Periodic()
    {
      schedule != ""
    }
  }

  /** One backup record, as the backup script writes it and the status lists it. */
  datatype Condition = Condition(
    filePath: string, fileSize: string, jobName: string, podName: string, objectName: string,
    startTime: string, endTime: string, status: string, message: string)

  datatype Status = Status(lastBackupInfo: LastBackupInfo, conditions: seq<Condition>)

  datatype RedisBackup = RedisBackup(spec: Spec, status: Status)

  datatype CronJob = CronJob(
    clusterLabel: string, schedule: string, url: string, secretName: string, claim: string)
  {
    /** The backup information this CronJob was built from. */
    function Info(): LastBackupInfo
    {
      LastBackupInfo(secretName, url, schedule)
    }
  }

  datatype Job = Job(clusterLabel: string, url: string, secretName: string, claim: string)

  /** utils/cronjob.go: what the CronJob created for a spec and a volume claim records. */
  function MakeCronJob(spec: Spec, claim: string): CronJob
  {
    CronJob(spec.clusterName, spec.schedule, spec.url, spec.secretName, claim)
  }

  function MakeJob(spec: Spec, claim: string): Job
  {
    Job(spec.clusterName, spec.url, spec.secretName, claim)
  }

  /** The role label, the phase and the claim of the first volume of a pod. */
  datatype Pod = Pod(role: string, phase: string, claim: string)

  datatype Selection = NoMaster | NotRunning | Claim(name: string)

  /** The volume claim to back up: the first pod labelled master decides. */
  function Select(pods: seq<Pod>): Selection
  {
    if pods == [] then NoMaster
    else if pods[0].role != "master" then Select(pods[1..])
    else if pods[0].phase != "Running" then NotRunning
    else if pods[0].claim == "" then NoMaster
    else Claim(pods[0].claim)
  }

  /** Only the first master-labelled pod counts: the pods before it and after it do not matter. */
  lemma {:induction false} SelectIsDecidedByFirstMaster(pods: seq<Pod>, i: nat)
    requires i <= |pods|
    requires forall j | 0 <= j < i :: pods[j].role != "master"
    requires i < |pods| ==> pods[i].role == "master"
    ensures Select(pods) ==
      if i == |pods| then NoMaster
      else if pods[i].phase != "Running" then NotRunning
      else if pods[i].claim == "" then NoMaster
      else Claim(pods[i].claim)
  {
    if i > 0 {
      assert pods[0].role != "master";
      SelectIsDecidedByFirstMaster(pods[1..], i - 1);
    }
  }

  /** The text stored under a Redis key: absent or empty, not a list of records, or a list. */
  datatype Payload = Nothing | Garbled | Records(list: seq<Condition>)
}
