/** python/redis_backup.py: one backup of a sentinel cluster's master, and the record it leaves in
    Redis for the controller to sample. */
module PodBackup {
  import opened BackupTypes
  import opened Files

  /** How the commands of one run end. A failed tar may leave part of an archive behind, and `rm`
      some of the files. */
  datatype Commands = Commands(
    tarOk: bool, partial: map<string, File>, sizeText: string, putOk: bool, sent: set<string>, putText: string,
    kept: set<string>, setOk: bool)

  /** An archive of exactly those files whose name has a dot in it but does not start with one. */
  ghost predicate HoldsDotted(file: File, dir: Dir)
  {
    && file.Archive?
    && forall name ::
         && (name in file.entries <==> name in dir && '.' in name && name[0] != '.')
         && (name in file.entries ==> file.entries[name] == dir[name])
  }

  class Script {
    const url: string
    const fileName: string
    const jobName: string
    const podName: string
    const objectName: string
    var data: Dir                     // /data
    var tmp: Dir                      // /tmp
    var bucket: map<string, File>
    var keys: map<string, Payload>    // the cluster's Redis keys
    var expiring: set<string>         // the keys with an expiry

    constructor (url: string, fileName: string, jobName: string, podName: string, objectName: string,
                 data: Dir, tmp: Dir, bucket: map<string, File>, keys: map<string, Payload>)
      requires IsBackup(fileName)
      ensures this.url == url && this.fileName == fileName && this.jobName == jobName
      ensures this.podName == podName && this.objectName == objectName
      ensures this.data == data && this.tmp == tmp && this.bucket == bucket && this.keys == keys && expiring == {}
    {
      this.url, this.fileName, this.jobName, this.podName, this.objectName :=
        url, fileName, jobName, podName, objectName;
      this.data, this.tmp, this.bucket, this.keys, this.expiring := data, tmp, bucket, keys, {};
    }

    /** What /tmp holds once tar has run. */
    ghost function Archived(commands: Commands): (archived: Dir)
      reads this
      ensures forall name | name != fileName ::
        (name in archived <==> name in tmp) && (name in tmp ==> archived[name] == tmp[name])
      ensures commands.tarOk ==> fileName in archived && HoldsDotted(archived[fileName], data)
      ensures !commands.tarOk && fileName in commands.partial ==>
        fileName in archived && archived[fileName] == commands.partial[fileName]
      ensures !commands.tarOk && fileName !in commands.partial ==> archived == tmp
    {
      if commands.tarOk then tmp[fileName := Archive(Dotted(data))]
      else if fileName in commands.partial then tmp[fileName := commands.partial[fileName]]
      else tmp
    }

    /** The tar command (lines 28-32). */
    method TarData(commands: Commands)
      modifies this`tmp
      ensures tmp == old(Archived(commands))
    {
      if commands.tarOk {
        tmp := tmp[fileName := Archive(Dotted(data))];
      } else if fileName in commands.partial {
        tmp := tmp[fileName := commands.partial[fileName]];
      }
    }

    /** Exactly one record, under exactly one path, whatever happens: it says Succeed if and only
        if the upload went through. A failed tar is not noticed. */
    method Backup(commands: Commands, startTime: string, endTime: string) returns (payload: Payload)
      requires IsBackup(fileName)
      modifies this`tmp, this`bucket
      ensures payload.Records? && |payload.list| == 1
      ensures payload.list[0].filePath == url + fileName && payload.list[0].objectName == objectName
      ensures payload.list[0].jobName == jobName && payload.list[0].podName == podName
      ensures payload.list[0].startTime == startTime && payload.list[0].endTime == endTime
      ensures payload.list[0].fileSize == commands.sizeText
      ensures payload.list[0].status == if commands.putOk then "Succeed" else "Failed"
      ensures payload.list[0].message == if commands.putOk then "None" else commands.putText
      ensures commands.putOk && commands.tarOk ==>
        url + fileName in bucket && HoldsDotted(bucket[url + fileName], data)
      ensures commands.putOk ==> forall name ::
        && (name in tmp <==> name in old(Archived(commands)) && ("redis-bak-" <= name ==> name in commands.kept))
        && (name in tmp ==> tmp[name] == old(Archived(commands))[name])
      ensures !commands.putOk ==> tmp == old(Archived(commands))
      ensures forall name | name in old(Archived(commands)) && "redis-bak-" <= name ::
        commands.putOk || name in commands.sent ==>
          url + name in bucket && bucket[url + name] == old(Archived(commands))[name]
      ensures bucket == Put(old(bucket), old(Archived(commands)),
                            if commands.putOk then Backups(old(Archived(commands))) else commands.sent, url)
    {
      TarData(commands);
      var sent := if commands.putOk then Backups(tmp) else commands.sent;
      PutKeeps(bucket, tmp, sent, url);
      PutAt(bucket, tmp, sent, url, fileName);
      bucket := Put(bucket, tmp, sent, url);
      if !commands.putOk {
        return Records([Condition(url + fileName, commands.sizeText, jobName, podName, objectName,
                                  startTime, endTime, "Failed", commands.putText)]);
      }
      tmp := Without(tmp, Backups(tmp) - commands.kept);
      payload := Records([Condition(url + fileName, commands.sizeText, jobName, podName, objectName,
                                    startTime, endTime, "Succeed", "None")]);
    }

    /** redis_conn: the key is overwritten; only the key of a single backup expires. A failing
        connection is printed and otherwise ignored. */
    method RedisConn(keyName: string, payload: Payload, setOk: bool)
      modifies this`keys, this`expiring
      ensures keys == if setOk then old(keys)[keyName := payload] else old(keys)
      ensures expiring == if setOk && keyName != "backupCronjob" then old(expiring) + {keyName} else old(expiring)
    {
      if setOk {
        keys := keys[keyName := payload];
        if keyName != "backupCronjob" {
          expiring := expiring + {keyName};
        }
      }
    }

    /** The whole script: the key holds one well-formed record of this run afterwards, which is
        all that the controller's `condition[0]` needs, or what it held before. */
    method Run(keyName: string, commands: Commands, startTime: string, endTime: string)
      requires IsBackup(fileName)
      modifies this
      ensures commands.setOk ==>
        && keyName in keys && keys[keyName].Records? && |keys[keyName].list| == 1
        && keys[keyName].list[0].filePath == url + fileName
        && (keys[keyName].list[0].status == "Succeed" <==> commands.putOk)
        && (commands.putOk && commands.tarOk ==>
              keys[keyName].list[0].filePath in bucket &&
              HoldsDotted(bucket[keys[keyName].list[0].filePath], old(data)))
      ensures !commands.setOk ==> keys == old(keys)
      ensures forall k | k != keyName :: (k in keys <==> k in old(keys)) && (k in keys ==> keys[k] == old(keys)[k])
    {
      var payload := Backup(commands, startTime, endTime);
      RedisConn(keyName, payload, commands.setOk);
    }
  }
}
