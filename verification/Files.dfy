/** Directories, archives and the object store, as far as the backup scripts use them. */
module Files {

  datatype File = Plain(lines: seq<string>) | Archive(entries: map<string, File>)

  type Dir = map<string, File>

  /** The shell's `redis-bak-*`. */
  predicate IsBackup(name: string)
  {
    "redis-bak-" <= name
  }

  /** The shell's `*` skips hidden files. */
  predicate IsVisible(name: string)
  {
    name != "" && name[0] != '.'
  }

  function Visible(dir: Dir): Dir
  {
    map name | name in dir && IsVisible(name) :: dir[name]
  }

  /** `tar -zcvf ... *` */
  function Tar(dir: Dir): File
  {
    Archive(Visible(dir))
  }

  /** The shell's `*.*`: visible names with a dot in them. */
  function Dotted(dir: Dir): Dir
  {
    map name | name in dir && IsVisible(name) && '.' in name :: dir[name]
  }

  function Backups(dir: Dir): set<string>
  {
    set name | name in dir && IsBackup(name)
  }

  function Without(dir: Dir, names: set<string>): Dir
  {
    dir - names
  }

  /** `s3cmd put redis-bak-* <url>`, of which these files arrived; the URL ends in a slash. */
  function Put(bucket: map<string, File>, dir: Dir, sent: set<string>, url: string): map<string, File>
  {
    var keys := set name | name in Backups(dir) && name in sent :: url + name;
    bucket + map key | key in keys :: Sent(dir, sent, url, key)
  }

  function Sent(dir: Dir, sent: set<string>, url: string, key: string): File
    requires exists name :: name in Backups(dir) && name in sent && key == url + name
  {
    var name := key[|url|..];
    assert exists n :: n in Backups(dir) && n in sent && n == name by {
      var n :| n in Backups(dir) && n in sent && key == url + n;
      assert key[|url|..] == n;
    }
    dir[name]
  }

  /** An object is one of the sent files if its key is the URL and the file's name; every other
      object is what it was. */
  lemma PutAt(bucket: map<string, File>, dir: Dir, sent: set<string>, url: string, name: string)
    ensures var after := Put(bucket, dir, sent, url);
      if name in dir && "redis-bak-" <= name && name in sent
      then url + name in after && after[url + name] == dir[name]
      else
        && (url + name in after <==> url + name in bucket)
        && (url + name in bucket ==> after[url + name] == bucket[url + name])
  {
    var keys := set n | n in Backups(dir) && n in sent :: url + n;
    assert (url + name)[|url|..] == name;
    forall n | n in Backups(dir) && n in sent && url + n == url + name ensures n == name {
      assert (url + n)[|url|..] == n;
    }
  }

  /** Nothing is removed, and keys that do not start with the URL are not touched. */
  lemma PutKeeps(bucket: map<string, File>, dir: Dir, sent: set<string>, url: string)
    ensures bucket.Keys <= Put(bucket, dir, sent, url).Keys
    ensures forall key | key in Put(bucket, dir, sent, url) && !(url <= key) ::
      key in bucket && Put(bucket, dir, sent, url)[key] == bucket[key]
  {
  }
}
