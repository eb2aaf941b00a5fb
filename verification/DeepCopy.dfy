/** api/v1alpha1/zz_generated.deepcopy.go: copies of a list of backups, each with arrays of its own. */
module DeepCopy {
  import opened Wrappers
  import opened BackupTypes

  datatype JobStatus = JobStatus(completed: bool)

  /** Go slices are references: a status shares its arrays with every plain copy of it. */
  datatype StatusRef = StatusRef(jobStatus: array?<JobStatus>, lastBackupInfo: LastBackupInfo,
    conditions: array?<Condition>)

  datatype BackupRef = BackupRef(meta: string, spec: Spec, status: StatusRef)

  // ---------------------------------------------------------------- what they stand for

  datatype StatusValue = StatusValue(jobStatus: Option<seq<JobStatus>>, lastBackupInfo: LastBackupInfo,
    conditions: Option<seq<Condition>>)

  datatype BackupValue = BackupValue(meta: string, spec: Spec, status: StatusValue)

  /** The elements of a slice; a nil slice is not an empty one. */
  function Elements<T>(a: array?<T>): Option<seq<T>>
    reads a
  {
    if a == null then None else Some(a[..])
  }

  ghost function Storage<T>(a: array?<T>): set<object>
  {
    if a == null then {}
    else
      var storage: object := a;
      {storage}
  }

  ghost function Arrays(backup: BackupRef): set<object>
  {
    Storage(backup.status.jobStatus) + Storage(backup.status.conditions)
  }

  ghost function AllArrays(items: seq<BackupRef>): set<object>
  {
    set i, a | 0 <= i < |items| && a in Arrays(items[i]) :: a
  }

  ghost function ValueOf(backup: BackupRef): BackupValue
    reads Arrays(backup)
  {
    BackupValue(backup.meta, backup.spec,
                StatusValue(Elements(backup.status.jobStatus), backup.status.lastBackupInfo,
                  Elements(backup.status.conditions)))
  }

  ghost function ValuesOf(items: seq<BackupRef>): seq<BackupValue>
    reads AllArrays(items)
  {
    seq(|items|, i requires 0 <= i < |items| reads AllArrays(items) =>
      assert Arrays(items[i]) <= AllArrays(items);
      ValueOf(items[i]))
  }

  /** No two backups of the list share an array. */
  ghost predicate Separate(items: seq<BackupRef>)
  {
    forall i, j | 0 <= i < j < |items| :: Arrays(items[i]) !! Arrays(items[j])
  }

  // ---------------------------------------------------------------- the copies

  /** `make` and `copy`; nil stays nil (lines 244-248 and 250-254). */
  method CopySlice<T>(a: array?<T>) returns (b: array?<T>)
    ensures a == null <==> b == null
    ensures b != null ==> fresh(b)
    ensures Elements(b) == Elements(a)
  {
    if a == null {
      return null;
    }
    b := new T[a.Length](i requires 0 <= i < a.Length reads a => a[i]);
    assert b[..] == a[..];
  }

  /** RedisBackupStatus.DeepCopyInto and RedisBackup.DeepCopyInto (lines 242-255 and 168-174). */
  method CopyBackup(backup: BackupRef) returns (copied: BackupRef)
    ensures fresh(Arrays(copied))
    ensures ValueOf(copied) == ValueOf(backup)
  {
    var jobStatus := CopySlice(backup.status.jobStatus);
    var conditions := CopySlice(backup.status.conditions);
    copied := backup.(status := StatusRef(jobStatus, backup.status.lastBackupInfo, conditions));
  }

  lemma SameValues(copies: seq<BackupRef>, items: seq<BackupRef>)
    requires |copies| == |items| && forall j | 0 <= j < |items| :: ValueOf(copies[j]) == ValueOf(items[j])
    ensures ValuesOf(copies) == ValuesOf(items)
  {
    assert forall j | 0 <= j < |items| :: ValuesOf(copies)[j] == ValuesOf(items)[j];
  }

  class BackupList {
    var meta: string
    var items: array?<BackupRef>

    constructor (meta: string, items: array?<BackupRef>)
      ensures this.meta == meta && this.items == items
    {
      this.meta, this.items := meta, items;
    }

    ghost function Items(): seq<BackupRef>
      reads this, items
    {
      if items == null then [] else items[..]
    }

    ghost function Repr(): set<object>
      reads this, items
    {
      {this} + Storage(items) + AllArrays(Items())
    }

    ghost function Value(): (string, Option<seq<BackupValue>>)
      reads Repr()
    {
      (meta, if items == null then None else Some(ValuesOf(items[..])))
    }

    /** RedisBackupList.DeepCopyInto (lines 195-206): `out` gets an equal value in storage of its
        own, in which no two backups share anything even if they do in the original. */
    method DeepCopyInto(out: BackupList)
      requires out != this && out !in Repr()
      modifies out
      ensures Value() == old(Value()) && Repr() == old(Repr()) && items == old(items)
      ensures out.Value() == Value()
      ensures fresh(out.Repr() - {out}) && Separate(out.Items())
    {
      out.meta, out.items := meta, items;
      if items != null {
        out.items := CopyItems(items);
        assert ValuesOf(out.items[..]) == ValuesOf(items[..]);
      }
    }
  }

  /** `make` and the loop over the items (lines 200-204). */
  method CopyItems(items: array<BackupRef>) returns (copies: array<BackupRef>)
    ensures fresh(copies) && fresh(AllArrays(copies[..])) && copies !in AllArrays(copies[..])
    ensures ValuesOf(copies[..]) == ValuesOf(items[..]) && Separate(copies[..])
  {
    var n := items.Length;
    copies := new BackupRef[n](i requires 0 <= i < n && n == items.Length reads items => items[i]);
    ghost var made: set<object> := {};
    var i := 0;
    while i < n
      invariant i <= n && fresh(made) && copies !in made
      invariant forall j | 0 <= j < i :: Arrays(copies[j]) <= made && ValueOf(copies[j]) == ValueOf(items[j])
      invariant forall j, k | 0 <= j < k < i :: Arrays(copies[j]) !! Arrays(copies[k])
    {
      var copied := CopyBackup(items[i]);
      assert Arrays(copied) !! made;
      copies[i] := copied;
      made := made + Arrays(copied);
      i := i + 1;
    }
    assert AllArrays(copies[..]) <= made;
    SameValues(copies[..], items[..]);
  }

  // ---------------------------------------------------------------- writes

  lemma ArraysInRepr(list: BackupList, i: nat)
    requires list.items != null && i < list.items.Length
    ensures Arrays(list.items[i]) <= list.Repr()
  {
    assert list.Items()[i] == list.items[i];
    assert Arrays(list.Items()[i]) <= AllArrays(list.Items());
  }

  /** Writing a condition of one list: the item has it, and a list that shares nothing with this one
      does not change at all, whatever is shared inside. So neither side of a deep copy sees the
      other's writes. The items of this list that do not share the array keep their values. */
  method WriteCondition(list: BackupList, other: BackupList, i: nat, j: nat, condition: Condition)
    requires list.items != null && i < list.items.Length
    requires list.items[i].status.conditions != null && j < list.items[i].status.conditions.Length
    requires list.Repr() !! other.Repr()
    modifies list.items[i].status.conditions
    ensures other.Value() == old(other.Value())
    ensures list.items == old(list.items) && list.items != null && list.items[..] == old(list.items[..])
    ensures ValueOf(list.items[i]).status.conditions == Some(old(list.items[i].status.conditions[..])[j := condition])
    ensures forall k | 0 <= k < list.items.Length && old(list.items[i].status.conditions) !in Arrays(list.items[k]) ::
      ValueOf(list.items[k]) == old(ValueOf(list.items[k]))
  {
    ArraysInRepr(list, i);
    list.items[i].status.conditions[j] := condition;
  }

  /** The same for an element of the job status. */
  method WriteJobStatus(list: BackupList, other: BackupList, i: nat, j: nat, job: JobStatus)
    requires list.items != null && i < list.items.Length
    requires list.items[i].status.jobStatus != null && j < list.items[i].status.jobStatus.Length
    requires list.Repr() !! other.Repr()
    modifies list.items[i].status.jobStatus
    ensures other.Value() == old(other.Value())
    ensures list.items == old(list.items) && list.items != null && list.items[..] == old(list.items[..])
    ensures ValueOf(list.items[i]).status.jobStatus == Some(old(list.items[i].status.jobStatus[..])[j := job])
    ensures forall k | 0 <= k < list.items.Length && old(list.items[i].status.jobStatus) !in Arrays(list.items[k]) ::
      ValueOf(list.items[k]) == old(ValueOf(list.items[k]))
  {
    ArraysInRepr(list, i);
    list.items[i].status.jobStatus[j] := job;
  }

  /** Where no two items share an array, as in every copy, the other items keep their values. */
  lemma SeparateItems(list: BackupList, i: nat, k: nat)
    requires list.items != null && Separate(list.Items()) && i < list.items.Length && k < list.items.Length && k != i
    ensures Arrays(list.items[i]) !! Arrays(list.items[k])
  {
    if k < i {
      assert Arrays(list.Items()[k]) !! Arrays(list.Items()[i]);
    } else {
      assert Arrays(list.Items()[i]) !! Arrays(list.Items()[k]);
    }
  }

  /** An item of a copied list has the value of the original's, in storage of the copy. */
  lemma CopiedItem(list: BackupList, out: BackupList, i: nat)
    requires list.items != null && i < list.items.Length && out.Value() == list.Value()
    ensures out.items != null && out.items.Length == list.items.Length
    ensures ValueOf(out.items[i]) == ValueOf(list.items[i])
    ensures Elements(out.items[i].status.conditions) == Elements(list.items[i].status.conditions)
    ensures Elements(out.items[i].status.jobStatus) == Elements(list.items[i].status.jobStatus)
  {
    assert out.Value().1.value[i] == list.Value().1.value[i];
  }

  /** A write to a copy changes one item of it, and nothing of the original. */
  method WriteToCopy(list: BackupList, out: BackupList, i: nat, j: nat, condition: Condition)
    requires list.items != null && out.items != null && out.items.Length == list.items.Length
    requires out.Value() == list.Value() && Separate(out.Items()) && out.Repr() !! list.Repr()
    requires i < out.items.Length && out.items[i].status.conditions != null && j < out.items[i].status.conditions.Length
    modifies out.items[i].status.conditions
    ensures list.Value() == old(list.Value())
    ensures out.items == old(out.items) && out.items != null && out.items[..] == old(out.items[..])
    ensures ValueOf(out.items[i]).status.conditions == Some(old(out.items[i].status.conditions[..])[j := condition])
    ensures forall k | 0 <= k < out.items.Length && k != i :: ValueOf(out.items[k]) == old(ValueOf(out.items[k]))
  {
    forall k | 0 <= k < out.items.Length && k != i ensures out.items[i].status.conditions !in Arrays(out.items[k]) {
      SeparateItems(out, i, k);
    }
    WriteCondition(out, list, i, j, condition);
  }

  /** Copy, then write to the copy: the original keeps its value, and the copy differs in one item. */
  method CopyThenWrite(list: BackupList, out: BackupList, i: nat, j: nat, condition: Condition)
    requires out != list && out !in list.Repr() && list.items != null && i < list.items.Length
    requires list.items[i].status.conditions != null && j < list.items[i].status.conditions.Length
    modifies out
    ensures list.Value() == old(list.Value())
    ensures out.items != null && out.items.Length == list.items.Length
    ensures ValueOf(out.items[i]).status.conditions == Some(old(list.items[i].status.conditions[..])[j := condition])
    ensures forall k | 0 <= k < out.items.Length && k != i :: ValueOf(out.items[k]) == old(list.Value()).1.value[k]
  {
    ghost var before := list.items[i].status.conditions[..];
    list.DeepCopyInto(out);
    CopiedItem(list, out, i);
    ArraysInRepr(out, i);
    assert |out.items[i].status.conditions[..]| == |before|;
    WriteToCopy(list, out, i, j, condition);
  }

  /** Copy, then write to the original: the copy keeps the value that was copied, even if items of the
      original share the array. */
  method CopyThenWriteOriginal(list: BackupList, out: BackupList, i: nat, j: nat, condition: Condition)
    requires out != list && out !in list.Repr() && list.items != null && i < list.items.Length
    requires list.items[i].status.conditions != null && j < list.items[i].status.conditions.Length
    modifies out, list.items[i].status.conditions
    ensures out.Value() == old(list.Value())
    ensures list.items == old(list.items) && list.items != null && list.items[..] == old(list.items[..])
    ensures ValueOf(list.items[i]).status.conditions == Some(old(list.items[i].status.conditions[..])[j := condition])
  {
    list.DeepCopyInto(out);
    WriteCondition(list, out, i, j, condition);
  }
}
