/**
 * The local proof store: for each task key, a dictionary from a `YYYY-MM-DD` date key to the
 * metadata of the proof uploaded that day. The inner dictionary is a JavaScript object, whose
 * values come back in key insertion order (date keys are never array-index-like), so it is
 * modelled as an association list in that order.
 */
module ProofStore {
  import opened Options
  import opened TaskKeys
  import opened LocalStorage
  import opened StableSort

  datatype TaskProof = TaskProof(ipfsUrl: string, timestamp: int, fileName: string)

  datatype DatedProof = DatedProof(date: string, proof: TaskProof)

  /** One task's `{ [date]: TaskProof }` object, in key insertion order. */
  type DayTable = seq<DatedProof>

  /** `TaskProofMapping`: task key to that task's day table. */
  type ProofMapping = map<string, DayTable>

  function Dates(t: DayTable): (r: seq<string>)
    ensures |r| == |t|
    ensures forall i :: 0 <= i < |t| ==> r[i] == t[i].date
  {
    if t == [] then [] else [t[0].date] + Dates(t[1..])
  }

  /** `Object.values(t)`. */
  function Values(t: DayTable): (r: seq<TaskProof>)
    ensures |r| == |t|
    ensures forall i :: 0 <= i < |t| ==> r[i] == t[i].proof
  {
    if t == [] then [] else [t[0].proof] + Values(t[1..])
  }

  /** An object has each key at most once. */
  ghost predicate DistinctDates(t: DayTable) {
    forall i, j :: 0 <= i < j < |t| ==> t[i].date != t[j].date
  }

  /** `t[date]`. */
  function Lookup(t: DayTable, date: string): (r: Option<TaskProof>)
    ensures r.Some? <==> date in Dates(t)
    ensures r.Some? ==> exists i :: 0 <= i < |t| && t[i] == DatedProof(date, r.value)
  {
    if t == [] then None
    else if t[0].date == date then Some(t[0].proof)
    else
      var r := Lookup(t[1..], date);
      assert Dates(t) == [t[0].date] + Dates(t[1..]);
      if r.Some? then
        var i :| 0 <= i < |t[1..]| && t[1..][i] == DatedProof(date, r.value);
        assert t[i + 1] == DatedProof(date, r.value);
        r
      else r
  }

  /** `t[date] = p`: an existing key keeps its place and takes the new value, a new key is added last. */
  function Put(t: DayTable, date: string, p: TaskProof): (r: DayTable)
    ensures |r| >= 1
    ensures |t| <= |r| <= |t| + 1
    ensures |r| == |t| + 1 ==> r[|t|] == DatedProof(date, p) && r[..|t|] == t
  {
    if t == [] then [DatedProof(date, p)]
    else if t[0].date == date then [DatedProof(date, p)] + t[1..]
    else [t[0]] + Put(t[1..], date, p)
  }

  /** After `t[date] = p`, `date` holds `p` and every other date holds what it held before. */
  lemma {:induction false} PutLookup(t: DayTable, date: string, p: TaskProof, d: string)
    ensures Lookup(Put(t, date, p), d) == if d == date then Some(p) else Lookup(t, d)
  {
    if t != [] && t[0].date != date {
      var r := Put(t, date, p);
      assert r[0] == t[0] && r[1..] == Put(t[1..], date, p);
      PutLookup(t[1..], date, p, d);
    }
  }

  /** Assigning an existing key keeps the key order; a new key goes last. */
  lemma {:induction false} PutDates(t: DayTable, date: string, p: TaskProof)
    ensures Dates(Put(t, date, p)) == if date in Dates(t) then Dates(t) else Dates(t) + [date]
  {
    if t != [] {
      var r := Put(t, date, p);
      assert Dates(t) == [t[0].date] + Dates(t[1..]);
      if t[0].date == date {
        assert r[1..] == t[1..];
        assert Dates(r) == [date] + Dates(t[1..]);
      } else {
        PutDates(t[1..], date, p);
        assert r[1..] == Put(t[1..], date, p);
        assert Dates(r) == [t[0].date] + Dates(Put(t[1..], date, p));
        assert date in Dates(t) <==> date in Dates(t[1..]);
      }
    }
  }

  /** Assignment never makes a key appear twice. */
  lemma PutDistinct(t: DayTable, date: string, p: TaskProof)
    requires DistinctDates(t)
    ensures DistinctDates(Put(t, date, p))
  {
    var r := Put(t, date, p);
    PutDates(t, date, p);
    var dr, dt := Dates(r), Dates(t);
    forall i, j | 0 <= i < j < |r| ensures r[i].date != r[j].date {
      assert dr[i] == r[i].date && dr[j] == r[j].date;
      if j < |t| {
        assert dt[i] == t[i].date && dt[j] == t[j].date;
      } else {
        assert date !in dt && dr[j] == date && dr[i] == dt[i];
      }
    }
  }

  function TimestampOf(p: TaskProof): int {
    p.timestamp
  }

  /** `if (!proofs[id]) proofs[id] = {}`: the task's table, empty when it has none yet. */
  function TableOf(proofs: ProofMapping, key: string): DayTable {
    if key in proofs then proofs[key] else []
  }

  /** `date || today`: a missing or empty date argument means today. */
  function DateKey(date: Option<string>, today: string): (k: string)
    ensures date.Some? && date.value != [] ==> k == date.value
    ensures date.None? || date.value == [] ==> k == today
  {
    if date.Some? && date.value != [] then date.value else today
  }

  /** The `localStorage` entry `'keepup-task-proofs'`. */
  class ProofStore {
    var item: Item<ProofMapping>

    constructor (stored: Item<ProofMapping>)
      requires stored.Parsed? ==> forall key :: key in stored.value ==> DistinctDates(stored.value[key])
      ensures item == stored
      ensures Valid()
    {
      item := stored;
    }

    /** `getTaskProofs()`: the stored dictionary, or `{}` when nothing readable is stored. */
    function Proofs(): (m: ProofMapping)
      reads this
      ensures item.Parsed? ==> m == item.value
      ensures !item.Parsed? ==> m == map[]
    {
      Load(item, map[])
    }

    /** No stored day table repeats a date key. */
    ghost predicate Valid()
      reads this
    {
      forall key :: key in Proofs() ==> DistinctDates(Proofs()[key])
    }

    /**
     * `addTaskProof(taskId, ipfsUrl, fileName)`, with `today` the date key of `new Date()` and
     * `nowMs` the reading of `Date.now()`: files the proof under today's key, creating the task's
     * table if needed and replacing an earlier proof of the same day. No other task is touched.
     */
    method AddTaskProof(ref: TaskRef, ipfsUrl: string, fileName: string, today: string, nowMs: int, writable: bool)
      requires Valid()
      modifies this
      ensures item == Save(old(item),
        old(Proofs())[KeyOf(ref) := Put(TableOf(old(Proofs()), KeyOf(ref)), today, TaskProof(ipfsUrl, nowMs, fileName))],
        writable)
      ensures writable ==> GetTaskProof(ref, Some(today), today) == Some(TaskProof(ipfsUrl, nowMs, fileName))
      ensures writable ==> forall k :: k != KeyOf(ref) ==> (k in Proofs() <==> k in old(Proofs()))
      ensures writable ==> forall k :: k != KeyOf(ref) && k in Proofs() ==> Proofs()[k] == old(Proofs())[k]
      ensures Valid()
    {
      var id := KeyOf(ref);
      var proofs := Proofs();
      ghost var before := proofs;
      if id !in proofs {
        proofs := proofs[id := []];
      }
      assert proofs[id] == TableOf(before, id);
      var proof := TaskProof(ipfsUrl, nowMs, fileName);
      proofs := proofs[id := Put(proofs[id], today, proof)];
      assert proofs == before[id := Put(TableOf(before, id), today, proof)];
      item := Save(item, proofs, writable);
      PutLookup(TableOf(before, id), today, proof, today);
      PutDistinct(TableOf(before, id), today, proof);
    }

    /**
     * `getTaskProof(taskId, date?)`: null for a task without proofs, otherwise the proof filed
     * under `date` (today when absent or empty), or null when that day has none.
     */
    function GetTaskProof(ref: TaskRef, date: Option<string>, today: string): (r: Option<TaskProof>)
      reads this
      ensures KeyOf(ref) !in Proofs() ==> r == None
      ensures KeyOf(ref) in Proofs() ==> r == Lookup(Proofs()[KeyOf(ref)], DateKey(date, today))
    {
      var proofs := Proofs();
      if KeyOf(ref) !in proofs then None
      else Lookup(proofs[KeyOf(ref)], DateKey(date, today))
    }

    /**
     * `getAllTaskProofs(taskId)`: every proof of the task, newest timestamp first (proofs with equal
     * timestamps in key insertion order), and `[]` for a task without proofs.
     */
    function GetAllTaskProofs(ref: TaskRef): (r: seq<TaskProof>)
      reads this
      ensures KeyOf(ref) !in Proofs() ==> r == []
      ensures KeyOf(ref) in Proofs() ==> multiset(r) == multiset(Values(Proofs()[KeyOf(ref)]))
      ensures Descending(r, TimestampOf)
    {
      var proofs := Proofs();
      if KeyOf(ref) !in proofs then []
      else
        var all := Values(proofs[KeyOf(ref)]);
        SortIsDescending(all, TimestampOf);
        SortDescending(all, TimestampOf)
    }

    /** `removeTaskProofs(taskId)`: drops the task's whole table and leaves every other task alone. */
    method RemoveTaskProofs(ref: TaskRef, writable: bool)
      requires Valid()
      modifies this
      ensures item == Save(old(item), old(Proofs()) - {KeyOf(ref)}, writable)
      ensures writable ==> KeyOf(ref) !in Proofs() && GetAllTaskProofs(ref) == []
      ensures writable ==> forall k :: k != KeyOf(ref) ==> (k in Proofs() <==> k in old(Proofs()))
      ensures writable ==> forall k :: k != KeyOf(ref) && k in Proofs() ==> Proofs()[k] == old(Proofs())[k]
      ensures Valid()
    {
      var proofs := Proofs();
      proofs := proofs - {KeyOf(ref)};
      item := Save(item, proofs, writable);
    }
  }

  /** A second proof on the same day replaces the first: the task still has one proof for that day. */
  lemma SameDayOverwrites(t: DayTable, date: string, first: TaskProof, second: TaskProof)
    requires DistinctDates(t)
    ensures Lookup(Put(Put(t, date, first), date, second), date) == Some(second)
    ensures |Put(Put(t, date, first), date, second)| == |Put(t, date, first)|
    ensures DistinctDates(Put(Put(t, date, first), date, second))
  {
    var once := Put(t, date, first);
    PutDates(t, date, first);
    PutDistinct(t, date, first);
    PutDates(once, date, second);
    PutDistinct(once, date, second);
    PutLookup(once, date, second, date);
  }

  /** Adding a proof to a task with none gives it exactly that proof, dated today. */
  method FirstProofOfTask(stored: Item<ProofMapping>, id: int, ipfsUrl: string, fileName: string, today: string, nowMs: int)
    returns (all: seq<TaskProof>)
    requires stored.Parsed? ==> forall key :: key in stored.value ==> DistinctDates(stored.value[key])
    requires stored.Parsed? ==> DecimalString(id) !in stored.value
    ensures all == [TaskProof(ipfsUrl, nowMs, fileName)]
  {
    var store := new ProofStore(stored);
    store.AddTaskProof(Big(id), ipfsUrl, fileName, today, nowMs, true);
    all := store.GetAllTaskProofs(Big(id));
  }
}
