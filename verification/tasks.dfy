/** A to-do entry and the pure views and list updates the task manager is made of:
    the statistics triple, deleting by id, toggling the first entry with an id and
    clearing the completed entries. Ids are whatever the caller supplies; nothing
    here assumes that they are unique.
 */
module Tasks {
  import opened ArrayOps

  /** A to-do entry. Its creation time is never read, so it is not modelled. */
  datatype Task = Task(id: int, text: string, completed: bool)

  /** The three numbers shown under the list. `pending` is computed by a
      subtraction, so it is an `int` until it is proved non-negative. */
  datatype Stats = Stats(total: nat, pending: int, completed: nat)

  function IsCompleted(t: Task): bool { t.completed }

  function IsPending(t: Task): bool { !t.completed }

  function HasId(id: int): Task -> bool { (t: Task) => t.id == id }

  function LacksId(id: int): Task -> bool { (t: Task) => t.id != id }

  /** The statistics of a list: its length, the number of completed entries,
      and the difference of the two as the number of pending entries. */
  function StatsOf(ts: seq<Task>): (s: Stats)
    ensures s.total == |ts|
    ensures s.completed <= s.total
    ensures 0 <= s.pending && s.pending + s.completed == s.total
    ensures s.pending == |Filter(ts, IsPending)|
  {
    var completed := |Filter(ts, IsCompleted)|;
    FilterComplement(ts, IsCompleted, IsPending);
    Stats(|ts|, |ts| - completed, completed)
  }

  /** The completed count is 0 exactly when no entry is completed, which is
      the guard of clearing the completed entries. */
  lemma StatsNoneCompleted(ts: seq<Task>)
    ensures StatsOf(ts).completed == 0 <==> !Any(ts, IsCompleted)
  {
    AnyIffFilterNonEmpty(ts, IsCompleted);
  }

  /** Appending a new (pending) entry adds one to the total and to the
      pending count and leaves the completed count alone. */
  lemma AddStats(ts: seq<Task>, id: int, text: string)
    ensures StatsOf(ts + [Task(id, text, false)]) ==
            Stats(|ts| + 1, StatsOf(ts).pending + 1, StatsOf(ts).completed)
  {
    var t := Task(id, text, false);
    FilterConcat(ts, [t], IsCompleted);
    assert Filter([t], IsCompleted) == [] by {
      assert [t][1..] == [];
    }
  }

  // ---------------------------------------------------------------- delete

  /** The list without the entries that carry `id` (all of them, should there
      be several): an entry remains exactly when it was there and its id
      differs, and the list shrinks by the number of entries carrying `id`. */
  function WithoutId(ts: seq<Task>, id: int): (r: seq<Task>)
    ensures forall t :: t in r <==> t in ts && t.id != id
    ensures |r| == |ts| - |Filter(ts, HasId(id))|
  {
    FilterComplement(ts, LacksId(id), HasId(id));
    Filter(ts, LacksId(id))
  }

  /** Deleting an id that is not in the list leaves the list unchanged. */
  lemma DeleteAbsent(ts: seq<Task>, id: int)
    requires forall i :: 0 <= i < |ts| ==> ts[i].id != id
    ensures WithoutId(ts, id) == ts
  {
    FilterAll(ts, LacksId(id));
  }

  /** Deleting the same id twice is the same as deleting it once. */
  lemma DeleteIdempotent(ts: seq<Task>, id: int)
    ensures WithoutId(WithoutId(ts, id), id) == WithoutId(ts, id)
  {
    FilterIdempotent(ts, LacksId(id));
  }

  // ---------------------------------------------------------------- toggle

  /** `k` is the position of the first entry that carries `id`. */
  predicate FirstWithId(ts: seq<Task>, id: int, k: int)
  {
    0 <= k < |ts| && ts[k].id == id && forall j :: 0 <= j < k ==> ts[j].id != id
  }

  function Flipped(t: Task): Task { t.(completed := !t.completed) }

  /** The list with the completion flag of the first entry carrying `id`
      flipped, or the list itself when no entry carries `id`. */
  function Toggled(ts: seq<Task>, id: int): (r: seq<Task>)
    ensures |r| == |ts|
    ensures forall k :: 0 <= k < |ts| ==> r[k] == if FirstWithId(ts, id, k) then Flipped(ts[k]) else ts[k]
    ensures (forall k :: 0 <= k < |ts| ==> ts[k].id != id) ==> r == ts
  {
    match FindIndex(ts, HasId(id))
    case None => ts
    case Some(i) => ts[i := Flipped(ts[i])]
  }

  /** Toggling the same id twice restores the original list. */
  lemma ToggleTwice(ts: seq<Task>, id: int)
    ensures Toggled(Toggled(ts, id), id) == ts
  {
    var r := Toggled(ts, id);
    forall k | 0 <= k < |ts|
      ensures FirstWithId(r, id, k) == FirstWithId(ts, id, k)
    {
      assert forall j :: 0 <= j <= k ==> r[j].id == ts[j].id;
    }
  }

  /** Toggling moves one entry between the completed and the pending counts
      when some entry carries `id`, and leaves the statistics alone otherwise. */
  lemma ToggleStats(ts: seq<Task>, id: int)
    ensures StatsOf(Toggled(ts, id)).total == StatsOf(ts).total
    ensures forall k {:trigger FirstWithId(ts, id, k)} :: FirstWithId(ts, id, k) ==>
      StatsOf(Toggled(ts, id)).completed == StatsOf(ts).completed + (if ts[k].completed then -1 else 1)
    ensures !Any(ts, HasId(id)) ==> StatsOf(Toggled(ts, id)) == StatsOf(ts)
  {
    match FindIndex(ts, HasId(id))
    case None =>
    case Some(i) =>
      FilterUpdateLength(ts, i, Flipped(ts[i]), IsCompleted);
  }

  // ---------------------------------------------------------------- clear completed

  /** The list without its completed entries: an entry remains exactly when
      it was there and is pending, and the list shrinks by the number of
      completed entries. */
  function PendingOnly(ts: seq<Task>): (r: seq<Task>)
    ensures forall t :: t in r <==> t in ts && !t.completed
    ensures |r| == |ts| - |Filter(ts, IsCompleted)|
  {
    FilterComplement(ts, IsPending, IsCompleted);
    Filter(ts, IsPending)
  }

  /** After clearing the completed entries the completed count is 0 and the
      pending count is what it was. */
  lemma ClearCompletedStats(ts: seq<Task>)
    ensures StatsOf(PendingOnly(ts)).completed == 0
    ensures StatsOf(PendingOnly(ts)).pending == StatsOf(ts).pending
  {
    FilterIdempotent(ts, IsPending);
  }

  /** With no completed entry, clearing them leaves the list as it was. */
  lemma ClearCompletedNoop(ts: seq<Task>)
    requires !Any(ts, IsCompleted)
    ensures PendingOnly(ts) == ts
  {
    FilterAll(ts, IsPending);
  }
}
