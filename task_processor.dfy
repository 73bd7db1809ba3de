/**
 * The catalog grouping of app/services/task_processor.py: every catalog task
 * whose `ability` is one of the four level-1 keys is appended, in input order,
 * to that key's list; tasks with any other or no ability are dropped.
 */
module TaskProcessor {
  import opened Options
  import opened Constants

  /** A catalog task as the task service returns it. */
  datatype CatalogTask = CatalogTask(name: string, ability: Option<string>, level: Option<int>)

  /** The raw task info; a missing `tasks` key is None. */
  datatype RawTaskInfo = RawTaskInfo(tasks: Option<seq<CatalogTask>>)

  /** `raw_task_info.get("tasks", [])` */
  function TasksOf(raw: RawTaskInfo): (r: seq<CatalogTask>)
    ensures raw.tasks.None? ==> r == []
    ensures raw.tasks.Some? ==> r == raw.tasks.value
  {
    raw.tasks.GetOr([])
  }

  /** The tasks of ability `k`, in input order. */
  function Bucket(ts: seq<CatalogTask>, k: string): (r: seq<CatalogTask>)
    ensures |r| <= |ts|
    ensures forall t :: t in r ==> t in ts && t.ability == Some(k)
  {
    if ts == [] then []
    else Bucket(ts[..|ts| - 1], k) + (if ts[|ts| - 1].ability == Some(k) then [ts[|ts| - 1]] else [])
  }

  /** How many tasks carry one of the four ability keys. */
  function RecognisedCount(ts: seq<CatalogTask>): (r: nat)
    ensures r <= |ts|
  {
    if ts == [] then 0
    else
      var t := ts[|ts| - 1];
      RecognisedCount(ts[..|ts| - 1]) + (if t.ability.Some? && t.ability.value in AbilityKeys then 1 else 0)
  }

  /** process_task_info */
  method ProcessTaskInfo(raw: RawTaskInfo) returns (grouped: map<string, seq<CatalogTask>>)
    ensures grouped.Keys == AbilityKeys
    ensures forall k :: k in grouped ==> grouped[k] == Bucket(TasksOf(raw), k)
    ensures raw.tasks.None? ==> forall k :: k in grouped ==> grouped[k] == []
  {
    var tasks := TasksOf(raw);
    grouped := map[Perception := [], Exec := [], Attention := [], Memory := []];
    for i := 0 to |tasks|
      invariant grouped.Keys == AbilityKeys
      invariant forall k :: k in grouped ==> grouped[k] == Bucket(tasks[..i], k)
    {
      assert tasks[..i + 1][..i] == tasks[..i];
      var t := tasks[i];
      var ability := t.ability;
      if ability.Some? && ability.value in grouped {
        grouped := grouped[ability.value := grouped[ability.value] + [t]];
      }
    }
    assert tasks[..|tasks|] == tasks;
  }

  // ---------------------------------------------------------------------------
  // Properties of the grouping
  // ---------------------------------------------------------------------------

  /** Partition: a task occurs in the bucket of `k` exactly as often as in the
      input when its ability is `k`, and not at all otherwise. */
  lemma {:induction false} BucketMultiplicity(ts: seq<CatalogTask>, k: string, t: CatalogTask)
    ensures multiset(Bucket(ts, k))[t] == if t.ability == Some(k) then multiset(ts)[t] else 0
  {
    if ts != [] {
      var init, last := ts[..|ts| - 1], ts[|ts| - 1];
      assert ts == init + [last];
      BucketMultiplicity(init, k, t);
    }
  }

  /** Each recognised task lands in its own bucket and in no other one; a task
      with any other or no ability lands in none. */
  lemma Partition(ts: seq<CatalogTask>, t: CatalogTask, k: string)
    requires k in AbilityKeys
    ensures t in Bucket(ts, k) <==> t in ts && t.ability == Some(k)
  {
    BucketMultiplicity(ts, k, t);
    assert t in Bucket(ts, k) <==> multiset(Bucket(ts, k))[t] > 0;
    assert t in ts <==> multiset(ts)[t] > 0;
  }

  /** The input positions of the tasks of ability `k`, in increasing order. */
  function MatchingIndices(ts: seq<CatalogTask>, k: string): (ix: seq<nat>)
    ensures forall m :: 0 <= m < |ix| ==> ix[m] < |ts| && ts[ix[m]].ability == Some(k)
    ensures forall m, n :: 0 <= m < n < |ix| ==> ix[m] < ix[n]
    ensures forall i :: 0 <= i < |ts| && ts[i].ability == Some(k) ==> i in ix
  {
    if ts == [] then []
    else
      var init := ts[..|ts| - 1];
      var ix := MatchingIndices(init, k);
      assert forall m :: 0 <= m < |ix| ==> ts[ix[m]] == init[ix[m]];
      ix + (if ts[|ts| - 1].ability == Some(k) then [|ts| - 1] else [])
  }

  /** Order preserved: the bucket of `k` lists the input's tasks of ability `k`
      at increasing input positions, every such task included. */
  lemma {:induction false} BucketInOrder(ts: seq<CatalogTask>, k: string)
    ensures var ix := MatchingIndices(ts, k);
      |Bucket(ts, k)| == |ix| && forall m :: 0 <= m < |ix| ==> Bucket(ts, k)[m] == ts[ix[m]]
  {
    if ts != [] {
      var init, last := ts[..|ts| - 1], ts[|ts| - 1];
      BucketInOrder(init, k);
      var ix := MatchingIndices(init, k);
      var b := Bucket(init, k);
      forall m | 0 <= m < |ix| ensures b[m] == ts[ix[m]] {
        assert ts[ix[m]] == init[ix[m]];
      }
      if last.ability == Some(k) {
        assert Bucket(ts, k) == b + [last];
        assert MatchingIndices(ts, k) == ix + [|ts| - 1];
      } else {
        assert Bucket(ts, k) == b;
        assert MatchingIndices(ts, k) == ix;
      }
    }
  }

  /** Size accounting: the four buckets together hold exactly the recognised
      tasks, so never more than the input. */
  lemma {:induction false} BucketSizes(ts: seq<CatalogTask>)
    ensures |Bucket(ts, Perception)| + |Bucket(ts, Exec)| + |Bucket(ts, Attention)| + |Bucket(ts, Memory)|
         == RecognisedCount(ts) <= |ts|
  {
    if ts != [] {
      BucketSizes(ts[..|ts| - 1]);
    }
  }
}
