/**
 * The missed-task matcher and the text helpers of
 * app/services/modules_processor.py.
 *
 * fetch_tasks_by_ability scans the missed tasks in order, keeps the complete
 * ones whose level-1 or level-2 brain tag equals the ability key, groups their
 * names by paradigm in first-occurrence order, and stops the whole scan at the
 * first kept task whose paradigm already holds two names. The groups are then
 * rendered as `paradigm（a、b）` and joined with `、`.
 */
module ModulesProcessor {
  import opened Options
  import opened Schemas

  /** The task-info record; a missing `weekly_missed_task_infos` key is None. */
  datatype TaskInfo = TaskInfo(weeklyMissedTaskInfos: Option<seq<Task>>)

  /** One paradigm and the task names collected for it, in input order. */
  datatype Group = Group(paradigm: string, names: seq<string>)

  /** A kept task, reduced to what the grouping uses. */
  datatype Entry = Entry(paradigm: string, name: string)

  const Comma: string := "、"
  const Open: string := "（"
  const Close: string := "）"

  // ---------------------------------------------------------------------------
  // Which tasks are kept
  // ---------------------------------------------------------------------------

  /** `task_info.get("weekly_missed_task_infos", [])` */
  function MissedTasks(info: TaskInfo): (r: seq<Task>)
    ensures info.weeklyMissedTaskInfos.None? ==> r == []
    ensures info.weeklyMissedTaskInfos.Some? ==> r == info.weeklyMissedTaskInfos.value
  {
    info.weeklyMissedTaskInfos.GetOr([])
  }

  /** Both the paradigm and the name are present and non-empty. */
  predicate Complete(t: Task)
  {
    t.paradigm.Some? && t.paradigm.value != "" && t.name != ""
  }

  /** The level-1 or the level-2 brain tag equals the key (plain equality). */
  predicate MatchesAbility(t: Task, key: string)
  {
    t.level1Brain == Some(key) || t.level2Brain == Some(key)
  }

  predicate Eligible(t: Task, key: string)
  {
    Complete(t) && MatchesAbility(t, key)
  }

  function EntryOf(t: Task): (e: Entry)
    requires Complete(t)
  {
    Entry(t.paradigm.value, t.name)
  }

  /** The kept tasks of `ts`, in input order, before any cap is applied. */
  function Entries(ts: seq<Task>, key: string): (r: seq<Entry>)
  {
    if ts == [] then []
    else (if Eligible(ts[0], key) then [EntryOf(ts[0])] else []) + Entries(ts[1..], key)
  }

  /** Every entry comes from a kept task. */
  lemma {:induction false} EntriesFromTasks(ts: seq<Task>, key: string, e: Entry)
    requires e in Entries(ts, key)
    ensures exists t :: t in ts && Eligible(t, key) && EntryOf(t) == e
  {
    if !(Eligible(ts[0], key) && e == EntryOf(ts[0])) {
      EntriesFromTasks(ts[1..], key, e);
      var t :| t in ts[1..] && Eligible(t, key) && EntryOf(t) == e;
      assert t in ts;
    }
  }

  lemma {:induction false} EntriesConcat(a: seq<Task>, b: seq<Task>, key: string)
    ensures Entries(a + b, key) == Entries(a, key) + Entries(b, key)
  {
    if a == [] {
      assert a + b == b;
    } else {
      var head := if Eligible(a[0], key) then [EntryOf(a[0])] else [];
      assert (a + b)[0] == a[0];
      assert (a + b)[1..] == a[1..] + b;
      EntriesConcat(a[1..], b, key);
      calc {
        Entries(a + b, key);
        head + Entries(a[1..] + b, key);
        head + (Entries(a[1..], key) + Entries(b, key));
        (head + Entries(a[1..], key)) + Entries(b, key);
      }
    }
  }

  // ---------------------------------------------------------------------------
  // The group state: `paradigm_tasks`, an insertion-ordered map to name lists
  // ---------------------------------------------------------------------------

  function Paradigms(gs: seq<Group>): (r: seq<string>)
    ensures |r| == |gs|
    ensures forall i :: 0 <= i < |gs| ==> r[i] == gs[i].paradigm
  {
    if gs == [] then [] else [gs[0].paradigm] + Paradigms(gs[1..])
  }

  predicate DistinctParadigms(gs: seq<Group>)
  {
    forall i, j :: 0 <= i < j < |gs| ==> gs[i].paradigm != gs[j].paradigm
  }

  /** The position of p's group, or -1 when there is none. */
  function IndexOf(gs: seq<Group>, p: string): (i: int)
    ensures -1 <= i < |gs|
    ensures i == -1 ==> p !in Paradigms(gs)
    ensures i >= 0 ==> gs[i].paradigm == p && forall k :: 0 <= k < i ==> gs[k].paradigm != p
  {
    if gs == [] then -1
    else if gs[0].paradigm == p then 0
    else
      var i := IndexOf(gs[1..], p);
      if i == -1 then -1 else i + 1
  }

  /** `paradigm_tasks[p]`: the names of p's group, or [] when there is none. */
  function NamesOf(gs: seq<Group>, p: string): (r: seq<string>)
    ensures p !in Paradigms(gs) ==> r == []
    ensures DistinctParadigms(gs) ==>
      forall i :: 0 <= i < |gs| && gs[i].paradigm == p ==> r == gs[i].names
  {
    var i := IndexOf(gs, p);
    if i < 0 then [] else gs[i].names
  }

  /** `paradigm_tasks[p].append(n)`: extend p's group, or open a new group at the end. */
  function Append(gs: seq<Group>, p: string, n: string): (r: seq<Group>)
    ensures Paradigms(r) == if p in Paradigms(gs) then Paradigms(gs) else Paradigms(gs) + [p]
    ensures DistinctParadigms(gs) ==> DistinctParadigms(r)
    ensures DistinctParadigms(gs) ==> forall i :: 0 <= i < |gs| ==>
      r[i] == if gs[i].paradigm == p then Group(p, gs[i].names + [n]) else gs[i]
    ensures p !in Paradigms(gs) ==> r[|gs|] == Group(p, [n])
  {
    var i := IndexOf(gs, p);
    if i < 0 then gs + [Group(p, [n])]
    else gs[i := Group(p, gs[i].names + [n])]
  }

  // ---------------------------------------------------------------------------
  // The scan as written: skip, stop, or append, one task at a time
  // ---------------------------------------------------------------------------

  /** The groups after scanning `ts` from the state `gs`: the groups already
      there keep their place, new paradigms are added after them, and no
      paradigm gets a second group. */
  function Scan(ts: seq<Task>, key: string, gs: seq<Group>): (r: seq<Group>)
    ensures Paradigms(gs) <= Paradigms(r)
    ensures DistinctParadigms(gs) ==> DistinctParadigms(r)
  {
    if ts == [] then gs
    else if !Eligible(ts[0], key) then Scan(ts[1..], key, gs)
    else if |NamesOf(gs, ts[0].paradigm.value)| >= 2 then gs
    else Scan(ts[1..], key, Append(gs, ts[0].paradigm.value, ts[0].name))
  }

  /** One step of the scan at position `i`. */
  lemma ScanStep(ts: seq<Task>, i: int, key: string, gs: seq<Group>)
    requires 0 <= i < |ts|
    ensures Scan(ts[i..], key, gs) ==
      if !Eligible(ts[i], key) then Scan(ts[i + 1..], key, gs)
      else if |NamesOf(gs, ts[i].paradigm.value)| >= 2 then gs
      else Scan(ts[i + 1..], key, Append(gs, ts[i].paradigm.value, ts[i].name))
  {
    assert ts[i..][0] == ts[i] && ts[i..][1..] == ts[i + 1..];
  }

  /** The groups fetch_tasks_by_ability collects for `key` from `ts`. */
  function MatchedGroups(key: string, ts: seq<Task>): (r: seq<Group>)
    ensures DistinctParadigms(r)
  {
    Scan(ts, key, [])
  }

  // ---------------------------------------------------------------------------
  // Rendering
  // ---------------------------------------------------------------------------

  /** Python's `sep.join(xs)`. */
  function Join(sep: string, xs: seq<string>): (r: string)
    ensures xs == [] ==> r == []
    ensures xs != [] ==> |r| >= |xs[0]|
  {
    if xs == [] then ""
    else if |xs| == 1 then xs[0]
    else xs[0] + sep + Join(sep, xs[1..])
  }

  /** `f"{paradigm}（{task_str}）"` */
  function RenderGroup(g: Group): (r: string)
    ensures |r| >= 2
  {
    g.paradigm + Open + Join(Comma, g.names) + Close
  }

  function RenderGroups(gs: seq<Group>): (r: seq<string>)
    ensures |r| == |gs|
  {
    if gs == [] then [] else RenderGroups(gs[..|gs| - 1]) + [RenderGroup(gs[|gs| - 1])]
  }

  /** The groups joined with `、`; empty exactly when there are no groups. */
  function Render(gs: seq<Group>): (r: string)
    ensures r == "" <==> gs == []
  {
    JoinedEmpty(gs);
    Join(Comma, RenderGroups(gs))
  }

  lemma JoinedEmpty(gs: seq<Group>)
    ensures Join(Comma, RenderGroups(gs)) == "" <==> gs == []
  {
    if gs != [] {
      var rs := RenderGroups(gs);
      assert rs[0] == RenderGroup(gs[..1][0]) by {
        RenderGroupsAt(gs, 0);
      }
    }
  }

  lemma RenderGroupsStep(gs: seq<Group>, j: int)
    requires 0 <= j < |gs|
    ensures RenderGroups(gs[..j + 1]) == RenderGroups(gs[..j]) + [RenderGroup(gs[j])]
  {
    assert gs[..j + 1][..j] == gs[..j];
  }

  lemma {:induction false} RenderGroupsAt(gs: seq<Group>, i: int)
    requires 0 <= i < |gs|
    ensures RenderGroups(gs)[i] == RenderGroup(gs[i])
  {
    if i < |gs| - 1 {
      var init := gs[..|gs| - 1];
      RenderGroupsAt(init, i);
    }
  }

  // ---------------------------------------------------------------------------
  // The method
  // ---------------------------------------------------------------------------

  /** fetch_tasks_by_ability */
  method FetchTasksByAbility(abilityKey: string, taskInfo: TaskInfo) returns (r: string)
    ensures r == Render(MatchedGroups(abilityKey, MissedTasks(taskInfo)))
  {
    var missed := MissedTasks(taskInfo);
    var groups: seq<Group> := [];
    var i := 0;
    while i < |missed|
      invariant 0 <= i <= |missed|
      invariant Scan(missed[i..], abilityKey, groups) == Scan(missed, abilityKey, [])
    {
      var t := missed[i];
      ScanStep(missed, i, abilityKey, groups);
      var paradigm := t.paradigm;
      var taskName := t.name;
      if paradigm.None? || paradigm.value == "" || taskName == "" {
        i := i + 1;
        continue;
      }
      if t.level1Brain != Some(abilityKey) && t.level2Brain != Some(abilityKey) {
        i := i + 1;
        continue;
      }
      if |NamesOf(groups, paradigm.value)| >= 2 {
        break;
      }
      groups := Append(groups, paradigm.value, taskName);
      i := i + 1;
    }
    assert groups == MatchedGroups(abilityKey, missed);

    var results: seq<string> := [];
    var j := 0;
    while j < |groups|
      invariant 0 <= j <= |groups|
      invariant results == RenderGroups(groups[..j])
    {
      RenderGroupsStep(groups, j);
      var taskStr := Join(Comma, groups[j].names);
      results := results + [groups[j].paradigm + Open + taskStr + Close];
      j := j + 1;
    }
    assert groups[..j] == groups;
    r := Join(Comma, results);
  }

  // ---------------------------------------------------------------------------
  // A reference definition: group every kept entry up to the stop point
  // ---------------------------------------------------------------------------

  function ParadigmsOf(xs: seq<Entry>): (r: seq<string>)
    ensures |r| == |xs|
    ensures forall i :: 0 <= i < |xs| ==> r[i] == xs[i].paradigm
  {
    if xs == [] then [] else ParadigmsOf(xs[..|xs| - 1]) + [xs[|xs| - 1].paradigm]
  }

  /** The distinct elements of `s`, in order of first occurrence. */
  function Dedup(s: seq<string>): (r: seq<string>)
    ensures forall x :: x in r <==> x in s
  {
    if s == [] then []
    else
      var d := Dedup(s[..|s| - 1]);
      assert forall x :: x in s <==> x in s[..|s| - 1] || x == s[|s| - 1];
      if s[|s| - 1] in d then d else d + [s[|s| - 1]]
  }

  /** The names of the entries of paradigm `p`, in input order. */
  function NamesIn(xs: seq<Entry>, p: string): (r: seq<string>)
  {
    if xs == [] then []
    else NamesIn(xs[..|xs| - 1], p) + (if xs[|xs| - 1].paradigm == p then [xs[|xs| - 1].name] else [])
  }

  /** A paradigm has names exactly when some entry carries it. */
  lemma {:induction false} NamesInPresent(xs: seq<Entry>, p: string)
    ensures NamesIn(xs, p) != [] <==> p in ParadigmsOf(xs)
  {
    if xs != [] {
      var init := xs[..|xs| - 1];
      NamesInPresent(init, p);
      assert ParadigmsOf(xs) == ParadigmsOf(init) + [xs[|xs| - 1].paradigm];
    }
  }

  /** Every name listed for `p` is the name of an entry of paradigm `p`. */
  lemma {:induction false} NamesInFromEntries(xs: seq<Entry>, p: string, n: string)
    requires n in NamesIn(xs, p)
    ensures Entry(p, n) in xs
  {
    var init, e := xs[..|xs| - 1], xs[|xs| - 1];
    assert xs == init + [e];
    if n in NamesIn(init, p) {
      NamesInFromEntries(init, p, n);
    }
  }

  /** Group all of `xs` by paradigm, in first-occurrence order. */
  function GroupBy(xs: seq<Entry>): (r: seq<Group>)
  {
    if xs == [] then []
    else Append(GroupBy(xs[..|xs| - 1]), xs[|xs| - 1].paradigm, xs[|xs| - 1].name)
  }

  lemma GroupByAppend(xs: seq<Entry>, e: Entry)
    ensures GroupBy(xs + [e]) == Append(GroupBy(xs), e.paradigm, e.name)
  {
    assert (xs + [e])[..|xs|] == xs;
  }

  lemma NamesInAppend(xs: seq<Entry>, e: Entry, q: string)
    ensures NamesIn(xs + [e], q) == NamesIn(xs, q) + (if e.paradigm == q then [e.name] else [])
  {
    assert (xs + [e])[..|xs|] == xs;
  }

  lemma ParadigmsOfAppend(xs: seq<Entry>, e: Entry)
    ensures ParadigmsOf(xs + [e]) == ParadigmsOf(xs) + [e.paradigm]
  {
    assert (xs + [e])[..|xs|] == xs;
  }

  /** No paradigm has two groups. */
  lemma {:induction false} GroupByDistinct(xs: seq<Entry>)
    ensures DistinctParadigms(GroupBy(xs))
  {
    if xs != [] {
      GroupByDistinct(xs[..|xs| - 1]);
    }
  }

  /** Groups appear in the order in which their paradigms first occur. */
  lemma {:induction false} GroupByOrder(xs: seq<Entry>)
    ensures Paradigms(GroupBy(xs)) == Dedup(ParadigmsOf(xs))
  {
    if xs != [] {
      var init, e := xs[..|xs| - 1], xs[|xs| - 1];
      assert xs == init + [e];
      GroupByOrder(init);
      ParadigmsOfAppend(init, e);
      var s := ParadigmsOf(xs);
      assert s[..|s| - 1] == ParadigmsOf(init);
    }
  }

  /** Each group holds the names of its paradigm's entries, in input order. */
  lemma {:induction false} GroupByNames(xs: seq<Entry>)
    ensures var r := GroupBy(xs);
      forall i :: 0 <= i < |r| ==> r[i].names == NamesIn(xs, r[i].paradigm)
  {
    if xs != [] {
      var init, e := xs[..|xs| - 1], xs[|xs| - 1];
      assert xs == init + [e];
      var g := GroupBy(init);
      GroupByNames(init);
      GroupByDistinct(init);
      GroupByOrder(init);
      var r := GroupBy(xs);
      forall i | 0 <= i < |r| ensures r[i].names == NamesIn(xs, r[i].paradigm) {
        NamesInAppend(init, e, r[i].paradigm);
        if i == |g| {
          assert e.paradigm !in ParadigmsOf(init);
          NamesInPresent(init, e.paradigm);
        }
      }
    }
  }

  /** The first position at or after `j` whose entry's paradigm already has two
      entries before it, or |xs| when there is none. */
  function StopFrom(xs: seq<Entry>, j: nat): (r: nat)
    requires j <= |xs|
    ensures j <= r <= |xs|
    ensures r < |xs| ==> |NamesIn(xs[..r], xs[r].paradigm)| >= 2
    ensures forall i :: j <= i < r ==> |NamesIn(xs[..i], xs[i].paradigm)| < 2
    decreases |xs| - j
  {
    if j == |xs| then j
    else if |NamesIn(xs[..j], xs[j].paradigm)| >= 2 then j
    else StopFrom(xs, j + 1)
  }

  /** The entries the scan gets to append: those before the stop point. */
  function Admitted(xs: seq<Entry>): (r: seq<Entry>)
  {
    xs[..StopFrom(xs, 0)]
  }

  /** In a grouping, looking a paradigm up gives the names of its entries. */
  lemma NamesOfGroupBy(xs: seq<Entry>, p: string)
    ensures NamesOf(GroupBy(xs), p) == NamesIn(xs, p)
  {
    var g := GroupBy(xs);
    GroupByDistinct(xs);
    GroupByNames(xs);
    GroupByOrder(xs);
    NamesInPresent(xs, p);
    if p in Paradigms(g) {
      var i :| 0 <= i < |g| && Paradigms(g)[i] == p;
    }
  }

  /** The scan, resumed after it has appended every entry of `done`, ends with
      the grouping of everything up to the stop point. */
  lemma {:induction false} ScanResumes(rest: seq<Task>, key: string, done: seq<Entry>)
    ensures var all := done + Entries(rest, key);
      Scan(rest, key, GroupBy(done)) == GroupBy(all[..StopFrom(all, |done|)])
  {
    var all := done + Entries(rest, key);
    assert all[..|done|] == done;
    if rest == [] {
      assert all == done;
    } else if !Eligible(rest[0], key) {
      assert Entries(rest, key) == Entries(rest[1..], key);
      ScanResumes(rest[1..], key, done);
    } else {
      var e := EntryOf(rest[0]);
      assert Entries(rest, key) == [e] + Entries(rest[1..], key);
      assert all == (done + [e]) + Entries(rest[1..], key);
      assert all[|done|] == e;
      NamesOfGroupBy(done, e.paradigm);
      if |NamesIn(done, e.paradigm)| >= 2 {
        StopStep(all, |done|);
      } else {
        StopStep(all, |done|);
        GroupByAppend(done, e);
        ScanResumes(rest[1..], key, done + [e]);
      }
    }
  }

  lemma StopStep(xs: seq<Entry>, j: nat)
    requires j < |xs|
    ensures |NamesIn(xs[..j], xs[j].paradigm)| >= 2 ==> StopFrom(xs, j) == j
    ensures |NamesIn(xs[..j], xs[j].paradigm)| < 2 ==> StopFrom(xs, j) == StopFrom(xs, j + 1)
  {
  }

  /** The scan groups exactly the admitted entries: the kept tasks before the
      first one whose paradigm already holds two names. */
  lemma MatchedGroupsReference(key: string, ts: seq<Task>)
    ensures MatchedGroups(key, ts) == GroupBy(Admitted(Entries(ts, key)))
  {
    ScanResumes(ts, key, []);
    assert [] + Entries(ts, key) == Entries(ts, key);
  }

  // ---------------------------------------------------------------------------
  // Properties of the matcher
  // ---------------------------------------------------------------------------

  lemma GroupByNonEmpty(xs: seq<Entry>)
    ensures xs != [] ==> GroupBy(xs) != []
  {
  }

  lemma FirstEntryAdmitted(xs: seq<Entry>)
    ensures xs != [] ==> Admitted(xs) != []
  {
    if xs != [] {
      StopStep(xs, 0);
    }
  }

  /** The result is empty exactly when no missed task is both complete and
      matching; in particular it is empty when the missed-task list is empty or
      its key is absent. */
  lemma FetchEmptyExactly(key: string, info: TaskInfo)
    ensures Render(MatchedGroups(key, MissedTasks(info))) == "" <==> Entries(MissedTasks(info), key) == []
    ensures info.weeklyMissedTaskInfos.None? ==> Render(MatchedGroups(key, MissedTasks(info))) == ""
  {
    var es := Entries(MissedTasks(info), key);
    MatchedGroupsReference(key, MissedTasks(info));
    FirstEntryAdmitted(es);
    GroupByNonEmpty(Admitted(es));
  }

  /** A task that is incomplete (no paradigm, an empty paradigm or an empty name)
      or whose brain tags do not equal the key never contributes: dropping it
      from the input leaves the groups unchanged. */
  lemma SkipIneligible(key: string, ts: seq<Task>, i: int)
    requires 0 <= i < |ts| && !Eligible(ts[i], key)
    ensures MatchedGroups(key, ts) == MatchedGroups(key, ts[..i] + ts[i + 1..])
  {
    var a, b := ts[..i], ts[i + 1..];
    assert ts == (a + [ts[i]]) + b;
    EntriesConcat(a + [ts[i]], b, key);
    EntriesConcat(a, [ts[i]], key);
    EntriesConcat(a, b, key);
    assert [ts[i]][1..] == [];
    assert Entries([ts[i]], key) == [];
    assert Entries(ts, key) == Entries(a + b, key);
    MatchedGroupsReference(key, ts);
    MatchedGroupsReference(key, a + b);
  }

  /** No entry of `ys` is the third of its paradigm. */
  predicate Capped(ys: seq<Entry>)
  {
    forall i :: 0 <= i < |ys| ==> |NamesIn(ys[..i], ys[i].paradigm)| < 2
  }

  lemma {:induction false} CappedBound(ys: seq<Entry>, p: string)
    requires Capped(ys)
    ensures |NamesIn(ys, p)| <= 2
  {
    if ys != [] {
      var init, e := ys[..|ys| - 1], ys[|ys| - 1];
      forall i | 0 <= i < |init| ensures |NamesIn(init[..i], init[i].paradigm)| < 2 {
        assert init[..i] == ys[..i];
        assert init[i] == ys[i];
      }
      CappedBound(init, p);
      assert |NamesIn(init, e.paradigm)| < 2;
      assert NamesIn(ys, p) == NamesIn(init, p) + (if e.paradigm == p then [e.name] else []);
    }
  }

  lemma AdmittedCapped(xs: seq<Entry>, p: string)
    ensures |NamesIn(Admitted(xs), p)| <= 2
  {
    var ys := Admitted(xs);
    forall i | 0 <= i < |ys| ensures |NamesIn(ys[..i], ys[i].paradigm)| < 2 {
      assert ys[..i] == xs[..i];
      assert ys[i] == xs[i];
    }
    CappedBound(ys, p);
  }

  /** Group cap: paradigms are distinct and every group holds one or two names. */
  lemma GroupCap(key: string, ts: seq<Task>)
    ensures DistinctParadigms(MatchedGroups(key, ts))
    ensures forall g :: g in MatchedGroups(key, ts) ==> 1 <= |g.names| <= 2
  {
    var adm := Admitted(Entries(ts, key));
    MatchedGroupsReference(key, ts);
    GroupByDistinct(adm);
    GroupByNames(adm);
    GroupByOrder(adm);
    var r := GroupBy(adm);
    forall g | g in r ensures 1 <= |g.names| <= 2 {
      var i :| 0 <= i < |r| && r[i] == g;
      AdmittedCapped(Entries(ts, key), g.paradigm);
      NamesInPresent(adm, g.paradigm);
      assert Paradigms(r)[i] == g.paradigm;
    }
  }

  /** Ordering: groups appear in the order in which their paradigms first occur
      among the admitted entries, and each group lists its names in input order. */
  lemma GroupOrder(key: string, ts: seq<Task>)
    ensures var r, adm := MatchedGroups(key, ts), Admitted(Entries(ts, key));
      Paradigms(r) == Dedup(ParadigmsOf(adm)) &&
      forall i :: 0 <= i < |r| ==> r[i].names == NamesIn(adm, r[i].paradigm)
  {
    MatchedGroupsReference(key, ts);
    GroupByOrder(Admitted(Entries(ts, key)));
    GroupByNames(Admitted(Entries(ts, key)));
  }

  /** Match rule: every name shown comes from a complete missed task whose
      level-1 or level-2 tag equals the key, under that task's own paradigm. */
  lemma Provenance(key: string, ts: seq<Task>)
    ensures forall g, n :: g in MatchedGroups(key, ts) && n in g.names ==>
      exists t :: t in ts && Eligible(t, key) && t.paradigm == Some(g.paradigm) && t.name == n
  {
    forall g, n | g in MatchedGroups(key, ts) && n in g.names
      ensures exists t :: t in ts && Eligible(t, key) && t.paradigm == Some(g.paradigm) && t.name == n
    {
      NameProvenance(key, ts, g, n);
      EntriesFromTasks(ts, key, Entry(g.paradigm, n));
      var t :| t in ts && Eligible(t, key) && EntryOf(t) == Entry(g.paradigm, n);
    }
  }

  lemma NameProvenance(key: string, ts: seq<Task>, g: Group, n: string)
    requires g in MatchedGroups(key, ts) && n in g.names
    ensures Entry(g.paradigm, n) in Entries(ts, key)
  {
    var adm := Admitted(Entries(ts, key));
    MatchedGroupsReference(key, ts);
    GroupByNames(adm);
    var r := GroupBy(adm);
    var i :| 0 <= i < |r| && r[i] == g;
    NamesInFromEntries(adm, g.paradigm, n);
  }

  lemma {:induction false} StopFromPrefix(xs: seq<Entry>, ys: seq<Entry>, j: nat)
    requires j <= |xs|
    ensures StopFrom(xs + ys, j) ==
      if StopFrom(xs, j) < |xs| then StopFrom(xs, j) else StopFrom(xs + ys, |xs|)
    decreases |xs| - j
  {
    if j < |xs| {
      assert (xs + ys)[..j] == xs[..j] && (xs + ys)[j] == xs[j];
      StopStep(xs, j);
      StopStep(xs + ys, j);
      StopFromPrefix(xs, ys, j + 1);
    }
  }

  lemma StopAtSeam(eb: seq<Entry>, e: Entry, ea: seq<Entry>)
    requires |NamesIn(eb, e.paradigm)| >= 2
    ensures StopFrom(eb + ([e] + ea), |eb|) == |eb|
  {
    var all := eb + ([e] + ea);
    assert all[..|eb|] == eb;
    assert all[|eb|] == e;
    StopStep(all, |eb|);
  }

  lemma AdmittedStops(eb: seq<Entry>, e: Entry, ea: seq<Entry>)
    requires |NamesOf(GroupBy(Admitted(eb)), e.paradigm)| >= 2
    ensures Admitted(eb + ([e] + ea)) == Admitted(eb)
  {
    var all := eb + ([e] + ea);
    StopFromPrefix(eb, [e] + ea, 0);
    var k := StopFrom(eb, 0);
    if k < |eb| {
      assert all[..k] == eb[..k];
    } else {
      assert Admitted(eb) == eb by {
        assert eb[..|eb|] == eb;
      }
      NamesOfGroupBy(eb, e.paradigm);
      StopAtSeam(eb, e, ea);
      assert all[..|eb|] == eb;
    }
  }

  /** Early stop: once a kept task finds its paradigm already holding two names,
      the scan ends there, and no later task of any paradigm appears. */
  lemma EarlyStop(key: string, before: seq<Task>, t: Task, after: seq<Task>)
    requires Eligible(t, key)
    requires |NamesOf(MatchedGroups(key, before), t.paradigm.value)| >= 2
    ensures MatchedGroups(key, before + [t] + after) == MatchedGroups(key, before)
  {
    var eb, ea := Entries(before, key), Entries(after, key);
    var e := EntryOf(t);
    EntriesConcat(before + [t], after, key);
    EntriesConcat(before, [t], key);
    assert [t][1..] == [];
    assert Entries([t], key) == [e];
    assert Entries(before + [t] + after, key) == eb + ([e] + ea);
    MatchedGroupsReference(key, before);
    MatchedGroupsReference(key, before + [t] + after);
    AdmittedStops(eb, e, ea);
  }

  lemma {:induction false} NamesInPrefix(xs: seq<Entry>, k: nat, p: string)
    requires k <= |xs|
    ensures |NamesIn(xs[..k], p)| <= |NamesIn(xs, p)|
    decreases |xs|
  {
    if k < |xs| {
      var init := xs[..|xs| - 1];
      assert xs == init + [xs[|xs| - 1]];
      NamesInAppend(init, xs[|xs| - 1], p);
      assert init[..k] == xs[..k];
      NamesInPrefix(init, k, p);
    } else {
      assert xs[..k] == xs;
    }
  }

  /** The scan stops only at a third kept task of one paradigm. */
  lemma StopMeansThird(es: seq<Entry>)
    ensures var k := StopFrom(es, 0);
      k < |es| ==> |NamesIn(es, es[k].paradigm)| >= 3
  {
    var k := StopFrom(es, 0);
    if k < |es| {
      var p := es[k].paradigm;
      assert es[..k] + [es[k]] == es[..k + 1];
      NamesInAppend(es[..k], es[k], p);
      NamesInPrefix(es, k + 1, p);
    }
  }

  /** The cap only bites at a third kept task of one paradigm: when no paradigm
      has more than two kept tasks, every kept task is shown. */
  lemma NothingDroppedBelowCap(key: string, ts: seq<Task>)
    requires forall p :: |NamesIn(Entries(ts, key), p)| <= 2
    ensures MatchedGroups(key, ts) == GroupBy(Entries(ts, key))
  {
    var es := Entries(ts, key);
    StopMeansThird(es);
    assert es[..StopFrom(es, 0)] == es;
    MatchedGroupsReference(key, ts);
  }

  /** The case the cap and the early exit are about, on concrete data: two tasks
      of P1 for `memory` (one by its level-2 tag), a task for another ability,
      one task of P2, then a third P1 task that ends the scan, so the later P2
      task is not shown. */
  const TaskA := Task("A", Some("P1"), Some("memory"), None)
  const TaskB := Task("B", Some("P1"), None, Some("memory"))
  const TaskX := Task("X", Some("P2"), Some("attention"), None)
  const TaskC := Task("C", Some("P2"), Some("memory"), None)
  const TaskD := Task("D", Some("P1"), Some("memory"), None)
  const TaskE := Task("E", Some("P2"), Some("memory"), None)
  const ExampleTasks: seq<Task> := [TaskA, TaskB, TaskX, TaskC, TaskD, TaskE]

  const OneGroup: seq<Group> := [Group("P1", ["A"])]
  const TwoNames: seq<Group> := [Group("P1", ["A", "B"])]
  const ExampleGroups: seq<Group> := [Group("P1", ["A", "B"]), Group("P2", ["C"])]

  /** D is the third P1 task: the scan stops there. */
  lemma ExampleStopsAtD()
    ensures Scan([TaskD, TaskE], "memory", ExampleGroups) == ExampleGroups
  {
    assert IndexOf(ExampleGroups, "P1") == 0;
  }

  lemma ExampleAppendsC()
    ensures Scan([TaskC, TaskD, TaskE], "memory", TwoNames)
         == Scan([TaskD, TaskE], "memory", ExampleGroups)
  {
    assert TwoNames[1..] == [];
    assert IndexOf(TwoNames, "P2") == -1;
    assert Append(TwoNames, "P2", "C") == ExampleGroups;
    assert [TaskC, TaskD, TaskE][1..] == [TaskD, TaskE];
  }

  lemma ExampleSkipsX()
    ensures Scan([TaskX, TaskC, TaskD, TaskE], "memory", TwoNames)
         == Scan([TaskC, TaskD, TaskE], "memory", TwoNames)
  {
    assert [TaskX, TaskC, TaskD, TaskE][1..] == [TaskC, TaskD, TaskE];
  }

  lemma ExampleAppendsB()
    ensures Scan([TaskB, TaskX, TaskC, TaskD, TaskE], "memory", OneGroup)
         == Scan([TaskX, TaskC, TaskD, TaskE], "memory", TwoNames)
  {
    assert IndexOf(OneGroup, "P1") == 0;
    assert ["A"] + ["B"] == ["A", "B"];
    assert Append(OneGroup, "P1", "B") == TwoNames;
    assert [TaskB, TaskX, TaskC, TaskD, TaskE][1..] == [TaskX, TaskC, TaskD, TaskE];
  }

  lemma ExampleAppendsA()
    ensures Scan(ExampleTasks, "memory", [])
         == Scan([TaskB, TaskX, TaskC, TaskD, TaskE], "memory", OneGroup)
  {
    assert Append([], "P1", "A") == OneGroup;
    assert ExampleTasks[1..] == [TaskB, TaskX, TaskC, TaskD, TaskE];
  }

  lemma ExampleScan()
    ensures MatchedGroups("memory", ExampleTasks) == ExampleGroups
  {
    ExampleAppendsA();
    ExampleAppendsB();
    ExampleSkipsX();
    ExampleAppendsC();
    ExampleStopsAtD();
  }

  lemma ExampleRender()
    ensures Render(ExampleGroups) == "P1（A、B）、P2（C）"
  {
    var g3 := ExampleGroups;
    assert RenderGroup(g3[0]) == "P1（A、B）";
    assert Join(Comma, ["C"]) == "C";
    assert RenderGroup(g3[1]) == "P2（C）";
    assert g3[..1] == [g3[0]];
    assert RenderGroups(g3) == ["P1（A、B）", "P2（C）"];
  }

  lemma ExampleEarlyStop()
    ensures Render(MatchedGroups("memory", ExampleTasks)) == "P1（A、B）、P2（C）"
  {
    ExampleScan();
    ExampleRender();
  }

  // ---------------------------------------------------------------------------
  // The text helpers
  // ---------------------------------------------------------------------------

  const DifficultyText: string := "当前能力层级+0.5~1级"
  const FrequencyText: string := "每日1次，每次4-8分钟"
  const GoalPrefix: string := "强化"
  const GoalSuffix: string := "能力，提升整体认知灵活性与稳定性。"

  /** calc_difficulty: the same fixed text whatever the ability and score. */
  function CalcDifficulty(abilityKey: string, score: int): (r: string)
    ensures r == DifficultyText
  {
    DifficultyText
  }

  /** fetch_frequency: always the fixed frequency text. */
  function FetchFrequency(): (r: string)
    ensures r == FrequencyText
  {
    FrequencyText
  }

  /** generate_goal_by_llm: a fixed template around the ability name; no model is
      consulted. */
  function GenerateGoalByLlm(abilityNameCn: string): (r: string)
    ensures |r| == |GoalPrefix| + |abilityNameCn| + |GoalSuffix|
    ensures r[..|GoalPrefix|] == GoalPrefix && r[|r| - |GoalSuffix|..] == GoalSuffix
    ensures r[|GoalPrefix|..|r| - |GoalSuffix|] == abilityNameCn
  {
    GoalPrefix + abilityNameCn + GoalSuffix
  }

  /** Reads the ability name back out of a goal text, if it has the goal shape. */
  function GoalSubject(goal: string): (r: Option<string>)
    ensures r.Some? ==> GenerateGoalByLlm(r.value) == goal
  {
    if |goal| >= |GoalPrefix| + |GoalSuffix|
       && goal[..|GoalPrefix|] == GoalPrefix
       && goal[|goal| - |GoalSuffix|..] == GoalSuffix
    then
      var name := goal[|GoalPrefix|..|goal| - |GoalSuffix|];
      assert goal == goal[..|GoalPrefix|] + name + goal[|goal| - |GoalSuffix|..];
      Some(name)
    else None
  }

  /** The ability name is recovered from its goal text. */
  lemma GoalRoundTrip(abilityNameCn: string)
    ensures GoalSubject(GenerateGoalByLlm(abilityNameCn)) == Some(abilityNameCn)
  {
  }

  /** Distinct ability names give distinct goals. */
  lemma GoalInjective(a: string, b: string)
    requires GenerateGoalByLlm(a) == GenerateGoalByLlm(b)
    ensures a == b
  {
    GoalRoundTrip(a);
    GoalRoundTrip(b);
  }
}
