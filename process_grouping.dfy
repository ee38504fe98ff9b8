/**
 * Grouping of focus samples by process, as the `/grouped-activities` route
 * of the sampling server computes it from the stored samples.
 *
 * The reduction buckets samples by `owner.processId` over the WHOLE input,
 * not by contiguous runs: two separate stretches of one process end up in
 * one group, and that group's `start` and `end` span both of them.  Each
 * bucket is then projected to a group record.
 */
module ProcessGrouping {
  import opened Optional

  /** Process ids are array-index keys of the dictionary the reduction
      fills (below 2^32 - 1), the keys `Object.keys` lists in ascending
      numeric order. */
  type ProcessId = n: nat | n < 0xFFFF_FFFF

  datatype Owner = Owner(name: string, processId: ProcessId)

  /** One stored focus sample; `timestamp` is in milliseconds. */
  datatype Activity = Activity(title: string, owner: Owner, memoryUsage: Option<int>, timestamp: int)

  /** What a group reports of each of its samples. */
  datatype ActivitySummary = ActivitySummary(title: string, timestamp: int, memoryUsage: Option<int>)

  datatype Group = Group(
    processId: nat,
    ownerName: string,
    start: int,
    end: int,
    activities: seq<ActivitySummary>)

  function Pid(a: Activity): nat {
    a.owner.processId
  }

  /** The order the route asks the store for: ascending by timestamp. */
  predicate SortedByTimestamp(acts: seq<Activity>) {
    forall i, j :: 0 <= i < j < |acts| ==> acts[i].timestamp <= acts[j].timestamp
  }

  function ProcessIds(acts: seq<Activity>): set<nat> {
    set a | a in acts :: Pid(a)
  }

  /** The samples of process `pid`, in input order. */
  function OfProcess(acts: seq<Activity>, pid: nat): seq<Activity> {
    if acts == [] then []
    else
      var last := acts[|acts| - 1];
      OfProcess(acts[..|acts| - 1], pid) + (if Pid(last) == pid then [last] else [])
  }

  lemma {:induction false} OfProcessMembers(acts: seq<Activity>, pid: nat)
    ensures forall a :: a in OfProcess(acts, pid) <==> a in acts && Pid(a) == pid
  {
    if acts != [] {
      var front := acts[..|acts| - 1];
      OfProcessMembers(front, pid);
      assert acts == front + [acts[|acts| - 1]];
    }
  }

  lemma {:induction false} OfProcessSorted(acts: seq<Activity>, pid: nat)
    requires SortedByTimestamp(acts)
    ensures SortedByTimestamp(OfProcess(acts, pid))
  {
    if acts != [] {
      var front := acts[..|acts| - 1];
      var last := acts[|acts| - 1];
      OfProcessSorted(front, pid);
      OfProcessMembers(front, pid);
      var members := OfProcess(front, pid);
      forall i | 0 <= i < |members|
        ensures members[i].timestamp <= last.timestamp
      {
        assert members[i] in front;
      }
    }
  }

  /** The dictionary the reduction builds: one bucket per process that
      occurs, holding that process's samples in input order. */
  function Buckets(acts: seq<Activity>): (buckets: map<nat, seq<Activity>>)
    ensures buckets.Keys == ProcessIds(acts)
    ensures forall pid :: pid in buckets ==>
      buckets[pid] != [] && forall a :: a in buckets[pid] <==> a in acts && Pid(a) == pid
  {
    forall pid ensures forall a :: a in OfProcess(acts, pid) <==> a in acts && Pid(a) == pid {
      OfProcessMembers(acts, pid);
    }
    map pid | pid in ProcessIds(acts) :: OfProcess(acts, pid)
  }

  lemma OfProcessAbsent(acts: seq<Activity>, pid: nat)
    requires pid !in ProcessIds(acts)
    ensures OfProcess(acts, pid) == []
  {
    OfProcessMembers(acts, pid);
    if OfProcess(acts, pid) != [] {
      assert OfProcess(acts, pid)[0] in OfProcess(acts, pid);
    }
  }

  lemma ProcessIdsAppend(acts: seq<Activity>, a: Activity)
    ensures ProcessIds(acts + [a]) == ProcessIds(acts) + {Pid(a)}
  {
    var s := acts + [a];
    forall pid | pid in ProcessIds(s) ensures pid in ProcessIds(acts) + {Pid(a)} {
      var b :| b in s && Pid(b) == pid;
      if b != a {
        assert b in acts;
      }
    }
    forall pid | pid in ProcessIds(acts) ensures pid in ProcessIds(s) {
      var b :| b in acts && Pid(b) == pid;
      assert b in s;
    }
    assert a in s;
  }

  lemma BucketsAppend(acts: seq<Activity>, a: Activity)
    ensures Buckets(acts + [a]) ==
      Buckets(acts)[Pid(a) := (if Pid(a) in Buckets(acts) then Buckets(acts)[Pid(a)] else []) + [a]]
  {
    var s := acts + [a];
    var p := Pid(a);
    var before, after := Buckets(acts), Buckets(s);
    var expected := before[p := (if p in before then before[p] else []) + [a]];
    ProcessIdsAppend(acts, a);
    assert after.Keys == expected.Keys;
    forall pid | pid in after
      ensures after[pid] == expected[pid]
    {
      OfProcessAppend(acts, a, pid);
      if pid == p && p !in before {
        OfProcessAbsent(acts, p);
      }
    }
  }

  lemma OfProcessAppend(acts: seq<Activity>, a: Activity, pid: nat)
    ensures OfProcess(acts + [a], pid) == OfProcess(acts, pid) + (if Pid(a) == pid then [a] else [])
  {
    var s := acts + [a];
    assert s[..|s| - 1] == acts;
  }

  /** The `reduce` over the samples: for each sample, create its process's
      bucket if it is missing and append the sample to it. */
  method Accumulate(acts: seq<Activity>) returns (acc: map<nat, seq<Activity>>)
    ensures acc == Buckets(acts)
  {
    acc := map[];
    for i := 0 to |acts|
      invariant acc == Buckets(acts[..i])
    {
      var activity := acts[i];
      var processId := activity.owner.processId;
      if processId !in acc {
        acc := acc[processId := []];
      }
      acc := acc[processId := acc[processId] + [activity]];
      assert acts[..i + 1] == acts[..i] + [activity];
      BucketsAppend(acts[..i], activity);
    }
    assert acts[..|acts|] == acts;
  }

  predicate StrictlyIncreasing(keys: seq<nat>) {
    forall i, j :: 0 <= i < j < |keys| ==> keys[i] < keys[j]
  }

  lemma HasMinimum(ks: set<nat>)
    requires ks != {}
    ensures exists m :: m in ks && forall k :: k in ks ==> m <= k
  {
    var x :| x in ks;
    MinimumAtLeast(ks, x, 0);
  }

  lemma MinimumAtLeast(ks: set<nat>, x: nat, bound: nat)
    requires x in ks && bound <= x
    requires forall k :: k in ks ==> bound <= k
    ensures exists m :: m in ks && forall k :: k in ks ==> m <= k
    decreases x - bound
  {
    if bound !in ks {
      MinimumAtLeast(ks, x, bound + 1);
    }
  }

  function MinOf(ks: set<nat>): (m: nat)
    requires ks != {}
    ensures m in ks && forall k :: k in ks ==> m <= k
  {
    HasMinimum(ks);
    var m :| m in ks && forall k :: k in ks ==> m <= k;
    m
  }

  /** The order in which `Object.keys` lists integer-like keys: ascending. */
  function SortedKeys(ks: set<nat>): (keys: seq<nat>)
    ensures forall k :: k in keys <==> k in ks
    ensures StrictlyIncreasing(keys)
    decreases ks
  {
    if ks == {} then []
    else
      var m := MinOf(ks);
      var rest := SortedKeys(ks - {m});
      assert forall j :: 0 <= j < |rest| ==> m < rest[j] by {
        forall j | 0 <= j < |rest| ensures m < rest[j] {
          assert rest[j] in ks - {m};
        }
      }
      [m] + rest
  }

  function Summarize(a: Activity): ActivitySummary {
    ActivitySummary(a.title, a.timestamp, a.memoryUsage)
  }

  function Summaries(acts: seq<Activity>): seq<ActivitySummary> {
    seq(|acts|, i requires 0 <= i < |acts| => Summarize(acts[i]))
  }

  /** The record built from one bucket: first sample's owner name and
      timestamp, last sample's timestamp, and every sample summarised. */
  function MakeGroup(pid: nat, members: seq<Activity>): Group
    requires members != []
  {
    Group(pid, members[0].owner.name, members[0].timestamp,
          members[|members| - 1].timestamp, Summaries(members))
  }

  /** `Object.keys(grouped).map(...)`: one group per bucket, by key. */
  function Project(buckets: map<nat, seq<Activity>>): seq<Group>
    requires forall pid :: pid in buckets ==> buckets[pid] != []
  {
    var keys := SortedKeys(buckets.Keys);
    seq(|keys|, i requires 0 <= i < |keys| => MakeGroup(keys[i], buckets[keys[i]]))
  }

  /** The groups the route answers with, as a function of the samples. */
  function Groups(acts: seq<Activity>): seq<Group> {
    Project(Buckets(acts))
  }

  /** The shape of the answer: one group per process, keyed by a distinct
      process id in ascending key order, holding exactly that process's
      samples in input order, with the owner name and start of the first
      sample and the end of the last. */
  ghost predicate WellGrouped(acts: seq<Activity>, groups: seq<Group>) {
    && (forall i, j :: 0 <= i < j < |groups| ==> groups[i].processId < groups[j].processId)
    && (forall pid :: pid in ProcessIds(acts) <==>
         exists i :: 0 <= i < |groups| && groups[i].processId == pid)
    && (forall i :: 0 <= i < |groups| ==> IsGroupOf(acts, groups[i]))
  }

  predicate IsGroupOf(acts: seq<Activity>, g: Group) {
    var members := OfProcess(acts, g.processId);
    && members != []
    && g.ownerName == members[0].owner.name
    && g.start == members[0].timestamp
    && g.end == members[|members| - 1].timestamp
    && g.activities == Summaries(members)
  }

  lemma GroupsAreWellGrouped(acts: seq<Activity>)
    ensures WellGrouped(acts, Groups(acts))
  {
    var buckets := Buckets(acts);
    var groups := Groups(acts);
    var keys := SortedKeys(buckets.Keys);
    assert |groups| == |keys|;
    forall i | 0 <= i < |groups|
      ensures groups[i].processId == keys[i] && IsGroupOf(acts, groups[i])
    {
      assert groups[i] == MakeGroup(keys[i], buckets[keys[i]]);
    }
    forall pid | pid in ProcessIds(acts)
      ensures exists i :: 0 <= i < |groups| && groups[i].processId == pid
    {
      assert pid in keys;
      var i :| 0 <= i < |keys| && keys[i] == pid;
      assert groups[i].processId == pid;
    }
  }

  /** groupAndCalculateActivities: reduce the samples into buckets, then
      project each bucket to a group. */
  method GroupAndCalculateActivities(acts: seq<Activity>) returns (groups: seq<Group>)
    ensures groups == Groups(acts)
    ensures acts == [] ==> groups == []
    ensures WellGrouped(acts, groups)
  {
    var grouped := Accumulate(acts);
    groups := Project(grouped);
    GroupsAreWellGrouped(acts);
  }

  /** Every group holds a sample, and a group of a single sample starts
      and ends at the same instant. */
  lemma SingleSampleGroupIsInstant(acts: seq<Activity>, i: nat)
    requires i < |Groups(acts)|
    ensures |Groups(acts)[i].activities| >= 1
    ensures |Groups(acts)[i].activities| == 1 ==> Groups(acts)[i].start == Groups(acts)[i].end
  {
    var buckets := Buckets(acts);
    var keys := SortedKeys(buckets.Keys);
    var members := buckets[keys[i]];
    assert Groups(acts)[i] == MakeGroup(keys[i], members);
    assert |Summaries(members)| == |members|;
  }

  function TotalMembers(groups: seq<Group>): nat {
    if groups == [] then 0 else |groups[0].activities| + TotalMembers(groups[1..])
  }

  function SumSizes(acts: seq<Activity>, keys: seq<nat>): nat {
    if keys == [] then 0 else |OfProcess(acts, keys[0])| + SumSizes(acts, keys[1..])
  }

  lemma {:induction false} TotalMembersBySize(acts: seq<Activity>, groups: seq<Group>, keys: seq<nat>)
    requires |groups| == |keys|
    requires forall i :: 0 <= i < |keys| ==> |groups[i].activities| == |OfProcess(acts, keys[i])|
    ensures TotalMembers(groups) == SumSizes(acts, keys)
  {
    if keys != [] {
      TotalMembersBySize(acts, groups[1..], keys[1..]);
    }
  }

  lemma {:induction false} SumSizesOfNothing(keys: seq<nat>)
    ensures SumSizes([], keys) == 0
  {
    if keys != [] {
      SumSizesOfNothing(keys[1..]);
    }
  }

  lemma {:induction false} SumSizesAppend(acts: seq<Activity>, a: Activity, keys: seq<nat>)
    ensures SumSizes(acts + [a], keys) == SumSizes(acts, keys) + multiset(keys)[Pid(a)]
  {
    if keys != [] {
      var s := acts + [a];
      assert s[..|s| - 1] == acts;
      SumSizesAppend(acts, a, keys[1..]);
      assert keys == [keys[0]] + keys[1..];
    }
  }

  lemma {:induction false} OccursOnce(keys: seq<nat>, pid: nat)
    requires StrictlyIncreasing(keys) && pid in keys
    ensures multiset(keys)[pid] == 1
  {
    assert keys == [keys[0]] + keys[1..];
    if keys[0] == pid {
      assert pid !in keys[1..];
    } else {
      OccursOnce(keys[1..], pid);
    }
  }

  lemma {:induction false} SumSizesCoversAll(acts: seq<Activity>, keys: seq<nat>)
    requires StrictlyIncreasing(keys)
    requires forall a :: a in acts ==> Pid(a) in keys
    ensures SumSizes(acts, keys) == |acts|
  {
    if acts == [] {
      SumSizesOfNothing(keys);
    } else {
      var front, last := acts[..|acts| - 1], acts[|acts| - 1];
      assert acts == front + [last];
      SumSizesCoversAll(front, keys);
      SumSizesAppend(front, last, keys);
      OccursOnce(keys, Pid(last));
    }
  }

  /** Partition law: the group sizes add up to the number of samples, so
      every sample is reported once. */
  lemma GroupsPartitionSamples(acts: seq<Activity>)
    ensures TotalMembers(Groups(acts)) == |acts|
  {
    var buckets := Buckets(acts);
    var keys := SortedKeys(buckets.Keys);
    TotalMembersBySize(acts, Groups(acts), keys);
    SumSizesCoversAll(acts, keys);
  }

  /** A sample lands in exactly one group: the one keyed by its process id,
      which holds it. */
  lemma SampleInExactlyOneGroup(acts: seq<Activity>, k: nat)
    requires k < |acts|
    ensures var groups := Groups(acts);
      exists i :: 0 <= i < |groups| && groups[i].processId == Pid(acts[k])
        && acts[k] in OfProcess(acts, groups[i].processId)
        && forall j :: 0 <= j < |groups| && j != i ==> groups[j].processId != Pid(acts[k])
  {
    var groups := Groups(acts);
    var keys := SortedKeys(Buckets(acts).Keys);
    var pid := Pid(acts[k]);
    assert pid in ProcessIds(acts);
    var i :| 0 <= i < |keys| && keys[i] == pid;
    OfProcessMembers(acts, pid);
    assert groups[i].processId == pid;
  }

  /** With the samples sorted ascending, as the route fetches them, every
      group starts no later than it ends. */
  lemma GroupStartsBeforeEnd(acts: seq<Activity>)
    requires SortedByTimestamp(acts)
    ensures forall g :: g in Groups(acts) ==> g.start <= g.end
  {
    forall pid | pid in ProcessIds(acts) {
      OfProcessSorted(acts, pid);
    }
  }
}
