/** The scheduler that moves due validation jobs into a queue. */
module JobScheduler {
  import opened Basics
  import opened JobQueue

  datatype Scheduled = Scheduled(job: Job, at: int)

  ghost function Due(scheduled: map<nat, Scheduled>, now: int): set<nat> {
    set id | id in scheduled && scheduled[id].at <= now
  }

  /** The jobs of some scheduled ids, in order. */
  function JobsOf(scheduled: map<nat, Scheduled>, ids: seq<nat>): seq<Job>
    requires forall id :: id in ids ==> id in scheduled
  {
    if ids == [] then [] else JobsOf(scheduled, ids[..|ids| - 1]) + [scheduled[ids[|ids| - 1]].job]
  }

  predicate Distinct(ids: seq<nat>) {
    forall i, j :: 0 <= i < j < |ids| ==> ids[i] != ids[j]
  }

  function SetOf(ids: seq<nat>): set<nat> { set id | id in ids }

  lemma {:induction false} DistinctSize(ids: seq<nat>)
    requires Distinct(ids)
    ensures |SetOf(ids)| == |ids|
  {
    if ids != [] {
      var n := |ids| - 1;
      DistinctSize(ids[..n]);
      assert SetOf(ids) == SetOf(ids[..n]) + {ids[n]};
    }
  }

  lemma {:induction false} SubsetSize(a: set<nat>, b: set<nat>)
    requires a <= b
    ensures |a| <= |b|
  {
    assert b == a + (b - a);
  }

  /** How many jobs a tick moves: none into a closed queue, all due ones into an unlimited one, and
      as many as there is room for otherwise. */
  ghost function MovedCount(due: int, closed: bool, maxSize: int, size: int): int {
    if closed then 0 else if maxSize <= 0 then due else Min(due, maxSize - size)
  }

  /** What the loop of a tick maintains: `todo` are the ids not looked at yet, `size` and `size0` the
      queue's size now and before the tick. */
  ghost predicate Progress(
    scheduled: map<nat, Scheduled>, now: int, todo: set<nat>, moved: seq<nat>,
    closed: bool, maxSize: int, size0: int, size: int): (p: bool)
    ensures p ==> Distinct(moved) && forall id :: id in moved ==> id in scheduled
  {
    && Distinct(moved) && SetOf(moved) <= Due(scheduled, now) && SetOf(moved) !! todo
    && (forall id :: id in moved ==> id in scheduled)
    && size == size0 + |moved|
    && (closed ==> moved == [])
    && (!closed ==> Due(scheduled, now) - todo <= SetOf(moved) || (maxSize > 0 && size >= maxSize))
  }

  lemma {:induction false} ProgressStart(
    scheduled: map<nat, Scheduled>, now: int, closed: bool, maxSize: int, size0: int)
    ensures Progress(scheduled, now, scheduled.Keys, [], closed, maxSize, size0, size0)
    ensures JobsOf(scheduled, []) == []
  {
  }

  lemma {:induction false} ProgressKeep(
    scheduled: map<nat, Scheduled>, now: int, todo: set<nat>, moved: seq<nat>,
    closed: bool, maxSize: int, size0: int, size: int, id: nat)
    requires Progress(scheduled, now, todo, moved, closed, maxSize, size0, size)
    requires id in Due(scheduled, now) ==> closed || (maxSize > 0 && size >= maxSize)
    ensures Progress(scheduled, now, todo - {id}, moved, closed, maxSize, size0, size)
  {
  }

  lemma {:induction false} ProgressMove(
    scheduled: map<nat, Scheduled>, now: int, todo: set<nat>, moved: seq<nat>,
    closed: bool, maxSize: int, size0: int, size: int, id: nat)
    requires Progress(scheduled, now, todo, moved, closed, maxSize, size0, size)
    requires id in todo && id in Due(scheduled, now) && !closed
    ensures Progress(scheduled, now, todo - {id}, moved + [id], closed, maxSize, size0, size + 1)
    ensures multiset(JobsOf(scheduled, moved + [id])) == multiset(JobsOf(scheduled, moved)) + multiset{scheduled[id].job}
  {
    assert SetOf(moved + [id]) == SetOf(moved) + {id};
    assert (moved + [id])[..|moved|] == moved;
  }

  lemma {:induction false} CountMoved(
    scheduled: map<nat, Scheduled>, now: int, moved: seq<nat>,
    closed: bool, maxSize: int, size0: int, size: int)
    requires Progress(scheduled, now, {}, moved, closed, maxSize, size0, size)
    requires maxSize > 0 ==> size <= maxSize
    ensures |moved| == MovedCount(|Due(scheduled, now)|, closed, maxSize, size0)
    ensures forall id :: id in moved ==> id in scheduled && scheduled[id].at <= now
  {
    assert forall id :: id in moved ==> id in SetOf(moved);
    DistinctSize(moved);
    SubsetSize(SetOf(moved), Due(scheduled, now));
    if !closed && Due(scheduled, now) <= SetOf(moved) {
      assert Due(scheduled, now) == SetOf(moved);
    }
  }

  class Scheduler {
    const queue: PriorityQueue
    var scheduled: map<nat, Scheduled>

    constructor (queue: PriorityQueue)
      ensures this.queue == queue && scheduled == map[]
    {
      this.queue := queue;
      scheduled := map[];
    }

    /** Scheduling again under the same id replaces the earlier entry. */
    method ScheduleJob(job: Job, at: int)
      modifies this
      ensures scheduled == old(scheduled)[job.id := Scheduled(job, at)]
    {
      scheduled := scheduled[job.id := Scheduled(job, at)];
    }

    /** One iteration: the job goes into the queue exactly when it is due and the queue takes it. */
    method TryPush(id: nat, now: int) returns (pushed: bool)
      requires queue.Valid() && id in scheduled
      modifies queue
      ensures queue.Valid() && queue.closed == old(queue.closed)
      ensures pushed <==> id in Due(scheduled, now) && !queue.closed
                          && (queue.maxSize > 0 ==> |old(queue.jobs)| < queue.maxSize)
      ensures |queue.jobs| == |old(queue.jobs)| + if pushed then 1 else 0
      ensures queue.accepted == old(queue.accepted) + if pushed then multiset{scheduled[id].job} else multiset{}
      ensures queue.handedOut == old(queue.handedOut) && queue.cleared == old(queue.cleared)
    {
      pushed := false;
      if scheduled[id].at <= now {
        var r := queue.Push(scheduled[id].job);
        pushed := r.Pushed?;
      }
    }

    /** The loop over the scheduled jobs. */
    method PushDue(now: int) returns (moved: seq<nat>)
      requires queue.Valid()
      modifies queue
      ensures queue.Valid() && queue.closed == old(queue.closed)
      ensures queue.handedOut == old(queue.handedOut) && queue.cleared == old(queue.cleared)
      ensures Progress(scheduled, now, {}, moved, queue.closed, queue.maxSize, |old(queue.jobs)|, |queue.jobs|)
      ensures queue.accepted == old(queue.accepted) + multiset(JobsOf(scheduled, moved))
    {
      hide PriorityQueue.Valid, Progress, Distinct, JobsOf, Due;
      moved := [];
      ghost var size0 := |queue.jobs|;
      var todo := scheduled.Keys;
      ProgressStart(scheduled, now, queue.closed, queue.maxSize, size0);
      while todo != {}
        invariant todo <= scheduled.Keys
        invariant queue.Valid() && queue.closed == old(queue.closed)
        invariant queue.handedOut == old(queue.handedOut) && queue.cleared == old(queue.cleared)
        invariant Progress(scheduled, now, todo, moved, queue.closed, queue.maxSize, size0, |queue.jobs|)
        invariant queue.accepted == old(queue.accepted) + multiset(JobsOf(scheduled, moved))
        decreases |todo|
      {
        var id :| id in todo;
        ghost var size := |queue.jobs|;
        var pushed := TryPush(id, now);
        if pushed {
          ProgressMove(scheduled, now, todo, moved, queue.closed, queue.maxSize, size0, size, id);
          moved := moved + [id];
        } else {
          ProgressKeep(scheduled, now, todo, moved, queue.closed, queue.maxSize, size0, size, id);
        }
        todo := todo - {id};
      }
    }

    /** One tick. The jobs it moves were due, each enters the queue once and leaves the schedule, the
        rest stay, and no due job stays behind while the queue still has room. */
    method CheckScheduledJobs(now: int) returns (moved: seq<nat>)
      requires queue.Valid()
      modifies this, queue
      ensures queue.Valid() && queue.closed == old(queue.closed)
      ensures Distinct(moved) && forall id :: id in moved ==> id in old(scheduled) && old(scheduled)[id].at <= now
      ensures scheduled == old(scheduled) - SetOf(moved)
      ensures queue.accepted == old(queue.accepted) + multiset(JobsOf(old(scheduled), moved))
      ensures queue.handedOut == old(queue.handedOut) && queue.cleared == old(queue.cleared)
      ensures |moved| == MovedCount(|Due(old(scheduled), now)|, queue.closed, queue.maxSize, |old(queue.jobs)|)
    {
      hide PriorityQueue.Valid, Progress, Distinct;
      moved := PushDue(now);
      CountMoved(scheduled, now, moved, queue.closed, queue.maxSize, |old(queue.jobs)|, |queue.jobs|);
      scheduled := scheduled - SetOf(moved);
    }
  }
}
