/** The bounded, closable priority queues: a binary heap in the manner of Go's container/heap. */
module JobQueue {

  /** A queued job. `time` is CreatedAt for validation jobs and ScheduledAt for email jobs. */
  datatype Job = Job(id: nat, priority: int, time: int)

  /** `Less`: higher priority first, then the earlier time. */
  predicate Outranks(a: Job, b: Job) {
    if a.priority != b.priority then a.priority > b.priority else a.time < b.time
  }

  function Parent(k: nat): nat
    requires k > 0
  {
    (k - 1) / 2
  }

  /** Heap order on the first n slots: no job outranks its parent. */
  predicate Heap(h: seq<Job>, n: nat)
    requires n <= |h|
  {
    forall k :: 0 < k < n ==> !Outranks(h[k], h[Parent(k)])
  }

  /** Heap order except possibly between slot j and its parent. */
  predicate HeapButUp(h: seq<Job>, j: nat) {
    && (forall k :: 0 < k < |h| && k != j ==> !Outranks(h[k], h[Parent(k)]))
    && (forall k :: 0 < k < |h| && Parent(k) == j && j > 0 && Parent(j) < |h| ==> !Outranks(h[k], h[Parent(j)]))
  }

  /** Heap order on the first n slots except possibly between slot i and its children. */
  predicate HeapButDown(h: seq<Job>, i: nat, n: nat)
    requires n <= |h|
  {
    && (forall k :: 0 < k < n && Parent(k) != i ==> !Outranks(h[k], h[Parent(k)]))
    && (forall k :: 0 < k < n && Parent(k) == i && i > 0 && Parent(i) < n ==> !Outranks(h[k], h[Parent(i)]))
  }

  function Swap(h: seq<Job>, i: nat, j: nat): (r: seq<Job>)
    requires i < |h| && j < |h|
    ensures |r| == |h| && r[i] == h[j] && r[j] == h[i]
    ensures forall k :: 0 <= k < |h| && k != i && k != j ==> r[k] == h[k]
    ensures multiset(r) == multiset(h)
  {
    h[i := h[j]][j := h[i]]
  }

  /** The root of a heap is outranked by nothing in it: no job there has a higher priority number, and
      none of the same priority is earlier. */
  lemma {:induction false} RootIsBest(h: seq<Job>, n: nat, k: nat)
    requires k < n <= |h| && Heap(h, n)
    ensures !Outranks(h[k], h[0])
    ensures h[k].priority < h[0].priority || (h[k].priority == h[0].priority && h[0].time <= h[k].time)
  {
    if k > 0 {
      RootIsBest(h, n, Parent(k));
    }
  }

  lemma {:induction false} BestOfAll(h: seq<Job>)
    requires h != [] && Heap(h, |h|)
    ensures forall x :: x in multiset(h) ==> !Outranks(x, h[0])
  {
    forall x | x in multiset(h) ensures !Outranks(x, h[0]) {
      var k :| 0 <= k < |h| && h[k] == x;
      RootIsBest(h, |h|, k);
    }
  }

  lemma {:induction false} UpStep(h: seq<Job>, j: nat)
    requires 0 < j < |h| && HeapButUp(h, j) && Outranks(h[j], h[Parent(j)])
    ensures HeapButUp(Swap(h, Parent(j), j), Parent(j))
  {
    var r, i := Swap(h, Parent(j), j), Parent(j);
    forall k | 0 < k < |h| && k != i ensures !Outranks(r[k], r[Parent(k)]) {
      if Parent(k) == j {
        assert !Outranks(h[k], h[i]);
      }
    }
  }

  lemma {:induction false} UpDone(h: seq<Job>, j: nat)
    requires j < |h| && HeapButUp(h, j) && (j == 0 || !Outranks(h[j], h[Parent(j)]))
    ensures Heap(h, |h|)
  {
  }

  /** Slot j is the child of i that `down` picks: outranked by neither child. */
  predicate BestChild(h: seq<Job>, i: nat, j: nat, n: nat)
    requires n <= |h|
  {
    0 < j < n && Parent(j) == i && forall k :: 0 < k < n && Parent(k) == i ==> !Outranks(h[k], h[j])
  }

  lemma {:induction false} ChildPicked(h: seq<Job>, i: nat, j: nat, n: nat)
    requires n <= |h| && 2 * i + 1 < n
    requires j == if 2 * i + 2 < n && Outranks(h[2 * i + 2], h[2 * i + 1]) then 2 * i + 2 else 2 * i + 1
    ensures BestChild(h, i, j, n)
  {
    forall k | 0 < k < n && Parent(k) == i ensures !Outranks(h[k], h[j]) {
      assert k == 2 * i + 1 || k == 2 * i + 2;
    }
  }

  lemma {:induction false} DownStep(h: seq<Job>, i: nat, j: nat, n: nat)
    requires n <= |h| && HeapButDown(h, i, n) && BestChild(h, i, j, n) && Outranks(h[j], h[i])
    ensures HeapButDown(Swap(h, i, j), j, n)
  {
    var r := Swap(h, i, j);
    forall k | 0 < k < n && Parent(k) != j ensures !Outranks(r[k], r[Parent(k)]) {
      assert Parent(k) == i || Parent(k) != i;
      if k == i {
        assert !Outranks(h[j], h[Parent(i)]);
      }
    }
  }

  lemma {:induction false} DownDone(h: seq<Job>, i: nat, j: nat, n: nat)
    requires n <= |h| && HeapButDown(h, i, n) && BestChild(h, i, j, n) && !Outranks(h[j], h[i])
    ensures Heap(h, n)
  {
  }

  lemma {:induction false} DownAtLeaf(h: seq<Job>, i: nat, n: nat)
    requires n <= |h| && HeapButDown(h, i, n) && 2 * i + 1 >= n
    ensures Heap(h, n)
  {
    forall k | 0 < k < n ensures Parent(k) != i {
    }
  }

  /** Cutting the last slot off after moving the root there. */
  lemma {:induction false} RootRemoved(h: seq<Job>)
    requires h != [] && Heap(h, |h|)
    ensures HeapButDown(Swap(h, 0, |h| - 1), 0, |h| - 1)
  {
  }

  lemma {:induction false} CutLast(h: seq<Job>, n: nat)
    requires |h| == n + 1 && Heap(h, n)
    ensures Heap(h[..n], n)
    ensures multiset(h[..n]) == multiset(h) - multiset{h[n]}
  {
    assert h == h[..n] + [h[n]];
  }

  /** b may come after a. */
  predicate NotBefore(a: Job, b: Job) {
    b.priority < a.priority || (b.priority == a.priority && a.time <= b.time)
  }

  predicate Sorted(s: seq<Job>) {
    forall i, j :: 0 <= i < j < |s| ==> NotBefore(s[i], s[j])
  }

  /** Validation queues hand out what is left after Close; the email queue refuses at once. */
  datatype ClosePolicy = DrainsAfterClose | RefusesAfterClose

  datatype PushResult = Pushed | PushClosed | PushFull

  datatype PopResult =
    | Popped(job: Job)
    | PopClosed
    | PopCancelled  // context done while the queue is empty
    | PopWaits      // nothing to hand out yet: the caller blocks on the condition variable

  class PriorityQueue {
    const policy: ClosePolicy
    const maxSize: int
    var jobs: seq<Job>
    var closed: bool
    // History: all jobs ever accepted, handed out and cleared.
    ghost var accepted: multiset<Job>
    ghost var handedOut: multiset<Job>
    ghost var cleared: multiset<Job>

    ghost predicate Valid()
      reads this
      ensures Valid() && maxSize > 0 ==> |jobs| <= maxSize
    {
      Heap(jobs, |jobs|)
      && accepted == handedOut + cleared + multiset(jobs)
      && (maxSize > 0 ==> |jobs| <= maxSize)
    }

    constructor (policy: ClosePolicy, maxSize: int)
      ensures Valid() && this.policy == policy && this.maxSize == maxSize
      ensures jobs == [] && !closed && accepted == multiset{}
    {
      this.policy, this.maxSize := policy, maxSize;
      jobs, closed := [], false;
      accepted, handedOut, cleared := multiset{}, multiset{}, multiset{};
    }

    /** container/heap's `up`. */
    method Up(start: nat)
      requires start < |jobs| && HeapButUp(jobs, start)
      modifies this`jobs
      ensures |jobs| == |old(jobs)| && Heap(jobs, |jobs|) && multiset(jobs) == old(multiset(jobs))
    {
      hide HeapButUp, Heap, Outranks;
      var j: nat := start;
      while true
        invariant |jobs| == |old(jobs)| && j < |jobs| && HeapButUp(jobs, j)
        invariant multiset(jobs) == old(multiset(jobs))
        decreases j
      {
        var i: nat := if j == 0 then 0 else Parent(j);
        if i == j || !Outranks(jobs[j], jobs[i]) {
          UpDone(jobs, j);
          return;
        }
        UpStep(jobs, j);
        jobs := Swap(jobs, i, j);
        j := i;
      }
    }

    /** container/heap's `down` on the first n slots. */
    method Down(start: nat, n: nat)
      requires n <= |jobs| && HeapButDown(jobs, start, n)
      modifies this`jobs
      ensures |jobs| == |old(jobs)| && Heap(jobs, n) && multiset(jobs) == old(multiset(jobs))
      ensures forall k :: n <= k < |jobs| ==> jobs[k] == old(jobs)[k]
    {
      hide HeapButDown, Heap, BestChild, Outranks;
      var i: nat := start;
      while 2 * i + 1 < n
        invariant |jobs| == |old(jobs)| && HeapButDown(jobs, i, n)
        invariant multiset(jobs) == old(multiset(jobs))
        invariant forall k :: n <= k < |jobs| ==> jobs[k] == old(jobs)[k]
        decreases n - i
      {
        var j := 2 * i + 1;
        if j + 1 < n && Outranks(jobs[j + 1], jobs[j]) {
          j := j + 1;
        }
        ChildPicked(jobs, i, j, n);
        if !Outranks(jobs[j], jobs[i]) {
          DownDone(jobs, i, j, n);
          return;
        }
        DownStep(jobs, i, j, n);
        jobs := Swap(jobs, i, j);
        i := j;
      }
      DownAtLeaf(jobs, i, n);
    }

    method Push(job: Job) returns (r: PushResult)
      requires Valid()
      modifies this
      ensures Valid() && closed == old(closed)
      ensures r.PushClosed? <==> old(closed)
      ensures r.PushFull? <==> !old(closed) && maxSize > 0 && |old(jobs)| >= maxSize
      ensures r.Pushed? ==> multiset(jobs) == old(multiset(jobs)) + multiset{job} && |jobs| == |old(jobs)| + 1
      ensures !r.Pushed? ==> jobs == old(jobs)
      ensures accepted == old(accepted) + if r.Pushed? then multiset{job} else multiset{}
      ensures handedOut == old(handedOut) && cleared == old(cleared)
    {
      if closed {
        return PushClosed;
      }
      if maxSize > 0 && |jobs| >= maxSize {
        return PushFull;
      }
      jobs := jobs + [job];
      accepted := accepted + multiset{job};
      Up(|jobs| - 1);
      r := Pushed;
    }

    /** container/heap's `Pop`: swap the root to the end, sift down, cut off. */
    method HeapPop() returns (job: Job)
      requires jobs != [] && Heap(jobs, |jobs|)
      modifies this`jobs
      ensures job == old(jobs)[0] && |jobs| == |old(jobs)| - 1 && Heap(jobs, |jobs|)
      ensures multiset(jobs) == old(multiset(jobs)) - multiset{job}
    {
      RootRemoved(jobs);
      var n := |jobs| - 1;
      jobs := Swap(jobs, 0, n);
      Down(0, n);
      job := jobs[n];
      CutLast(jobs, n);
      jobs := jobs[..n];
    }

    /** `Dequeue` on a queue that is not empty. */
    method TakeBest() returns (job: Job)
      requires Valid() && jobs != []
      modifies this
      ensures Valid() && closed == old(closed) && |jobs| == |old(jobs)| - 1
      ensures multiset(jobs) == old(multiset(jobs)) - multiset{job} && job in old(multiset(jobs))
      ensures forall x :: x in old(multiset(jobs)) ==> !Outranks(x, job)
      ensures forall x :: x in old(multiset(jobs)) ==>
                x.priority < job.priority || (x.priority == job.priority && job.time <= x.time)
      ensures handedOut == old(handedOut) + multiset{job}
      ensures accepted == old(accepted) && cleared == old(cleared)
    {
      BestOfAll(jobs);
      job := HeapPop();
      handedOut := handedOut + multiset{job};
    }

    method Pop(ctxDone: bool) returns (r: PopResult)
      requires Valid()
      modifies this
      ensures Valid() && closed == old(closed) && accepted == old(accepted) && cleared == old(cleared)
      ensures r.PopWaits? <==> old(jobs) == [] && !old(closed) && !ctxDone
      ensures r.PopCancelled? <==> old(jobs) == [] && !old(closed) && ctxDone
      ensures r.PopClosed? <==> old(closed) && (old(jobs) == [] || policy == RefusesAfterClose)
      ensures r.Popped? ==> r.job in old(multiset(jobs)) && multiset(jobs) == old(multiset(jobs)) - multiset{r.job}
      ensures r.Popped? ==> handedOut == old(handedOut) + multiset{r.job}
                            && forall x :: x in old(multiset(jobs)) ==> !Outranks(x, r.job)
      ensures r.Popped? ==> forall x :: x in old(multiset(jobs)) ==>
                x.priority < r.job.priority || (x.priority == r.job.priority && r.job.time <= x.time)
      ensures !r.Popped? ==> jobs == old(jobs) && handedOut == old(handedOut)
    {
      if jobs == [] && !closed {
        return if ctxDone then PopCancelled else PopWaits;
      }
      if closed && (policy == RefusesAfterClose || jobs == []) {
        return PopClosed;
      }
      var job := TakeBest();
      r := Popped(job);
    }

    /** `Clear`. The email queue also re-heapifies, which does nothing on an empty slice. */
    method Clear()
      requires Valid()
      modifies this
      ensures Valid() && jobs == [] && closed == old(closed)
      ensures cleared == old(cleared) + old(multiset(jobs))
      ensures accepted == old(accepted) && handedOut == old(handedOut)
    {
      cleared := cleared + multiset(jobs);
      jobs := [];
    }

    method Close()
      requires Valid()
      modifies this`closed
      ensures Valid() && closed
    {
      closed := true;
    }

    /** Popping until nothing is left gives all the queued jobs, the highest priority number first and
        the earlier time first among equals. */
    method Drain() returns (out: seq<Job>)
      requires Valid()
      modifies this
      ensures Valid() && jobs == [] && closed == old(closed)
      ensures forall i, j :: 0 <= i < j < |out| ==>
                out[j].priority < out[i].priority || (out[j].priority == out[i].priority && out[i].time <= out[j].time)
      ensures multiset(out) == old(multiset(jobs))
      ensures handedOut == old(handedOut) + multiset(out) && cleared == old(cleared) && accepted == old(accepted)
    {
      hide Valid;
      out := [];
      while jobs != []
        invariant Valid() && closed == old(closed)
        invariant multiset(out) + multiset(jobs) == old(multiset(jobs))
        invariant Sorted(out)
        invariant forall x, y :: x in multiset(jobs) && y in out ==> NotBefore(y, x)
        invariant handedOut == old(handedOut) + multiset(out) && cleared == old(cleared) && accepted == old(accepted)
        decreases |jobs|
      {
        var job := TakeBest();
        out := out + [job];
      }
    }
  }
}
