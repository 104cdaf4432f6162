/**
 * The task queue of the research scheduler (`DynamicQueue` in
 * batchflow/research/research.py), run sequentially: the joinable
 * multiprocessing queue is a sequence of items, and `join` drains it.
 */
module Scheduling {
  import opened Wrappers
  import opened Configs

  /** A finite domain of configurations and how many of them `next()` has already handed out. */
  datatype DomainState = DomainState(configs: seq<Config>, cursor: nat)

  type Domain = d: DomainState | d.cursor <= |d.configs| witness DomainState([], 0)

  /** The configurations `next()` has still to yield, in order. */
  function Remaining(d: Domain): seq<Config> {
    d.configs[d.cursor..]
  }

  /**
   * The domain's `update(finished_tasks, research)`: the new domain, or nothing.
   * The research object it also receives is opaque here and lives in the closure.
   */
  type Updater = (Domain, nat) -> Option<Domain>

  /** A unit of work: the task id and one configuration per branch. */
  datatype Task = Task(id: nat, configs: seq<Config>)

  /** A queue item: a task, or the `None` that tells a worker to stop. */
  type Item = Option<Task>

  function Flatten(bs: seq<seq<Config>>): (r: seq<Config>) {
    if bs == [] then [] else bs[0] + Flatten(bs[1..])
  }

  lemma {:induction false} FlattenAppend(bs: seq<seq<Config>>, b: seq<Config>)
    ensures Flatten(bs + [b]) == Flatten(bs) + b
  {
    if bs == [] {
      assert [] + [b] == [b];
      assert Flatten([b]) == b + Flatten([]);
    } else {
      assert (bs + [b])[1..] == bs[1..] + [b];
      FlattenAppend(bs[1..], b);
    }
  }

  /**
   * The batches that `next_tasks(n)` draws from the configurations `rest`
   * still in the domain: groups of `b` (one per branch) taken in domain order,
   * at most `n` of them; the first exhaustion ends the drawing, and a
   * non-empty group cut short by it is kept.
   */
  function Batches(rest: seq<Config>, n: nat, b: nat): (bs: seq<seq<Config>>)
    ensures |bs| <= n
    ensures bs == [] <==> n == 0 || (b > 0 && rest == [])
    decreases n
  {
    if n == 0 then []
    else if |rest| >= b then [rest[..b]] + Batches(rest[b..], n - 1, b)
    else if rest == [] then []
    else [rest]
  }

  /** The configurations `next_tasks` consumes: the whole batches, concatenated. */
  function Drawn(rest: seq<Config>, n: nat, b: nat): seq<Config> {
    Flatten(Batches(rest, n, b))
  }

  lemma {:induction false} FlattenCons(x: seq<Config>, bs: seq<seq<Config>>)
    ensures Flatten([x] + bs) == x + Flatten(bs)
  {
    assert ([x] + bs)[1..] == bs;
  }

  /** Configurations are drawn in domain order: the batches concatenate to a prefix of what remained. */
  lemma {:induction false} BatchesInOrder(rest: seq<Config>, n: nat, b: nat)
    ensures |Drawn(rest, n, b)| <= |rest|
    ensures Drawn(rest, n, b) == rest[..|Drawn(rest, n, b)|]
    decreases n
  {
    if n == 0 {
    } else if |rest| >= b {
      BatchesInOrder(rest[b..], n - 1, b);
      FlattenCons(rest[..b], Batches(rest[b..], n - 1, b));
      var k := |Drawn(rest[b..], n - 1, b)|;
      assert rest[..b] + rest[b..][..k] == rest[..b + k];
    } else if rest == [] {
    } else {
      FlattenCons(rest, []);
      assert [rest] + [] == [rest];
    }
  }

  /** Never more than `n * b` configurations are consumed. */
  lemma {:induction false} BatchesBound(rest: seq<Config>, n: nat, b: nat)
    ensures |Drawn(rest, n, b)| <= n * b
    decreases n
  {
    if n == 0 {
    } else if |rest| >= b {
      BatchesBound(rest[b..], n - 1, b);
      FlattenCons(rest[..b], Batches(rest[b..], n - 1, b));
      assert (n - 1) * b + b == n * b;
    } else if rest == [] {
    } else {
      FlattenCons(rest, []);
      var m: nat := n - 1;
      assert m * b >= 0;
      assert n * b == m * b + b;
    }
  }

  /**
   * Every batch holds exactly `b` configurations, except possibly a last,
   * non-empty, shorter one that exists only because the domain ran out;
   * fewer than `n` batches likewise means the domain ran out.
   */
  lemma {:induction false} BatchesShape(rest: seq<Config>, n: nat, b: nat)
    ensures var bs := Batches(rest, n, b);
      && (forall i :: 0 <= i < |bs| - 1 ==> |bs[i]| == b)
      && (|bs| > 0 ==> |bs[|bs| - 1]| <= b && (b > 0 ==> |bs[|bs| - 1]| > 0))
      && (|bs| > 0 && |bs[|bs| - 1]| < b ==> |Drawn(rest, n, b)| == |rest|)
      && (|bs| < n ==> |Drawn(rest, n, b)| == |rest|)
    decreases n
  {
    var bs := Batches(rest, n, b);
    if n == 0 {
    } else if |rest| >= b {
      var tail := Batches(rest[b..], n - 1, b);
      BatchesShape(rest[b..], n - 1, b);
      FlattenCons(rest[..b], tail);
      assert bs == [rest[..b]] + tail;
      forall i | 0 <= i < |bs| - 1
        ensures |bs[i]| == b
      {
        if i > 0 { assert bs[i] == tail[i - 1]; }
      }
      if |tail| > 0 {
        assert bs[|bs| - 1] == tail[|tail| - 1];
      }
    } else if rest == [] {
    } else {
      FlattenCons(rest, []);
      assert [rest] + [] == [rest];
    }
  }

  /** The items `next_tasks` puts: task `start + i` carries batch `i`. */
  function Enqueued(start: nat, bs: seq<seq<Config>>): (items: seq<Item>)
    ensures |items| == |bs|
    ensures forall i :: 0 <= i < |bs| ==> items[i] == Some(Task(start + i, bs[i]))
  {
    seq(|bs|, i requires 0 <= i < |bs| => Some(Task(start + i, bs[i])))
  }

  /** `n` stop sentinels. */
  function Sentinels(n: nat): (items: seq<Item>)
    ensures |items| == n && forall i :: 0 <= i < n ==> items[i] == None
  {
    seq(n, _ => None)
  }

  /** A full group drawn: it is the next batch, and the rest follow it. */
  lemma FullGroup(done: seq<seq<Config>>, rest: seq<Config>, n: nat, b: nat)
    requires n > 0 && |rest| >= b
    ensures (done + [rest[..b]]) + Batches(rest[b..], n - 1, b) == done + Batches(rest, n, b)
  {
    assert Batches(rest, n, b) == [rest[..b]] + Batches(rest[b..], n - 1, b);
  }

  /** A group cut short by the end of the domain: it is the last batch,
    * dropped when empty. */
  lemma LastGroup(done: seq<seq<Config>>, rest: seq<Config>, n: nat, b: nat)
    requires n > 0 && |rest| < b
    ensures (if rest == [] then done else done + [rest]) == done + Batches(rest, n, b)
  {
    if rest == [] {
      assert done + [] == done;
    }
  }

  /** A domain holding a full group gives it as the first batch. */
  lemma BatchesFull(rest: seq<Config>, n: nat, b: nat)
    requires n > 0 && |rest| >= b
    ensures Batches(rest, n, b) == [rest[..b]] + Batches(rest[b..], n - 1, b)
  {
  }

  /**
   * Drawing in two calls is drawing in one: `next_tasks(m)` followed by
   * `next_tasks(n)` on what it left draws what a single `next_tasks(m + n)`
   * would, including when the domain runs out during the first call.
   */
  lemma {:induction false} BatchesSplit(rest: seq<Config>, m: nat, n: nat, b: nat)
    ensures |Drawn(rest, m, b)| <= |rest|
    ensures Batches(rest, m + n, b) == Batches(rest, m, b) + Batches(rest[|Drawn(rest, m, b)|..], n, b)
    decreases m
  {
    BatchesInOrder(rest, m, b);
    if m == 0 {
      assert Batches(rest, 0, b) == [];
    } else if |rest| >= b {
      var tail := rest[b..];
      var k := |Drawn(tail, m - 1, b)|;
      BatchesSplit(tail, m - 1, n, b);
      FlattenCons(rest[..b], Batches(tail, m - 1, b));
      assert |Drawn(rest, m, b)| == b + k;
      assert rest[b + k..] == tail[k..];
      BatchesFull(rest, m + n, b);
      BatchesFull(rest, m, b);
      calc {
        Batches(rest, m + n, b);
        [rest[..b]] + Batches(tail, m - 1 + n, b);
        [rest[..b]] + (Batches(tail, m - 1, b) + Batches(tail[k..], n, b));
        ([rest[..b]] + Batches(tail, m - 1, b)) + Batches(tail[k..], n, b);
        Batches(rest, m, b) + Batches(rest[b + k..], n, b);
      }
    } else if rest == [] {
    } else {
      FlattenCons(rest, []);
      assert [rest] + [] == [rest];
      assert rest[|rest|..] == [];
    }
  }

  /**
   * On a domain of `s` configurations, `next_tasks(n)` with room for all of
   * them yields `ceil(s / b)` tasks: the least count whose batches hold `s`.
   */
  lemma {:induction false} DrawAllCount(rest: seq<Config>, n: nat, b: nat)
    requires b > 0 && n * b >= |rest|
    ensures var k := |Batches(rest, n, b)|; (k - 1) * b < |rest| <= k * b
    decreases n
  {
    if n == 0 {
    } else if |rest| >= b {
      assert (n - 1) * b == n * b - b;
      DrawAllCount(rest[b..], n - 1, b);
      var k := |Batches(rest[b..], n - 1, b)|;
      assert (k + 1) * b == k * b + b && k * b == (k - 1) * b + b;
    } else if rest == [] {
    } else {
      assert |Batches(rest, n, b)| == 1;
    }
  }

  class DynamicQueue {
    var domain: Domain
    const nBranches: nat
    /** The joinable queue's contents, oldest first. */
    var queue: seq<Item>
    var withdrawn: nat
    var finished: nat

    constructor (domain: Domain, nBranches: nat)
      ensures this.domain == domain && this.nBranches == nBranches
      ensures queue == [] && withdrawn == 0 && finished == 0
    {
      this.domain := domain;
      this.nBranches := nBranches;
      queue := [];
      withdrawn := 0;
      finished := 0;
    }

    /**
     * `total`: the domain's size over the number of branches, in true
     * division; a queue without branches divides by zero.
     */
    function Total(): (r: Result<real>)
      reads this
      ensures r.Ok? <==> nBranches > 0
      ensures r.Err? ==> r.error == ZeroDivisionError
      ensures r.Ok? ==> r.value * nBranches as real == |domain.configs| as real
    {
      if nBranches == 0 then Err(ZeroDivisionError)
      else Ok(|domain.configs| as real / nBranches as real)
    }

    /** `update_domain`: ask the domain for a replacement, keeping the old one if there is none. */
    method UpdateDomain(update: Updater)
      modifies this`domain
      ensures update(old(domain), finished).Some? ==> domain == update(old(domain), finished).value
      ensures update(old(domain), finished).None? ==> domain == old(domain)
    {
      var next := update(domain, finished);
      if next.Some? {
        domain := next.value;
      }
    }

    /** `put`, forwarded to the queue. */
    method Put(item: Item)
      modifies this`queue
      ensures queue == old(queue) + [item]
    {
      queue := queue + [item];
    }

    /** `get`, forwarded to the queue; `None` where the real queue would block. */
    method Get() returns (item: Option<Item>)
      modifies this`queue
      ensures old(queue) == [] ==> item == None && queue == []
      ensures old(queue) != [] ==> item == Some(old(queue)[0]) && queue == old(queue)[1..]
    {
      if queue == [] {
        item := None;
      } else {
        item := Some(queue[0]);
        queue := queue[1..];
      }
    }

    /** `empty`, forwarded to the queue. */
    method Empty() returns (e: bool)
      ensures e <==> queue == []
    {
      e := queue == [];
    }

    /** The inner loop of `next_tasks`: `next(domain)` once per branch,
      * stopping early when the domain raises `StopIteration`. */
    method DrawGroup() returns (group: seq<Config>)
      modifies this`domain
      ensures group == Remaining(old(domain))[..Min(nBranches, |Remaining(old(domain))|)]
      ensures domain.configs == old(domain.configs)
      ensures domain.cursor == old(domain.cursor) + |group|
    {
      group := [];
      var j := 0;
      while j < nBranches && domain.cursor < |domain.configs|
        invariant 0 <= j <= nBranches
        invariant domain.configs == old(domain.configs)
        invariant domain.cursor == old(domain.cursor) + j
        invariant group == Remaining(old(domain))[..j]
      {
        group := group + [domain.configs[domain.cursor]];
        domain := domain.(cursor := domain.cursor + 1);
        j := j + 1;
      }
    }

    /** One pass of the outer loop of `next_tasks`: draw a group and keep it,
      * unless the domain was already exhausted; `stopped` is the `break`. */
    method DrawNext(done: seq<seq<Config>>, n: nat) returns (next: seq<seq<Config>>, stopped: bool)
      requires n > 0
      modifies this`domain
      ensures domain.configs == old(domain.configs)
      ensures domain.cursor + |Flatten(done)| == old(domain.cursor) + |Flatten(next)|
      ensures stopped ==> next == done + Batches(Remaining(old(domain)), n, nBranches)
      ensures !stopped ==> next + Batches(Remaining(domain), n - 1, nBranches)
                           == done + Batches(Remaining(old(domain)), n, nBranches)
    {
      ghost var rest := Remaining(domain);
      var group := DrawGroup();
      FlattenAppend(done, group);
      if |group| < nBranches {
        // `next` raised StopIteration part-way through the group
        assert group == rest;
        LastGroup(done, rest, n, nBranches);
        next := if |group| > 0 then done + [group] else done;
        stopped := true;
      } else {
        FullGroup(done, rest, n, nBranches);
        assert Remaining(domain) == rest[nBranches..];
        next := done + [group];
        stopped := false;
      }
    }

    /** The drawing half of `next_tasks`: up to `nTasks` groups of `nBranches` configurations. */
    method DrawBatches(nTasks: nat) returns (configs: seq<seq<Config>>)
      modifies this`domain
      ensures configs == Batches(Remaining(old(domain)), nTasks, nBranches)
      ensures domain.configs == old(domain.configs)
      ensures domain.cursor == old(domain.cursor) + |Flatten(configs)|
    {
      ghost var all := Batches(Remaining(domain), nTasks, nBranches);
      configs := [];
      var i := 0;
      var stopped := false;
      while i < nTasks && !stopped
        invariant 0 <= i <= nTasks
        invariant domain.configs == old(domain.configs)
        invariant domain.cursor == old(domain.cursor) + |Flatten(configs)|
        invariant !stopped ==> configs + Batches(Remaining(domain), nTasks - i, nBranches) == all
        invariant stopped ==> configs == all
      {
        configs, stopped := DrawNext(configs, nTasks - i);
        i := i + 1;
      }
      if !stopped {
        assert configs + [] == configs;
      }
    }

    /** `next_tasks(n_tasks)`: draw up to `n_tasks` batches and enqueue them under consecutive ids. */
    method NextTasks(nTasks: nat) returns (count: nat)
      modifies this`domain, this`queue, this`withdrawn
      ensures var bs := Batches(Remaining(old(domain)), nTasks, nBranches);
        && count == |bs|
        && queue == old(queue) + Enqueued(old(withdrawn), bs)
        && withdrawn == old(withdrawn) + count
        && domain.configs == old(domain.configs)
        && domain.cursor == old(domain.cursor) + |Drawn(Remaining(old(domain)), nTasks, nBranches)|
    {
      var configs := DrawBatches(nTasks);
      ghost var drawn := domain;
      var k := 0;
      while k < |configs|
        invariant 0 <= k <= |configs|
        invariant domain == drawn && withdrawn == old(withdrawn)
        invariant queue == old(queue) + Enqueued(withdrawn, configs[..k])
      {
        queue := queue + [Some(Task(withdrawn + k, configs[k]))];
        k := k + 1;
        assert Enqueued(withdrawn, configs[..k])
            == Enqueued(withdrawn, configs[..k - 1]) + [Some(Task(withdrawn + k - 1, configs[k - 1]))];
      }
      assert configs[..k] == configs;
      count := |configs|;
      withdrawn := withdrawn + count;
    }

    /** `stop_workers(n)`: one stop sentinel per worker, behind the work already queued. */
    method StopWorkers(nWorkers: nat)
      modifies this`queue
      ensures queue == old(queue) + Sentinels(nWorkers)
    {
      var i := 0;
      while i < nWorkers
        invariant 0 <= i <= nWorkers
        invariant queue == old(queue) + Sentinels(i)
      {
        queue := queue + [None];
        i := i + 1;
        assert Sentinels(i) == Sentinels(i - 1) + [None];
      }
    }

    /** `join`: wait until the workers have drained the queue, then count one finished task. */
    method Join()
      modifies this`queue, this`finished
      ensures queue == [] && finished == old(finished) + 1
    {
      queue := [];
      finished := finished + 1;
    }

    /** `in_progress`. */
    predicate InProgress()
      reads this
    {
      withdrawn != finished
    }
  }

  /**
   * One `join` per wave, however many tasks the wave held: after enqueueing
   * three tasks and joining once, one task counts as finished and the
   * queue still reports work in progress; a join on an idle queue makes
   * `finished` overtake `withdrawn`.
   */
  method JoinCountsWaves(c1: Config, c2: Config, c3: Config)
  {
    var q := new DynamicQueue(DomainState([c1, c2, c3], 0), 1);
    var n := q.NextTasks(5);
    assert Batches([c1, c2, c3], 5, 1) == [[c1], [c2], [c3]] by {
      assert [c1, c2, c3][1..] == [c2, c3] && [c1, c2, c3][..1] == [c1];
      assert [c2, c3][1..] == [c3] && [c2, c3][..1] == [c2];
      assert [c3][1..] == [] && [c3][..1] == [c3];
      assert Batches([], 2, 1) == [];
    }
    assert n == 3;
    q.Join();
    assert q.finished == 1 && q.withdrawn == 3 && q.InProgress();
    var idle := new DynamicQueue(DomainState([], 0), 1);
    idle.Join();
    assert idle.finished > idle.withdrawn && idle.InProgress();
  }
}
