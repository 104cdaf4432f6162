/**
 * `ResearchMonitor` (batchflow/research/research.py:338-395): workers send
 * lifecycle signals through a queue; a listener appends one CSV row per
 * signal to `monitor.csv` until it receives the `None` sentinel.
 *
 * The queue is a sequence (items are taken from its front), the log file is
 * `Option<rows>` (`None` while the file does not exist), and signal values
 * are carried as the strings the row writer makes of them with `str`.
 */
module Monitor {
  import opened Wrappers

  /** A signal: column name -> value. */
  type Signal = map<string, string>

  type Row = seq<string>

  /** `ResearchMonitor.COLUMNS` (line 339). */
  const Columns: Row := ["time", "task_idx", "id", "it", "name", "status", "exception", "worker", "pid", "worker_pid"]

  /** What `send` reads from an experiment: its id and its executor's pid. */
  datatype ExperimentRef = ExperimentRef(id: string, pid: string)

  /** What `send` reads from a worker: its index and pid. */
  datatype WorkerRef = WorkerRef(index: string, pid: string)

  /** Lines 345-358: the current time, then the keyword arguments, then the
    * experiment's id and pid, then the worker's index and pid, each layer
    * overriding the keys of the layers before it. */
  function MakeSignal(now: string, experiment: Option<ExperimentRef>, worker: Option<WorkerRef>, kwargs: Signal): Signal
  {
    var base := map["time" := now] + kwargs;
    var withExperiment :=
      if experiment.Some? then base + map["id" := experiment.value.id, "pid" := experiment.value.pid]
      else base;
    if worker.Some? then withExperiment + map["worker" := worker.value.index, "worker_pid" := worker.value.pid]
    else withExperiment
  }

  /** Which keys a signal has and where each value comes from. */
  lemma SignalFields(now: string, experiment: Option<ExperimentRef>, worker: Option<WorkerRef>, kwargs: Signal)
    ensures var s := MakeSignal(now, experiment, worker, kwargs);
      s.Keys == {"time"} + kwargs.Keys
        + (if experiment.Some? then {"id", "pid"} else {})
        + (if worker.Some? then {"worker", "worker_pid"} else {}) &&
      s["time"] == (if "time" in kwargs then kwargs["time"] else now) &&
      (experiment.Some? ==> s["id"] == experiment.value.id && s["pid"] == experiment.value.pid) &&
      (worker.Some? ==> s["worker"] == worker.value.index && s["worker_pid"] == worker.value.pid) &&
      (forall k ::
        (k in kwargs && !(experiment.Some? && k in {"id", "pid"}) && !(worker.Some? && k in {"worker", "worker_pid"}))
        ==> s[k] == kwargs[k])
  {
  }

  /** The keyword arguments of the lifecycle helpers (lines 361-371): the
    * step name, the iteration, a status and, on failure, the exception. */
  function Lifecycle(name: string, it: string, status: string, exception: Option<string>): Signal
  {
    map["name" := name, "it" := it, "status" := status]
      + (if exception.Some? then map["exception" := exception.value] else map[])
  }

  /** Line 380: `[str(signal.get(column, '')) for column in COLUMNS]`. */
  function ToRow(s: Signal): (r: Row)
    ensures |r| == |Columns|
  {
    seq(|Columns|, i requires 0 <= i < |Columns| => if Columns[i] in s then s[Columns[i]] else "")
  }

  /** Reading a row back: the columns with a non-empty cell. */
  function FromRow(r: Row): Signal
    requires |r| == |Columns|
  {
    map i | 0 <= i < |Columns| && r[i] != "" :: Columns[i] := r[i]
  }

  /** A row keeps exactly the signal's non-empty values of the ten columns;
    * any other key, and the difference between a missing and an empty
    * value, is lost. */
  lemma RowRoundTrip(s: Signal)
    ensures FromRow(ToRow(s)) == map k | k in s && k in Columns && s[k] != "" :: s[k]
  {
    var r := ToRow(s);
    var left, right := FromRow(r), map k | k in s && k in Columns && s[k] != "" :: s[k];
    forall k | k in left
      ensures k in right && left[k] == right[k]
    {
      var i :| 0 <= i < |Columns| && r[i] != "" && Columns[i] == k;
    }
    forall k | k in right
      ensures k in left
    {
      var i :| 0 <= i < |Columns| && Columns[i] == k;
      assert r[i] == s[k];
    }
  }

  /** The signals the listener meets before the first `None`. */
  function Pending(q: seq<Option<Signal>>): (ss: seq<Signal>)
    ensures |ss| <= |q|
    ensures forall i :: 0 <= i < |ss| ==> q[i] == Some(ss[i])
    ensures |ss| < |q| ==> q[|ss|] == None
  {
    if q == [] || q[0].None? then []
    else [q[0].value] + Pending(q[1..])
  }

  /** How many queue items the listener takes: the pending signals and the
    * sentinel, if there is one. */
  function Consumed(q: seq<Option<Signal>>): (n: nat)
    ensures n <= |q|
    ensures |Pending(q)| < |q| ==> n == |Pending(q)| + 1 && q[n - 1] == None
    ensures |Pending(q)| == |q| ==> n == |q|
  {
    if |Pending(q)| < |q| then |Pending(q)| + 1 else |q|
  }

  function Rows(ss: seq<Signal>): (rs: seq<Row>)
    ensures |rs| == |ss|
    ensures forall i :: 0 <= i < |ss| ==> rs[i] == ToRow(ss[i])
  {
    seq(|ss|, i requires 0 <= i < |ss| => ToRow(ss[i]))
  }

  /** The log after appending `rows` (`open(filename, 'a')` creates the
    * file when it is missing). */
  function Append(log: Option<seq<Row>>, rows: seq<Row>): Option<seq<Row>>
  {
    if rows == [] then log else Some(log.GetOr([]) + rows)
  }

  lemma AppendOneMore(log: Option<seq<Row>>, rows: seq<Row>, row: Row)
    ensures Append(Append(log, rows), [row]) == Append(log, rows + [row])
  {
    if rows == [] {
      assert rows + [row] == [row];
    } else {
      assert log.GetOr([]) + rows + [row] == log.GetOr([]) + (rows + [row]);
    }
  }

  class ResearchMonitor {
    var queue: seq<Option<Signal>>
    var dump: bool
    var log: Option<seq<Row>>

    /** `__init__`; `log` is whatever `monitor.csv` holds already. */
    constructor (log: Option<seq<Row>>)
      ensures queue == [] && !dump && this.log == log
    {
      queue := [];
      dump := false;
      this.log := log;
    }

    /** `send` (lines 344-359): puts the signal built by `MakeSignal`. */
    method Send(now: string, experiment: Option<ExperimentRef>, worker: Option<WorkerRef>, kwargs: Signal)
      modifies this`queue
      ensures queue == old(queue) + [Some(MakeSignal(now, experiment, worker, kwargs))]
    {
      queue := queue + [Some(MakeSignal(now, experiment, worker, kwargs))];
    }

    /** `start_execution` (lines 361-362): no worker is attached. */
    method StartExecution(now: string, name: string, experiment: ExperimentRef, it: string)
      modifies this`queue
      ensures queue == old(queue) + [Some(MakeSignal(now, Some(experiment), None, Lifecycle(name, it, "start", None)))]
    {
      Send(now, Some(experiment), None, Lifecycle(name, it, "start", None));
    }

    /** `finish_execution` (lines 364-365). */
    method FinishExecution(now: string, name: string, experiment: ExperimentRef, worker: WorkerRef, it: string)
      modifies this`queue
      ensures queue == old(queue) + [Some(MakeSignal(now, Some(experiment), Some(worker), Lifecycle(name, it, "success", None)))]
    {
      Send(now, Some(experiment), Some(worker), Lifecycle(name, it, "success", None));
    }

    /** `fail_execution` (lines 367-368); `exception` is the rendered class. */
    method FailExecution(now: string, name: string, experiment: ExperimentRef, worker: WorkerRef, it: string, exception: string)
      modifies this`queue
      ensures queue == old(queue) + [Some(MakeSignal(now, Some(experiment), Some(worker), Lifecycle(name, it, "error", Some(exception))))]
    {
      Send(now, Some(experiment), Some(worker), Lifecycle(name, it, "error", Some(exception)));
    }

    /** `stop_iteration` (lines 370-371). */
    method StopIteration(now: string, name: string, experiment: ExperimentRef, worker: WorkerRef, it: string)
      modifies this`queue
      ensures queue == old(queue) + [Some(MakeSignal(now, Some(experiment), Some(worker), Lifecycle(name, it, "stop_iteration", None)))]
    {
      Send(now, Some(experiment), Some(worker), Lifecycle(name, it, "stop_iteration", None));
    }

    /** `stop` (lines 394-395): puts the `None` sentinel. */
    method Stop()
      modifies this`queue
      ensures queue == old(queue) + [None]
    {
      queue := queue + [None];
    }

    /** `start` (lines 383-392), without launching the listener process: the
      * header is written only when dumping and the file is absent. */
    method Start(dump: bool)
      modifies this`dump, this`log
      ensures this.dump == dump
      ensures log == if dump && old(log).None? then Some([Columns]) else old(log)
    {
      this.dump := dump;
      if dump && log.None? {
        log := Some([Columns]);
      }
    }

    /** `listener` (lines 373-381): takes signals from the queue until the
      * sentinel (or, where Python would block, until the queue is empty),
      * appending one row per signal when dumping. */
    method Listener()
      modifies this`queue, this`log
      ensures queue == old(queue)[Consumed(old(queue))..]
      ensures log == if dump then Append(old(log), Rows(Pending(old(queue)))) else old(log)
    {
      ghost var q0, pending := queue, Pending(queue);
      ghost var k := 0;
      while queue != [] && queue[0].Some?
        invariant 0 <= k <= |pending| && queue == q0[k..]
        invariant k < |pending| ==> queue != [] && queue[0] == Some(pending[k])
        invariant log == if dump then Append(old(log), Rows(pending[..k])) else old(log)
        decreases |queue|
      {
        var signal := queue[0].value;
        queue := queue[1..];
        if dump {
          AppendNext(old(log), pending, k);
          log := Append(log, [ToRow(signal)]);
        }
        k := k + 1;
      }
      assert pending[..k] == pending;
      if queue != [] {
        queue := queue[1..];
      }
    }
  }

  /** The CSV row of a lifecycle signal, column by column: `task_idx` is
    * never filled, and the worker columns stay empty without a worker. */
  lemma LifecycleRow(now: string, name: string, it: string, status: string, exception: Option<string>,
                     experiment: ExperimentRef, worker: Option<WorkerRef>)
    ensures ToRow(MakeSignal(now, Some(experiment), worker, Lifecycle(name, it, status, exception)))
      == [now, "", experiment.id, it, name, status, exception.GetOr(""),
          if worker.Some? then worker.value.index else "", experiment.pid,
          if worker.Some? then worker.value.pid else ""]
  {
  }

  /** Logging one more pending signal extends the log by its row. */
  lemma AppendNext(log: Option<seq<Row>>, pending: seq<Signal>, k: nat)
    requires k < |pending|
    ensures Append(Append(log, Rows(pending[..k])), [ToRow(pending[k])]) == Append(log, Rows(pending[..k + 1]))
  {
    AppendOneMore(log, Rows(pending[..k]), ToRow(pending[k]));
    assert Rows(pending[..k]) + [ToRow(pending[k])] == Rows(pending[..k + 1]);
  }

  /** Signals as queue items. */
  function Queued(ss: seq<Signal>): (q: seq<Option<Signal>>)
    ensures |q| == |ss|
  {
    if ss == [] then [] else [Some(ss[0])] + Queued(ss[1..])
  }

  /** A queue holding signals, the sentinel, then more signals: only the
    * signals before the sentinel are taken, and the later ones stay queued. */
  lemma {:induction false} SentinelStops(before: seq<Signal>, after: seq<Option<Signal>>)
    ensures var q := Queued(before) + [None] + after;
      Pending(q) == before && Consumed(q) == |before| + 1 && q[Consumed(q)..] == after
    decreases |before|
  {
    var q := Queued(before) + [None] + after;
    if before == [] {
      assert q == [None] + after;
    } else {
      assert q == [Some(before[0])] + (Queued(before[1..]) + [None] + after);
      SentinelStops(before[1..], after);
      assert before == [before[0]] + before[1..];
    }
  }

  /** Two signals, the sentinel and a late signal: the listener takes the two
    * signals and the sentinel and logs one row per signal after the header. */
  lemma TwoThenStop(s1: Signal, s2: Signal, late: Signal)
    ensures var q := [Some(s1), Some(s2), None, Some(late)];
      Pending(q) == [s1, s2] && q[Consumed(q)..] == [Some(late)] &&
      Append(Some([Columns]), Rows(Pending(q))) == Some([Columns, ToRow(s1), ToRow(s2)])
  {
    SentinelStops([s1, s2], [Some(late)]);
    assert Queued([s1, s2]) == [Some(s1)] + Queued([s2]);
    assert Queued([s2]) == [Some(s2)] + Queued([]);
    assert Queued([s1, s2]) + [None] + [Some(late)] == [Some(s1), Some(s2), None, Some(late)];
    assert Rows([s1, s2]) == [ToRow(s1), ToRow(s2)];
    assert [Columns] + [ToRow(s1), ToRow(s2)] == [Columns, ToRow(s1), ToRow(s2)];
  }

  /** A run as `Research.run` drives the monitor: start with dumping on, two
    * signals, stop, and a late signal after the stop. The log gets the header
    * once, one row per signal before the stop, and the late signal stays. */
  method MonitorRun(m: ResearchMonitor, e: ExperimentRef, w: WorkerRef, t1: string, t2: string, t3: string, kwargs: Signal)
    requires m.queue == [] && m.log == None
    modifies m
    ensures m.log == Some([Columns,
      ToRow(MakeSignal(t1, Some(e), None, kwargs)),
      ToRow(MakeSignal(t2, Some(e), Some(w), kwargs))])
    ensures m.queue == [Some(MakeSignal(t3, None, None, kwargs))]
  {
    ghost var s1, s2, late := MakeSignal(t1, Some(e), None, kwargs), MakeSignal(t2, Some(e), Some(w), kwargs), MakeSignal(t3, None, None, kwargs);
    m.Start(true);
    m.Send(t1, Some(e), None, kwargs);
    m.Send(t2, Some(e), Some(w), kwargs);
    m.Stop();
    m.Send(t3, None, None, kwargs);
    assert m.queue == [Some(s1), Some(s2), None, Some(late)];
    TwoThenStop(s1, s2, late);
    m.Listener();
  }

  /** Starting again on an existing log adds no second header. */
  method RestartKeepsLog(m: ResearchMonitor)
    requires m.log.Some?
    modifies m
    ensures m.log == old(m.log) && m.dump
  {
    m.Start(true);
  }
}
