/** The work buffer and the worker loop: `fetch_to_queue`, `update_result`, the failure
    update, and the body of `worker`. One `Pool` holds what the script keeps at module
    level: the task queue, the fetch lock and, standing for the store's writes, the log of
    update calls issued. Each call of `Step` is one pass of the `while True` loop. */
module Worker {
  import opened Text
  import opened Smtp

  /** The loop stops once more than this many seconds have passed (five hours). */
  const MAX_RUNTIME: real := 18000.0
  /** A refill is tried while the queue holds fewer tasks than this. */
  const REFILL_BELOW: nat := 20
  /** The `p_limit` of every backlog request. */
  const BATCH_SIZE: nat := 500
  /** The `p_table` of every backlog request and the table updated. */
  const TABLE: string := "gmail"

  type RecordId = int

  /** One queued item `{id, email}`; the address is `None` when the row's `email` is null. */
  datatype Task = Task(id: RecordId, email: Option<string>)

  /** One row of the backlog response. `None` stands for a missing key; for `email`,
      `Some(None)` is a key present with a null value. */
  datatype Row = Row(id: Option<RecordId>, email: Option<Option<string>>)

  /** The backlog RPC: it raised, or it returned a payload whose `data` may be null. */
  datatype FetchResponse = RpcError | Response(data: Option<seq<Row>>)

  /** A backlog request as sent: `{p_table, p_limit}`. */
  datatype FetchRequest = FetchRequest(table: string, limit: nat)

  /** The fields an update writes: `{valid, status: "done"}` or `{status: "failed"}`. */
  datatype Update = Done(valid: bool) | Failed

  /** One update call issued for the record with this id. */
  datatype Commit = Commit(id: RecordId, update: Update)

  /** What the world gives one pass of the loop: the time since start, whether the
      non-blocking acquire of the fetch lock succeeds, the backlog's answer, DNS and SMTP for
      the probe, and whether the result line printed before the update goes through. */
  datatype Iteration = Iteration(elapsed: real, lockFree: bool, fetch: FetchResponse, net: Network, logOk: bool)

  /** How one pass ended: the budget was spent, the dequeue timed out, or a task was probed
      and updated. */
  datatype StepResult = Stopped | Idle | Processed(task: Task, update: Update)

  predicate WellFormed(row: Row)
  {
    row.id.Some? && row.email.Some?
  }

  /** `response.data or []`: the rows of a response, none when the RPC raised. */
  function RowsOf(resp: FetchResponse): (rows: seq<Row>)
    ensures resp.Response? && resp.data.Some? ==> rows == resp.data.value
    ensures rows != [] ==> resp.Response? && resp.data == Some(rows)
  {
    match resp
    case RpcError => []
    case Response(data) => if data.Some? then data.value else []
  }

  /** The tasks the fetch loop puts before `row["id"]` or `row["email"]` raises: one per row,
      in row order, up to the first row missing a key. */
  function TasksBefore(rows: seq<Row>): (tasks: seq<Task>)
    ensures |tasks| <= |rows|
    ensures forall k :: 0 <= k < |tasks| ==>
              WellFormed(rows[k]) && tasks[k] == Task(rows[k].id.value, rows[k].email.value)
    ensures |tasks| < |rows| ==> !WellFormed(rows[|tasks|])
  {
    if |rows| == 0 || !WellFormed(rows[0]) then
      []
    else
      [Task(rows[0].id.value, rows[0].email.value)] + TasksBefore(rows[1..])
  }

  /** What one `fetch_to_queue` call appends to the queue. */
  function FetchedTasks(resp: FetchResponse): (tasks: seq<Task>)
    ensures |tasks| <= |RowsOf(resp)|
    ensures forall k :: 0 <= k < |tasks| ==>
              WellFormed(RowsOf(resp)[k]) && tasks[k] == Task(RowsOf(resp)[k].id.value, RowsOf(resp)[k].email.value)
    ensures resp.RpcError? ==> tasks == []
  {
    TasksBefore(RowsOf(resp))
  }

  /** What one `fetch_to_queue` call returns: the row count, or 0 when anything raised. */
  function FetchCount(resp: FetchResponse): (n: nat)
    ensures n > 0 ==> resp.Response? && n == |RowsOf(resp)| == |FetchedTasks(resp)|
  {
    if resp.Response? && |TasksBefore(RowsOf(resp))| == |RowsOf(resp)| then |RowsOf(resp)| else 0
  }

  /** A fetch without exception appends every row, as `{id, email}`, in backlog order, and
      returns their number. */
  lemma FetchAllRows(resp: FetchResponse)
    requires resp.Response?
    requires forall k :: 0 <= k < |RowsOf(resp)| ==> WellFormed(RowsOf(resp)[k])
    ensures FetchCount(resp) == |FetchedTasks(resp)| == |RowsOf(resp)|
    ensures forall k :: 0 <= k < |RowsOf(resp)| ==>
              FetchedTasks(resp)[k] == Task(RowsOf(resp)[k].id.value, RowsOf(resp)[k].email.value)
  {
  }

  /** A fetch that raises returns 0, and the rows put before the failing one stay queued. */
  lemma FetchFailure(resp: FetchResponse)
    requires resp.RpcError? || exists k :: 0 <= k < |RowsOf(resp)| && !WellFormed(RowsOf(resp)[k])
    ensures FetchCount(resp) == 0
    ensures resp.RpcError? ==> FetchedTasks(resp) == []
    ensures |FetchedTasks(resp)| < |RowsOf(resp)| || resp.RpcError?
  {
    var rows := RowsOf(resp);
    if resp.Response? {
      var k :| 0 <= k < |rows| && !WellFormed(rows[k]);
      assert |TasksBefore(rows)| <= k;
    }
  }

  /** The probe of a queued address. A null address makes `email.split('@')` raise before any
      lookup or connection; the worker's handler catches that like any other escape. */
  function ProbeItem(email: Option<string>, net: Network): (r: ProbeResult)
    ensures email.None? ==> r == Raised([])
    ensures email.Some? ==> r == Probe(email.value, net)
  {
    if email.None? then Raised([]) else Probe(email.value, net)
  }

  /** The update a processed task receives: `done` with the probe's verdict when the probe
      returned and the result line was printed, `failed` otherwise. */
  function UpdateFor(p: ProbeResult, logOk: bool): (u: Update)
    ensures u.Done? <==> p.Returned? && logOk
    ensures u.Done? ==> u.valid == p.valid
  {
    if p.Returned? && logOk then Done(p.valid) else Failed
  }

  /** The guarded part of a pass: probe the address and print the result line; the update
      to issue follows from how that ended. */
  method CheckAddress(email: Option<string>, net: Network, logOk: bool) returns (u: Update)
    ensures u == UpdateFor(ProbeItem(email, net), logOk)
  {
    var p: ProbeResult;
    if email.None? {
      p := Raised([]);
    } else {
      p := VerifyEmailSmtp(email.value, net);
    }
    u := UpdateFor(p, logOk);
  }

  /** What a pass reads and writes, apart from the lock and the unfinished count: the queue,
      the backlog requests and update calls issued, and every task put and taken. */
  datatype State = State(queue: seq<Task>, requests: seq<FetchRequest>, enqueued: seq<Task>,
                         dequeued: seq<Task>, commits: seq<Commit>)

  /** A pass's new state and how the pass ended. */
  datatype Pass = Pass(state: State, result: StepResult)

  /** The queue is first-in first-out (what was taken and what remains are, together, what
      was put), and the i-th update call is for the i-th task taken: every task taken got
      exactly one update. */
  predicate Consistent(s: State)
  {
    s.enqueued == s.dequeued + s.queue &&
    |s.commits| == |s.dequeued| &&
    forall k :: 0 <= k < |s.commits| ==> s.commits[k].id == s.dequeued[k].id
  }

  /** One pass of the worker loop: stop once the budget is spent; otherwise fetch a batch
      when the queue is short and the lock is free, then take the head of the queue, if any,
      and issue its one update. */
  function Next(s: State, it: Iteration): (p: Pass)
    ensures p.result.Stopped? <==> it.elapsed > MAX_RUNTIME
    ensures p.result.Stopped? ==> p.state == s
  {
    if it.elapsed > MAX_RUNTIME then
      Pass(s, Stopped)
    else
      var refill := |s.queue| < REFILL_BELOW && it.lockFree;
      var added := if refill then FetchedTasks(it.fetch) else [];
      var requests := s.requests + (if refill then [FetchRequest(TABLE, BATCH_SIZE)] else []);
      var pending := s.queue + added;
      if pending == [] then
        Pass(State([], requests, s.enqueued + added, s.dequeued, s.commits), Idle)
      else
        var task := pending[0];
        var update := UpdateFor(ProbeItem(task.email, it.net), it.logOk);
        Pass(State(pending[1..], requests, s.enqueued + added, s.dequeued + [task],
                   s.commits + [Commit(task.id, update)]),
             Processed(task, update))
  }

  /** Taking the head of the queue, once a batch is appended, and issuing one update for it
      keeps the queue first-in first-out and every task taken with exactly one update. */
  lemma TakeHeadConsistent(s: State, added: seq<Task>, requests: seq<FetchRequest>, u: Update)
    requires Consistent(s) && s.queue + added != []
    ensures var pending := s.queue + added;
            Consistent(State(pending[1..], requests, s.enqueued + added, s.dequeued + [pending[0]],
                             s.commits + [Commit(pending[0].id, u)]))
  {
    var pending := s.queue + added;
    assert s.enqueued + added == s.dequeued + pending;
    assert pending == [pending[0]] + pending[1..];
    assert s.enqueued + added == (s.dequeued + [pending[0]]) + pending[1..];
  }

  /** A pass keeps the queue first-in first-out and every task taken with exactly one update. */
  lemma NextConsistent(s: State, it: Iteration)
    requires Consistent(s)
    ensures Consistent(Next(s, it).state)
  {
    if it.elapsed <= MAX_RUNTIME {
      var refill := |s.queue| < REFILL_BELOW && it.lockFree;
      var added := if refill then FetchedTasks(it.fetch) else [];
      var requests := s.requests + (if refill then [FetchRequest(TABLE, BATCH_SIZE)] else []);
      if s.queue + added != [] {
        TakeHeadConsistent(s, added, requests, UpdateFor(ProbeItem((s.queue + added)[0].email, it.net), it.logOk));
      }
    }
  }

  /** A pass only appends to the logs; it sends a request only when the queue is short and
      the lock free; it issues one update exactly when it takes a task, and then the task is
      the oldest one queued, the update is that task's probe outcome, and the update call
      names it. */
  lemma NextTakesOldest(s: State, it: Iteration)
    ensures var p := Next(s, it);
            && s.requests <= p.state.requests && s.enqueued <= p.state.enqueued
            && s.dequeued <= p.state.dequeued && s.commits <= p.state.commits
    ensures var p := Next(s, it);
            |s.queue| >= REFILL_BELOW || !it.lockFree ==> p.state.requests == s.requests
    ensures var p := Next(s, it);
            |p.state.commits| == |s.commits| + (if p.result.Processed? then 1 else 0)
    ensures var p := Next(s, it);
            p.result.Processed? ==>
              && p.state.dequeued == s.dequeued + [p.result.task]
              && p.state.commits == s.commits + [Commit(p.result.task.id, p.result.update)]
              && p.result.update == UpdateFor(ProbeItem(p.result.task.email, it.net), it.logOk)
              && (s.queue != [] ==> p.result.task == s.queue[0])
  {
  }

  /** The passes run in order from state `s`. */
  function Run(s: State, its: seq<Iteration>): (t: State)
    ensures (forall it :: it in its ==> it.elapsed > MAX_RUNTIME) ==> t == s
    decreases |its|
  {
    if its == [] then s else Next(Run(s, its[..|its| - 1]), its[|its| - 1]).state
  }

  /** The number of passes the loop completes: the index of the first pass that finds the
      budget spent, searching from `i`, or the number of passes when none does. */
  function FirstExpired(its: seq<Iteration>, i: nat): (n: nat)
    requires i <= |its|
    ensures i <= n <= |its|
    ensures forall k :: i <= k < n ==> its[k].elapsed <= MAX_RUNTIME
    ensures n < |its| ==> its[n].elapsed > MAX_RUNTIME
    decreases |its| - i
  {
    if i == |its| || its[i].elapsed > MAX_RUNTIME then i else FirstExpired(its, i + 1)
  }

  /** Running one more pass is one more step of `Next`. */
  lemma RunExtend(s: State, its: seq<Iteration>, i: nat)
    requires i < |its|
    ensures Run(s, its[..i + 1]) == Next(Run(s, its[..i]), its[i]).state
  {
    assert its[..i + 1][..i] == its[..i];
  }

  /** Any run of passes keeps the queue first-in first-out and every task taken with exactly
      one update. */
  lemma {:induction false} RunConsistent(s: State, its: seq<Iteration>)
    requires Consistent(s)
    ensures Consistent(Run(s, its))
    decreases |its|
  {
    if its != [] {
      RunConsistent(s, its[..|its| - 1]);
      NextConsistent(Run(s, its[..|its| - 1]), its[|its| - 1]);
    }
  }

  /** A run of passes only appends to the logs, and issues at most one update per pass. */
  lemma {:induction false} RunGrows(s: State, its: seq<Iteration>)
    ensures s.requests <= Run(s, its).requests && s.enqueued <= Run(s, its).enqueued
    ensures s.dequeued <= Run(s, its).dequeued && s.commits <= Run(s, its).commits
    ensures |Run(s, its).commits| <= |s.commits| + |its|
    decreases |its|
  {
    if its != [] {
      var mid := Run(s, its[..|its| - 1]);
      RunGrows(s, its[..|its| - 1]);
      NextTakesOldest(mid, its[|its| - 1]);
    }
  }

  class Pool {
    /** `email_queue`'s items, head first. */
    var queue: seq<Task>
    /** `email_queue`'s count of unfinished tasks: raised by `put`, lowered by `task_done`. */
    var unfinished: int
    /** Whether `fetch_lock` is held. */
    var fetchLockHeld: bool
    /** Every backlog request sent, in order. */
    var requests: seq<FetchRequest>
    /** Every update call issued, in order. */
    var commits: seq<Commit>
    /** Every task ever put, and every task ever taken, in order. */
    ghost var enqueued: seq<Task>
    ghost var dequeued: seq<Task>

    /** Between passes: the lock is free; the queue is first-in first-out (what was taken
        and what remains are, together, what was put); every task taken has been marked
        done with `task_done`; and the i-th update call is for the i-th task taken. */
    ghost predicate Valid()
      reads this
    {
      !fetchLockHeld && unfinished == |queue| && Consistent(Abstract())
    }

    ghost function Abstract(): State
      reads this
    {
      State(queue, requests, enqueued, dequeued, commits)
    }

    constructor ()
      ensures Valid()
      ensures queue == [] && requests == [] && commits == [] && enqueued == []
    {
      queue, unfinished, fetchLockHeld := [], 0, false;
      requests, commits := [], [];
      enqueued, dequeued := [], [];
    }

    /** `email_queue.put(task)`. */
    method Put(t: Task)
      modifies this`queue, this`enqueued, this`unfinished
      ensures queue == old(queue) + [t] && enqueued == old(enqueued) + [t]
      ensures unfinished == old(unfinished) + 1
    {
      queue := queue + [t];
      enqueued := enqueued + [t];
      unfinished := unfinished + 1;
    }

    /** `email_queue.get(timeout=5)`: the head, or `None` for the `Empty` raised when
        nothing arrives. */
    method Get() returns (t: Option<Task>)
      modifies this`queue, this`dequeued
      ensures old(queue) == [] ==> t == None && unchanged(this)
      ensures old(queue) != [] ==> t == Some(old(queue)[0]) && queue == old(queue)[1..] &&
                                   dequeued == old(dequeued) + [old(queue)[0]]
    {
      if queue == [] {
        return None;
      }
      t := Some(queue[0]);
      dequeued := dequeued + [queue[0]];
      queue := queue[1..];
    }

    /** `email_queue.task_done()`; the library refuses more calls than puts. */
    method TaskDone()
      requires unfinished > 0
      modifies this`unfinished
      ensures unfinished == old(unfinished) - 1
    {
      unfinished := unfinished - 1;
    }

    /** `fetch_to_queue()`: request a batch, put each row as a task, return the row count;
        any exception returns 0, keeping what was already put. */
    method FetchToQueue(resp: FetchResponse) returns (n: nat)
      modifies this`queue, this`enqueued, this`unfinished, this`requests
      ensures n == FetchCount(resp)
      ensures queue == old(queue) + FetchedTasks(resp) && enqueued == old(enqueued) + FetchedTasks(resp)
      ensures unfinished == old(unfinished) + |FetchedTasks(resp)|
      ensures requests == old(requests) + [FetchRequest(TABLE, BATCH_SIZE)]
    {
      requests := requests + [FetchRequest(TABLE, BATCH_SIZE)];
      if resp.RpcError? {
        return 0;
      }
      var rows := RowsOf(resp);
      ghost var tasks := TasksBefore(rows);
      ghost var q0, e0, u0, r0 := queue, enqueued, unfinished, requests;
      var i := 0;
      while i < |rows|
        invariant i <= |tasks|
        invariant queue == q0 + tasks[..i] && enqueued == e0 + tasks[..i]
        invariant unfinished == u0 + i
        invariant requests == r0
      {
        var row := rows[i];
        if row.id.None? || row.email.None? {
          assert tasks[..i] == tasks;
          return 0;
        }
        var t := Task(row.id.value, row.email.value);
        assert t == tasks[i];
        Put(t);
        assert tasks[..i + 1] == tasks[..i] + [t];
        i := i + 1;
      }
      assert tasks[..i] == tasks;
      return |rows|;
    }

    /** `update_result(id, valid)`: write `{valid, status: "done"}`. */
    method UpdateResult(id: RecordId, valid: bool)
      modifies this`commits
      ensures commits == old(commits) + [Commit(id, Done(valid))]
    {
      commits := commits + [Commit(id, Done(valid))];
    }

    /** The failure update in the worker's handler: write `{status: "failed"}`. */
    method MarkFailed(id: RecordId)
      modifies this`commits
      ensures commits == old(commits) + [Commit(id, Failed)]
    {
      commits := commits + [Commit(id, Failed)];
    }

    /** The refill gate: below the low-water mark, and only when the non-blocking acquire
        succeeds, fetch a batch while holding the lock, then release it. */
    method MaybeRefill(lockFree: bool, resp: FetchResponse)
      requires Valid()
      modifies this`queue, this`enqueued, this`unfinished, this`requests, this`fetchLockHeld
      ensures Valid()
      ensures |old(queue)| < REFILL_BELOW && lockFree ==>
                && requests == old(requests) + [FetchRequest(TABLE, BATCH_SIZE)]
                && queue == old(queue) + FetchedTasks(resp)
                && enqueued == old(enqueued) + FetchedTasks(resp)
      ensures !(|old(queue)| < REFILL_BELOW && lockFree) ==> unchanged(this)
    {
      if |queue| < REFILL_BELOW && lockFree {
        ghost var added := FetchedTasks(resp);
        fetchLockHeld := true;
        var _ := FetchToQueue(resp);
        fetchLockHeld := false;
        assert enqueued == old(enqueued) + added == old(dequeued + queue) + added;
        assert enqueued == dequeued + queue;
      }
    }

    /** Dequeue or time out; for a dequeued task, probe its address, issue exactly one
        update for it (`failed` when the probe or the line printed before the update
        raised), then `task_done`. */
    method ProcessNext(net: Network, logOk: bool) returns (r: StepResult)
      requires Valid()
      modifies this`queue, this`dequeued, this`unfinished, this`commits
      ensures Valid()
      ensures old(queue) == [] ==> r == Idle && unchanged(this)
      ensures old(queue) != [] ==>
                && r == Processed(old(queue)[0], UpdateFor(ProbeItem(old(queue)[0].email, net), logOk))
                && queue == old(queue)[1..]
                && dequeued == old(dequeued) + [old(queue)[0]]
                && commits == old(commits) + [Commit(old(queue)[0].id, r.update)]
    {
      var item := Get();
      if item.None? {
        return Idle;
      }
      var task := item.value;
      var update := CheckAddress(task.email, net, logOk);
      Finish(task, update);
      r := Processed(task, update);
    }

    /** Between `get` and `task_done`: the task just taken is the only one without its
        update yet. */
    ghost predicate Busy()
      reads this
    {
      !fetchLockHeld &&
      enqueued == dequeued + queue &&
      unfinished == |queue| + 1 &&
      |commits| + 1 == |dequeued| &&
      forall k :: 0 <= k < |commits| ==> commits[k].id == dequeued[k].id
    }

    /** The end of the guarded block and its `finally`: issue the one update for the task
        just taken, then `task_done`. */
    method Finish(task: Task, update: Update)
      requires Busy() && dequeued[|dequeued| - 1] == task
      modifies this`commits, this`unfinished
      ensures Valid()
      ensures commits == old(commits) + [Commit(task.id, update)]
    {
      if update.Done? {
        UpdateResult(task.id, update.valid);
      } else {
        MarkFailed(task.id);
      }
      TaskDone();
      assert commits == old(commits) + [Commit(task.id, update)];
      forall k | 0 <= k < |commits|
        ensures commits[k].id == dequeued[k].id
      {
        if k < |old(commits)| {
          assert commits[k] == old(commits)[k];
        }
      }
    }

    /** One pass of the worker loop: check the budget, maybe refill, then dequeue, probe,
        update and `task_done`. */
    method Step(it: Iteration) returns (r: StepResult)
      requires Valid()
      modifies this
      ensures Valid()
      ensures Pass(Abstract(), r) == Next(old(Abstract()), it)
    {
      if it.elapsed > MAX_RUNTIME {
        return Stopped;
      }
      MaybeRefill(it.lockFree, it.fetch);
      r := ProcessNext(it.net, it.logOk);
    }

    /** The `while True` loop over successive passes; it ends at the first pass that finds
        the budget spent (or when the given passes run out). */
    method Work(its: seq<Iteration>) returns (passes: nat)
      requires Valid()
      modifies this
      ensures Valid()
      ensures passes == FirstExpired(its, 0)
      ensures Abstract() == Run(old(Abstract()), its[..passes])
    {
      ghost var start := Abstract();
      passes := 0;
      while passes < |its|
        invariant Valid()
        invariant passes <= |its|
        invariant FirstExpired(its, passes) == FirstExpired(its, 0)
        invariant Abstract() == Run(start, its[..passes])
      {
        var r := Step(its[passes]);
        if r.Stopped? {
          return;
        }
        RunExtend(start, its, passes);
        passes := passes + 1;
      }
    }
  }

  /** The first pass of a fresh pool whose backlog returns rows 1 and 2: it requests one
      batch, queues both rows and takes row 1. */
  lemma FirstPassOfBatch(a: string, b: string, net: Network)
    ensures var rows := [Row(Some(1), Some(Some(a))), Row(Some(2), Some(Some(b)))];
            Next(State([], [], [], [], []), Iteration(0.0, true, Response(Some(rows)), net, true)).state ==
            State([Task(2, Some(b))], [FetchRequest(TABLE, BATCH_SIZE)], [Task(1, Some(a)), Task(2, Some(b))],
                  [Task(1, Some(a))], [Commit(1, UpdateFor(Probe(a, net), true))])
  {
    var tasks := [Task(1, Some(a)), Task(2, Some(b))];
    BatchTasks(a, b);
    assert ([] + tasks)[1..] == [Task(2, Some(b))];
  }

  /** Rows 1 and 2, both with their keys, become the tasks for 1 and 2, in that order. */
  lemma BatchTasks(a: string, b: string)
    ensures FetchedTasks(Response(Some([Row(Some(1), Some(Some(a))), Row(Some(2), Some(Some(b)))]))) ==
            [Task(1, Some(a)), Task(2, Some(b))]
  {
    var rows := [Row(Some(1), Some(Some(a))), Row(Some(2), Some(Some(b)))];
    assert TasksBefore(rows[1..][1..]) == [];
    assert TasksBefore(rows[1..]) == [Task(2, Some(b))];
  }

  /** The second pass, with the backlog call failing: row 2 is still queued, so it is taken. */
  lemma SecondPassOfBatch(a: string, b: string, net: Network)
    ensures var s := State([Task(2, Some(b))], [FetchRequest(TABLE, BATCH_SIZE)], [Task(1, Some(a)), Task(2, Some(b))],
                           [Task(1, Some(a))], [Commit(1, UpdateFor(Probe(a, net), true))]);
            Next(s, Iteration(1.0, true, RpcError, net, true)).state.commits ==
            [Commit(1, UpdateFor(Probe(a, net), true)), Commit(2, UpdateFor(Probe(b, net), true))]
  {
  }

  /** The backlog returns `{id: 1, email: a}` and `{id: 2, email: b}`; two passes of the
      loop issue exactly one update each, for 1 and then for 2, each from its own probe. */
  method TwoRowBatch(a: string, b: string, net: Network) returns (commits: seq<Commit>)
    ensures commits == [Commit(1, UpdateFor(Probe(a, net), true)), Commit(2, UpdateFor(Probe(b, net), true))]
  {
    var pool := new Pool();
    var rows := [Row(Some(1), Some(Some(a))), Row(Some(2), Some(Some(b)))];
    FirstPassOfBatch(a, b, net);
    var first := pool.Step(Iteration(0.0, true, Response(Some(rows)), net, true));
    SecondPassOfBatch(a, b, net);
    var second := pool.Step(Iteration(1.0, true, RpcError, net, true));
    commits := pool.commits;
  }
}
