# SMTP address verifier: a Dafny model of its decision core

`verify.py` marks the addresses in a backlog table as deliverable or not. It does not send
mail. Worker threads pull pending rows `{id, email}` from the store into a shared queue. For
each address a worker looks up the MX hosts of its domain and holds an SMTP conversation
with each host in turn: HELO, `MAIL FROM:<test@example.com>`, `RCPT TO:<address>`, QUIT. A
250 reply to RCPT (section 4.2.3 of RFC 5321) makes the address valid. The worker then writes
`{valid, status: "done"}` back to the store, or `{status: "failed"}` when something raised.

This project models the sequential logic under the network and thread plumbing. DNS, SMTP and
the store are replaced by outcomes that the model takes as inputs:

- `text.dfy` (module `Text`): the parts of Python's `str` and `sorted` the script uses.
  These are code-point string order, sorting, `rstrip('.')` and `split('@')`.
- `mx.dfy` (module `Mx`): `get_mx_records`. It strips trailing dots from the exchange names,
  sorts them by name, and turns any resolver error into `[]`.
- `probe.dfy` (module `Smtp`): `verify_email_smtp`. It is a first-success search over the MX
  hosts, given as the pure function `Probe` and as the loop `VerifyEmailSmtp`, which is
  proved equal to it.
- `worker.dfy` (module `Worker`): the class `Pool`. It holds the queue (with the count that
  `task_done` lowers), the fetch lock, the log of backlog requests and the log of update
  calls. Its methods are `fetch_to_queue`, `update_result`, the failure update, one pass of
  the worker loop (`Step`), and the loop itself (`Work`). A pass is specified by the function
  `Next` on the pool's state, and a run of passes by `Run`.

Each SMTP exchange is abstracted as `Code(c)`, `CaughtError` or `UncaughtError`:

- `Code(c)`: every command returned, and RCPT replied `c`.
- `CaughtError`: the exchange raised an exception in the caught set. That set is
  `socket.error` plus `SMTPException` and its subclasses.
- `UncaughtError`: the exchange raised any other exception, which leaves the probe. One
  example is the `UnicodeEncodeError` that smtplib's ASCII command encoding raises for a
  non-ASCII address.

A QUIT that raises after a 250 reply gives `CaughtError`. The script tests the code only
after `quit()` returns, so that 250 is never seen. The outcome of the i-th connection
attempt to host h is `net.exchange(i, h)`.

The class invariant `Pool.Valid`, through the predicate `Consistent` on the pool's state,
states the exactly-once property. The queue is FIFO: the
tasks taken, followed by the tasks still queued, are exactly the tasks put. The
unfinished-task count equals the queue length, so every task taken got one `task_done`.
The i-th update call is for the i-th task taken, so every task taken got exactly one update.

The model follows the code in three places where one might expect otherwise:

- MX hosts are tried in name order, not by MX preference.
- The probe catches an explicit set of exceptions, not every failure. Any other error
  escapes to the worker, which marks the record `failed`. An address without '@' is one of
  these: `split('@')[1]` raises `IndexError`.
- An exception from the result line printed before `update_result` also leads to a
  `failed` update.

## Model

| member | source | states |
|---|---|---|
| `Text.Le` | verify.py:41 | Python's `<=` on `str`: a prefix sorts first, and a string sorts before another only if its first code point is not greater. |
| `Text.RStrip` | verify.py:41 | `rstrip('.')` returns a prefix of the name. That prefix does not end in '.', and every character removed was a '.'. |
| `Text.Sort` | verify.py:41 | `sorted` returns a permutation of its input that is sorted in Python's code-point string order. |
| `Text.SortedUnique` | verify.py:41 | Two sorted lists with the same elements are equal. So the host list does not depend on which sorting algorithm produced it. |
| `Text.Split` | verify.py:49 | `split('@')` gives at least one field. No field contains '@', and joining the fields with '@' gives back the address. |
| `Text.SplitJoin` | verify.py:49 | `split` inverts joining with '@' for any '@'-free fields. So the fields are determined by the address. |
| `Mx.Stripped` | verify.py:41 | The comprehension keeps one name per answer record, in answer order, each with its trailing dots removed. |
| `Mx.GetMxRecords` | verify.py:38-43 | A resolver error gives `[]`. Otherwise there is one host per answer record. The hosts are the stripped names, with no trailing '.', in ascending string order. |
| `Mx.GetMxRecordsUnique` | verify.py:41 | Any sorted list of the stripped answer names is the MX host list. |
| `Mx.GetMxRecordsMembers` | verify.py:41 | A name is in the host list iff it is the stripped name of some answer record. |
| `Smtp.Domain` | verify.py:49 | `split('@')[1]` raises (is `None`) iff the address has no '@'. Otherwise the domain contains no '@'. |
| `Smtp.DomainIsSecondField` | verify.py:49 | For `local@domain`, optionally followed by `@...`, the domain probed is exactly the text between the first and the second '@'. |
| `Smtp.MovesOn` | verify.py:63-74 | The loop goes on to the next host exactly after a reply code other than 250 or an exception in the caught tuple. It stops on a 250 or on any other exception. |
| `Smtp.HostsOf` | verify.py:49-50 | The hosts probed for an address are `get_mx_records` of its domain: none without an '@', sorted, and without trailing dots. |
| `Smtp.Probe` | verify.py:48-76 | The whole probe: an address without a domain raises with nothing tried. The hosts connected to are a prefix of the MX list, and all of it when the verdict is `False`. A `True` verdict comes from a 250 reply of the last host tried. |
| `Smtp.TryFrom` | verify.py:55-76 | The hosts tried are a prefix of the MX list, in list order. Every host tried before the last one moved on (non-250 code or caught error). The probe ends with `True` only on a 250 and raises only on an uncaught error. `False` comes only after every host was tried and moved on. |
| `Smtp.VerifyEmailSmtp` | verify.py:48-76 | The loop, with its early returns, computes exactly `Probe`: the same verdict or escape and the same hosts tried. |
| `Smtp.ProbeWithoutAt` | verify.py:49 | An address without '@' raises before any lookup or connection. |
| `Smtp.ProbeIsLoop` | verify.py:48-76 | Once the address has a domain, the probe is the host loop over that domain's MX list. An empty list gives `False` with no attempt, as the early return does. |
| `Smtp.ProbeNoHosts` | verify.py:50-53 | An empty MX list gives `False` with zero connection attempts. |
| `Smtp.TryFromStopsAt` | verify.py:55-74 | The first host whose outcome does not move on ends the loop: with `True` on a 250, or by raising. The hosts tried are those up to and including it. |
| `Smtp.TryFromExhausts` | verify.py:55-76 | When every remaining host moves on, the loop tries them all and returns `False`. |
| `Smtp.TryFromValidIff` | verify.py:55-76 | The host loop returns `True` iff some host replies 250 and every host before it moved on. The hosts tried are then exactly those up to and including that one. |
| `Smtp.ProbeValidIff` | verify.py:48-64 | The verdict is `True` iff some host replies 250 to RCPT and every host before it moved on. No host after that one is tried. |
| `Smtp.ProbeAllMoveOn` | verify.py:66-76 | When every host replies non-250 or raises a caught error, every host is tried and the verdict is `False`. |
| `Smtp.SecondHostAccepts` | verify.py:38-76 | Take an address at `example.com` whose MX answer is `mx2.example.com.` and `mx1.example.com.`. If `mx1` refuses and `mx2` answers 250, the verdict is `True` after trying `mx1`, then `mx2`. |
| `Smtp.ExampleDomain` | verify.py:49 | The domain probed for `user@example.com` is `example.com`. |
| `Smtp.ExampleHosts` | verify.py:41 | The resolver names `mx2.example.com.` and `mx1.example.com.` become the host list `mx1.example.com`, `mx2.example.com`. |
| `Smtp.ExampleStripped` | verify.py:41 | `rstrip('.')` turns `mx2.example.com.` and `mx1.example.com.` into the same names without the dot, in answer order. |
| `Smtp.ExampleOrder` | verify.py:41 | `mx1.example.com` sorts before `mx2.example.com`. |
| `Worker.RowsOf` | verify.py:88 | `response.data or []`: the rows are the payload's `data` when it is present. Any row at all comes from a non-null payload of a call that returned. |
| `Worker.TasksBefore` | verify.py:88-94 | One task `{id, email}` is put per row, in row order. Putting stops at the first row missing a key. |
| `Worker.FetchedTasks` | verify.py:88-94 | What one fetch puts: at most one task per row, the k-th task being `{id, email}` of the k-th row, which has both keys. A failed RPC puts nothing. |
| `Worker.FetchCount` | verify.py:96-103 | A non-zero return is the row count, and then every row was put. |
| `Worker.FetchAllRows` | verify.py:88-99 | When no row misses a key, every row is put in backlog order and the return value is the row count. |
| `Worker.FetchFailure` | verify.py:82-103 | An RPC error, or a row missing a key, makes the fetch return 0. Rows put before the failing row stay queued. |
| `Worker.ProbeItem` | verify.py:49 | A null `email` raises at `email.split('@')` with nothing tried. Otherwise it is the probe of the address. |
| `Worker.UpdateFor` | verify.py:146-168 | A task gets `done(valid)` iff the probe returned and the result line printed, and `valid` is then the verdict. Otherwise it gets `failed`. |
| `Worker.CheckAddress` | verify.py:146-162 | The guarded block yields `done(valid)` with the probe's verdict when the probe returned and the result line printed, and `failed` otherwise. |
| `Worker.Next` | verify.py:123-171 | One pass: it stops, with nothing changed, exactly when more than 5 h have passed. Otherwise it fetches when fewer than 20 tasks are queued and the lock is free, then takes the head of the queue, if any, and issues its one update. |
| `Worker.NextConsistent` | verify.py:130-171 | A pass keeps the queue first-in first-out and every task taken with exactly one update. |
| `Worker.TakeHeadConsistent` | verify.py:139-171 | Taking the head after a batch is appended, with one update for it, keeps that invariant. |
| `Worker.NextTakesOldest` | verify.py:130-171 | A pass only appends to the logs. It requests a batch only when the queue is short and the lock free. It issues one update exactly when it takes a task. That task is the oldest queued, and its update is `UpdateFor` its probe. |
| `Worker.FirstExpired` | verify.py:123-127 | The passes the loop completes: every pass before that index is within the 5 h budget, and the pass at it, if any, is over it. |
| `Worker.Run` | verify.py:123-171 | The `while True` loop as passes of `Next` run in order. Passes that all find the budget spent change nothing. |
| `Worker.RunExtend` | verify.py:123 | Running one more pass of the loop is one more step of `Next`. |
| `Worker.RunConsistent` | verify.py:123-171 | Any number of passes keeps the exactly-once invariant. |
| `Worker.RunGrows` | verify.py:123-171 | Any number of passes only appends to the request and update logs, with at most one update per pass. |
| `Worker.Pool.constructor` | verify.py:32-33 | The queue starts empty and the lock free, with no requests and no updates issued. |
| `Worker.Pool.Put` | verify.py:91 | `put` appends one task at the tail and raises the unfinished count by one. |
| `Worker.Pool.Get` | verify.py:139-141 | On a non-empty queue, `get` takes the head. On an empty queue it times out (`None`) and changes nothing. |
| `Worker.Pool.TaskDone` | verify.py:171 | `task_done` lowers the unfinished count by one. |
| `Worker.Pool.FetchToQueue` | verify.py:81-103 | One request `{gmail, 500}` is sent. The queue becomes the old queue plus the fetched tasks, and nothing else changes. The return value is the row count, or 0 on any exception. |
| `Worker.Pool.UpdateResult` | verify.py:108-115 | One `{valid, status: "done"}` update is issued for the record. |
| `Worker.Pool.MarkFailed` | verify.py:161-168 | One `{status: "failed"}` update is issued for the record. |
| `Worker.Pool.MaybeRefill` | verify.py:130-135 | A batch is requested iff the queue held fewer than 20 tasks and the non-blocking acquire succeeded. The lock is free again afterwards. |
| `Worker.Pool.ProcessNext` | verify.py:138-171 | A timeout issues no update. A dequeued head task gets exactly one update, `UpdateFor` its probe, and exactly one `task_done`. The invariant (FIFO, exactly-once) is kept. |
| `Worker.Pool.Finish` | verify.py:156-171 | The task just taken gets exactly one update call, then its `task_done`. That restores the exactly-once invariant. |
| `Worker.Pool.Step` | verify.py:123-171 | One pass changes the queue, the request log and the update log exactly as `Next` says, returns `Next`'s outcome, and keeps the exactly-once invariant. |
| `Worker.Pool.Work` | verify.py:120-171 | The loop runs exactly the passes up to the first one over the 5 h budget. The final queue and logs are those passes run in order by `Next` from the starting state. |
| `Worker.BatchTasks` | verify.py:88-94 | Rows 1 and 2, both with their keys, become the tasks for 1 and 2, in that order. |
| `Worker.FirstPassOfBatch` | verify.py:123-171 | On a fresh pool, the first pass requests one batch, queues rows 1 and 2, and takes row 1 with its one update. |
| `Worker.SecondPassOfBatch` | verify.py:123-171 | With the backlog call failing, the second pass takes row 2 and issues its update after row 1's. |
| `Worker.TwoRowBatch` | verify.py:81-171 | The backlog returns rows 1 and 2, with any two addresses. Two passes issue exactly one update each, for 1 and then for 2, each from the probe of its own address. |

## Left out

- DNS resolution, SMTP connections and Supabase RPC/table calls are network clients. Their
  results are inputs: `Resolution`, `Network.exchange`, `FetchResponse`, and the update log.
- The log records the update calls issued. It does not record whether the store applied
  them, because the script swallows those errors.
- Thread creation, the 2 s staggered start, daemon threads and the keep-alive main loop are
  concurrency and wall-clock waiting. One `Pool` runs one pass at a time.
- Lock contention between threads is left out. Whether the non-blocking acquire succeeds is
  the input `Iteration.lockFree`.
- `time.time()` is the input `Iteration.elapsed`. The 5 s dequeue timeout and the 10 s SMTP
  timeout are real durations and are not modelled.
- Tasks put by another thread while `get` waits are not modelled. A `get` on an empty queue
  always times out in the model.
- The SMTP dialogue itself (greeting, the fixed sender `test@example.com`, QUIT) is folded
  into the one outcome per host.
- `print` output and `sys.stdout.reconfigure` are left out. A `print` that raises before
  `update_result` is the input `Iteration.logOk`.
- `Worker.Pool.Work`: `while True` never ends on its own. The model runs it over a finite
  sequence of passes, stated by `Run`; it says nothing about passes beyond that sequence.
- `Worker.Pool.TaskDone`: the library raises `ValueError` when `task_done` outnumbers `put`.
  This is a requires clause here, and `Valid` shows the worker never hits it.
- Rows that are not mappings and `data` that is not a list are not modelled. Missing `id`
  or `email` keys are, and so is a null `email`: it is queued, its probe raises at
  `split`, and it gets `failed`. A null `id` is not modelled; the model takes every `id`
  present to be a record id.
- Every other `print` (verify.py:97, 102, 115, 121, 126, 162) is taken never to raise. Only
  the result line before `update_result` may raise (`Iteration.logOk`). Were the others to
  raise:
  - at verify.py:97, the fetch would return 0 after putting every row, where
    `Worker.FetchCount` gives the row count;
  - at verify.py:102, the exception would leave `fetch_to_queue` through the `try/finally`
    at verify.py:132-135, which has no `except`, and end the worker thread;
  - at verify.py:115, the task would get a second, `failed` update;
  - at verify.py:121 or 126, the thread would end before its first pass or without the
    orderly stop;
  - at verify.py:162, the task would get no update, and the thread would end after
    `task_done`.
- Exceptions outside `Exception` (`KeyboardInterrupt`, `SystemExit`) are not modelled. They
  would end the thread.
- No duplicate tasks in a run is a property of the store's selection query, not of this
  code. The queue does no de-duplication, and neither does the model.
- `Text.Sort` is an insertion sort, not Timsort. `Text.SortedUnique` shows that the result
  is the same list.
