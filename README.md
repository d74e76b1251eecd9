# make_safe_request: a verified model of the gateway agent's retrying HTTP helper

The gate syncer package has one helper for HTTP requests,
`make_safe_request(req_func, json, retries_count)` (gate_syncer/utils.py). It calls `req_func` to make
one HTTP request and retries it a bounded number of times. The helper keeps an
error counter and loops while that counter is below `retries_count`. After each
call it does one of these things:

- a transport exception (`RequestException`): one error, a three-second sleep,
  then the next attempt;
- status 404: return nothing at once. This is not an error;
- status 200 without JSON expected: return nothing at once (a bare success);
- status 200 with JSON expected: the body is decoded. A non-empty JSON object is
  returned. A body that fails to decode, is falsy, or is not an object counts as
  one error, followed by a sleep and a retry;
- any other status: one error, a sleep, a retry.

When the counter reaches the budget, the helper returns nothing
(the `while … else` branch).

The model has two modules:

- `JsonValues` (`json_values.dfy`) holds decoded JSON values and Python's
  truthiness on them.
- `Utils` (`utils.dfy`) holds the helper. `req_func` becomes an oracle
  `answers: nat -> Attempt`, where `answers(i)` is what the i-th call produces.
  `time.sleep(3)` becomes a `Sleep(3)` effect. The effect is recorded, in order,
  in a trace next to the `Call` effects.

`Utils.MakeSafeRequest` is the helper as a loop with the same branches. It
returns the helper's value, the final error counter and the trace of effects.
It is proved equal to `Utils.Expected`, a loop-free description of the same
behaviour. `Expected` says the attempts are made in order until the first one
that is not retried (`Utils.FirstStop`), within a budget of `retries_count`
attempts. Each retried attempt costs one error and one sleep. The lemmas below
are stated about `Expected`, so through that equality they hold of the helper.

One consequence is worth knowing. The sleep also follows the last failed
attempt. A run that uses up its budget therefore sleeps once more before it
returns nothing: `retries_count` sleeps in all, not `retries_count - 1`.

Only status 200 counts as success. Every other status except 404, including
other 2xx codes such as 201 or 204, is retried as an error
(gate_syncer/utils.py:18-26).

## Model

| member | source | states |
|---|---|---|
| `Utils.MakeSafeRequest` | gate_syncer/utils.py:7-41 | The loop returns the value, error count and ordered call/sleep trace that `Expected` gives for every oracle, `json` flag and budget, including a negative budget. |
| `Utils.Classify` | gate_syncer/utils.py:12-37 | One attempt yields a dict only when JSON is expected and the response is a 200 whose body decodes to exactly that non-empty object. A transport exception is always retried. |
| `Utils.FirstStop` | gate_syncer/utils.py:11-40 | The index it finds is below the budget, is not retried, and every attempt before it is retried. When it finds none, every attempt below the budget is retried. |
| `Utils.RetryTraceAt` | gate_syncer/utils.py:13-17 | After `n` failed attempts the trace has length `2n` and alternates: each call is followed by one three-second sleep. |
| `Utils.RetryTraceCounts` | gate_syncer/utils.py:15-16 | `n` failed attempts leave exactly `n` calls and `n` sleeps in the trace. |
| `Utils.BudgetBounds` | gate_syncer/utils.py:10-11 | Calls are at most `max(retries_count, 0)`. Sleeps equal the final error count, which is also within that bound. The error count is the number of calls, or one less. Every sleep lasts three seconds. |
| `Utils.AttemptInTrace` | gate_syncer/utils.py:11-37 | Attempt `i` is at position `2i` of the trace. A failed attempt is followed by exactly one three-second sleep and then the next call, if any. An attempt that is not retried is the last effect, leaves the error count at `i`, and its classification is the result. |
| `Utils.NoBudgetNoRequest` | gate_syncer/utils.py:10-11 | With `retries_count <= 0`, no request is made, nothing is slept and nothing is returned. |
| `Utils.FailuresExhaustBudget` | gate_syncer/utils.py:38-40 | If every attempt within the budget fails, the result is nothing, after exactly `max(retries_count, 0)` calls, errors and sleeps. |
| `Utils.PersistentServerError` | gate_syncer/utils.py:23-26 | A server that always answers one status other than 200 and 404 costs exactly `max(retries_count, 0)` calls, and the result is nothing. |
| `Utils.NotFoundStops` | gate_syncer/utils.py:21-22 | A 404 after `k` failed attempts ends the run with that call as its last effect. The error count stays `k`, there is no further sleep and nothing is returned; on the first call this is one call and no error. |
| `Utils.BareSuccessStops` | gate_syncer/utils.py:27-28 | Without JSON expected, the first 200 after `k` failed attempts ends the run with that call as its last effect and nothing returned, whatever the body is. |
| `Utils.DictStops` | gate_syncer/utils.py:29-33 | With JSON expected, a 200 whose body is a non-empty object after `k` failed attempts returns that object, with that call as the last effect and the error count at `k`. |
| `Utils.ReturnsDictIff` | gate_syncer/utils.py:29-41 | The result is `Some(d)` if and only if JSON is expected, `d` is non-empty, and some attempt within the budget answers 200 with body `d` after only failed attempts. |
| `JsonValues.IsUsableDict` | gate_syncer/utils.py:31 | A decoded body passes the truthiness and dict test exactly when it is a non-empty object. |

## Left out

- The `requests` library, the network and `time.sleep` are not modelled. The request function is an oracle of attempt outcomes, and a sleep is an effect in a trace.
- Exceptions from `req_func` that are not a `RequestException` are left out. The source does not catch them, so they propagate. The model's `Raised` outcome stands only for `RequestException`.
- Body decoding is modelled as giving either a value or a decoding error. The model assumes that the decoding error is an `InvalidJSONError`, as in requests 2.27 and later. Under older versions of the library it would escape the helper.
- JSON numbers are integers only. Floating-point values are not modelled. For the helper this only affects which scalar bodies are falsy, and every scalar body is retried anyway.
- Logging setup (gate_syncer/logger.py) and the path constants (gate_syncer/pathes.py) are left out. They configure I/O and have no behaviour to prove.
- gate_syncer/gate_syncer.py is left out. It reads the proxy domain from a file, sends one unretried POST and writes the script directory to a file. All of that is I/O.
- No other part of the agent is modelled.
