# greggd tracing core in Dafny

greggd runs eBPF tracing programs that are described in a configuration file. This project models two parts of it and proves properties of the model:

- **The `tcplife` kernel program** (`csrc/tcplife.c`). A kprobe on `tcp_set_state` keeps two per-socket BPF hash tables:
  - `birth` holds the time of the socket's most recent state before FIN_WAIT1 (every early state overwrites it);
  - `whoami` holds the pid and comm of the task that opened or closed it.
  
  When a TCP session closes and its birth time was recorded, the probe submits one lifetime record to the `ipv4_events` or the `ipv6_events` perf output; when no birth time was recorded, it submits nothing.
  - `TcpLife.Probe` is a class whose fields are the two tables and the two outputs.
  - Its method `TcpSetState` updates them in place, the way the C code does.
  - The pure function `TcpLife.Next` specifies one invocation, and the properties are proved about `Next`.
- **The tracing engine** (`tracer/tracer.go`). It covers four functions:
  - `buildStructFromArray` builds a record type from an output's (name, type) format list;
  - `attachAndLoadEvent` validates one event and dispatches its kind, ignoring case, to one load+attach pair of the probe runtime;
  - `Trace` creates the module, attaches the events in order and stops at the first failure, then polls the outputs one after another;
  - `pollOutputMaps` opens a perf map and runs the cancel/decode `select` loop.
  
  The probe runtime is a value, `Tracer.Runtime`. It keeps the log of every call made on it and a map of injected failures, and a call's outcome is looked up in that map.
  
  The two loops of `Trace` are the `while` loops of the method `Trace`, and the `for`/`select` loop of `pollOutputMaps` is the `while` loop of `RunSelectLoop`, which the method `PollOutputMaps` calls. Each of these methods is proved equal to a pure function (`TraceRun`, `SelectLoop`, `OutputPoll`), and lemmas state the properties of those functions over the call log and the errors sent. The accumulation loop of `buildStructFromArray`, which only computes a value, is the recursive function `BuildStructFromArray`.
- **The configuration shapes** (`config/config.go`). `BPFEvent`, `BPFOutput` and `BPFProgram` are datatypes in `Config`. `BPFOutput` also gets the `Format` field that `tracer/tracer.go:20` reads.

Inputs that the source takes from the outside world are parameters:
- the values of the BPF helpers (`Helpers`) and the socket fields (`SockFields`);
- the program's source text;
- the wake-ups each poll loop sees (`wakes[j]` for output `j`; a missing entry means no wake-up ever arrives);
- the decoder, an abstract predicate on a record type and a byte batch.

`Load*` returns a program descriptor. The model takes it to be the length of the call log at the time of the load, so each load gets a different descriptor, and the proofs check that the attach uses exactly the descriptor its load returned.

### Behaviour of the code worth knowing
- **Output polling is sequential.** `Trace` calls `pollOutputMaps` for one output after another on its own goroutine (`tracer/tracer.go:169-171`); no output is polled concurrently with another. A poll that returns with an error does not stop `Trace` from polling the next output. A poll that keeps waiting keeps every later output from being polled at all (`Tracer.PollOutputs`, `Tracer.PollStopsAtFirstWaiting`).
- **Attach failure.** Hooks attached before the failing event are not detached one by one. `Trace` returns, and the deferred `m.Close()` is the only release (`Tracer.TraceClosesIffReturned`).
- **Decode failure.** It reports one error and ends that poll only. It does not cancel the context, so later polls still run.
- **Missing keys.** Only `AttachTo` and `Type` are checked; an empty `LoadFunc` is let through (`tracer/tracer.go:90`).
- **Duplicate field names.** No check exists for them in `buildStructFromArray`.
- **Error for an unsupported type.** It carries the type string as configured, not the case-converted one (`tracer/tracer.go:136-137`, `54-55`).

## Model

| member | source | states |
|---|---|---|
| TcpLife.CurrentPid | csrc/tcplife.c:55 | the pid is the upper 32 bits of `bpf_get_current_pid_tgid()` |
| TcpLife.CurrentUid | csrc/tcplife.c:56 | the uid is the lower 32 bits of `bpf_get_current_uid_gid()` |
| TcpLife.SpanUs | csrc/tcplife.c:111 | the lifespan is `(now - birth) / 1000` in u64 arithmetic: the plain difference when the clock did not go back, and the difference plus 2^64 when the subtraction wraps |
| TcpLife.PackPorts | csrc/tcplife.c:158 | the IPv6 port packing can be inverted: the upper 32 bits of `ports` are `lport` and the lower 32 bits are `dport` |
| TcpLife.StampBirth | csrc/tcplife.c:78-90 | every state below FIN_WAIT1 sets or overwrites `birth[sk]` with the current time; other states leave `birth` unchanged; no other socket's entry changes |
| TcpLife.CacheIdentity | csrc/tcplife.c:92-99 | on SYN_SENT or LAST_ACK, `whoami[sk]` becomes the current pid and comm; other states leave `whoami` unchanged; no other socket's entry changes |
| TcpLife.Ipv4Record | csrc/tcplife.c:130-145 | the `data4` record carries the given span, pid and comm, the low 32 bits of the uid/gid, the socket's IPv4 source and destination addresses, `lport` as the local port, the host-order `dport` as the remote port, and the received and acked byte counters |
| TcpLife.Ipv6Record | csrc/tcplife.c:149-166 | the `data6` record carries the given span, pid and comm, the low 32 bits of the uid/gid, the socket's IPv6 source and destination addresses, the packed ports whose upper half is `lport` and lower half is `dport`, and the received and acked byte counters |
| TcpLife.Close | csrc/tcplife.c:104-172 | the TCP_CLOSE branch. Afterwards `sk` is in neither table and other sockets are untouched. With no birth entry, no record is emitted and `birth` is unchanged. Otherwise exactly one record is emitted, to `ipv4_events` iff the family is AF_INET and to `ipv6_events` otherwise. The record's span is computed from the birth entry. Its pid and comm are the cached ones when `whoami[sk]` exists and the current ones otherwise |
| TcpLife.Next | csrc/tcplife.c:53-173 | one probe invocation. For a state other than TCP_CLOSE: no record, and only the birth and identity updates above. For TCP_CLOSE: the close branch. No other socket's entry changes. The outputs only grow by appending, at most one record per call, and exactly one iff the state is TCP_CLOSE and `sk` has a birth entry |
| TcpLife.ActiveOpenLifetime | csrc/tcplife.c:66-75 | an active open (SYN_SENT, ESTABLISHED, CLOSE) emits exactly one IPv4 record. It carries the connecting task's pid and comm and the span since the last early state, and the socket leaves both tables |
| TcpLife.CloseEmitsOnce | csrc/tcplife.c:106-112 | a second TCP_CLOSE of the same socket changes nothing and emits no second record |
| TcpLife.Probe.constructor | csrc/tcplife.c:16-51 | the tables and perf outputs start empty |
| TcpLife.Probe.TcpSetState | csrc/tcplife.c:53-173 | the in-place update of the two hash tables and the two perf outputs leaves exactly the state `Next` gives |
| Tracer.ToLower | tracer/tracer.go:93 | `strings.ToLower` on ASCII: the length is kept, every upper-case letter becomes its lower-case letter, everything else is kept, and the result holds no upper-case letter |
| Tracer.ToUpper | tracer/tracer.go:28 | `strings.ToUpper` on ASCII: the length is kept, every lower-case letter becomes its upper-case letter, everything else is kept, and the result holds no lower-case letter |
| Tracer.FieldKindOf | tracer/tracer.go:64-81 | a format type string has a field kind iff it is one of the four supported type strings |
| Tracer.TitleAfter | tracer/tracer.go:67 | title-casing keeps the length; each character is upper-cased exactly when the one before it is a word separator |
| Tracer.Title | tracer/tracer.go:67 | `strings.Title` on ASCII: the length is kept, and the first character and every character after a separator are upper-cased; nothing else changes |
| Tracer.BuildStructFromArray | tracer/tracer.go:60-87 | succeeds iff every item's type is exactly one of `u64`, `u32`, `int`, `char[]`. On success the fields keep the items' length and order, field i is named `Title(name i)`, and its kind matches type i. On failure the error names an unsupported type |
| Tracer.BuildFailsAtFirstUnsupported | tracer/tracer.go:63-83 | the error names the first unsupported type in the list |
| Tracer.AttachAndLoadEvent | tracer/tracer.go:89-141 | an empty `AttachTo` or `Type` gives the missing-keys error with no runtime call. Each lower-cased supported kind issues exactly its load, then its attach with the loaded descriptor; a failing load makes no attach, and the first failure is returned. Any other kind gives the unsupported-type error with no call. Only load and attach calls are made |
| Tracer.AttachEvents | tracer/tracer.go:160-166 | the event loop only appends to the call log and changes no injected outcome |
| Tracer.AttachEventsCallsOnlyHooks | tracer/tracer.go:160-166 | attaching events makes only load and attach calls |
| Tracer.AttachStopsAtFirstFailure | tracer/tracer.go:160-166 | once event k fails, no later event is attempted |
| Tracer.AttachFailureIndex | tracer/tracer.go:160-166 | a failed attach loop failed at one event k: events before k attached without error, and event k's error is the only one |
| Tracer.SelectLoop | tracer/tracer.go:38-50 | the loop consumes at most the wake-ups it is given, and it is still waiting only after consuming all of them |
| Tracer.SelectLoopStopsAtFirst | tracer/tracer.go:38-50 | the loop stops at the first cancel or at the first batch that does not decode, and consumes nothing after it. Every batch before the stop decoded, and its record was kept, in order |
| Tracer.RunSelectLoop | tracer/tracer.go:38-50 | the `for`/`select` loop computes exactly `SelectLoop` |
| Tracer.OutputPoll | tracer/tracer.go:16-57 | a format build failure, or an upper-cased type other than `BPF_PERF_OUTPUT`, reports exactly one error and makes no runtime call. Otherwise the poll makes the table, init and start calls; an init failure reports one error and starts nothing. A cancel reports no error, a decode failure reports exactly one, and a poll still waiting reports none |
| Tracer.PollOutputMaps | tracer/tracer.go:16-57 | the method computes exactly `OutputPoll` |
| Tracer.PollOutputs | tracer/tracer.go:168-171 | the output loop only appends to the call log and changes no injected outcome, and the total number of errors sent is at most the number of outputs |
| Tracer.PollOutputsReturnsIffNoneWaits | tracer/tracer.go:168-171 | the output loop returns iff no output's poll keeps waiting, each poll starting from the runtime the polls before it left |
| Tracer.PollOutputsCallsOnlyTables | tracer/tracer.go:168-171 | polling outputs makes only table and perf-map calls |
| Tracer.PollStopsAtFirstWaiting | tracer/tracer.go:168-171 | once the poll of output k keeps waiting, no later output is polled |
| Tracer.SelectLoopEndsOnCancel | tracer/tracer.go:38-42 | a poll whose wake-ups include a cancellation never keeps waiting |
| Tracer.PollOutputsReturnOnCancel | tracer/tracer.go:168-171 | when the polls before output k returned and every poll from k on sees a cancellation, the output loop returns |
| Tracer.CancelledTraceCloses | tracer/tracer.go:157-171 | since `ctx.Done()` stays closed: when poll k sees the cancellation, the cancellation stays visible to later polls, and the polls before k returned, `Trace` returns and `Close` is its last call |
| Tracer.TraceRun | tracer/tracer.go:143-172 | a run begins with one module creation from the source text and only appends to the call log |
| Tracer.TraceLogShape | tracer/tracer.go:155-171 | the calls of a run are module creation, attaching, then polling, followed by `Close` iff the run returned; the body never closes the module |
| Tracer.TraceClosesIffReturned | tracer/tracer.go:157 | the deferred `m.Close()`: the module is closed iff `Trace` returns, and then `Close` is the last call and occurs only once |
| Tracer.TraceStopsOnAttachFailure | tracer/tracer.go:160-166 | when event k fails to attach, `Trace` returns having attached events 0..k-1. Its log is exactly the log of attaching events 0..k followed by `Close`, so no later event is attempted. The attach error is the only error sent, and no table is opened, so no output is polled |
| Tracer.Trace | tracer/tracer.go:143-172 | the two loops of `Trace`, with their early returns and the deferred `Close`, compute exactly `TraceRun` |

## Left out

- BPF helpers (`bpf_ktime_get_ns`, `bpf_get_current_pid_tgid`, `bpf_get_current_uid_gid`, `bpf_get_current_comm`, `bpf_probe_read`), `ntohs` and the `sk->` field reads are kernel facilities. Their results are parameters, and `dport` is taken as already converted to host order.
- The BPF hash tables are unbounded maps, and `perf_submit` always appends its record. The C code ignores the result of `update` (`csrc/tcplife.c:89`, `:98`), so a full table or a dropped perf record is not modelled.
- `perf_submit` is an append to a sequence. The byte layout, struct padding and the `TASK_COMM_LEN` copy of `comm` are not modelled.
- TcpLife.Next: uses a single clock value per invocation. The C code reads the clock at most once on every path, so this loses nothing.
- The gobpf/bcc runtime (`NewModule`, `Load*`, `Attach*`, `NewTable`, `InitPerfMap`, `Start`, `Close`) is foreign code. It is abstracted as a call log with injected failures.
- `NewModule` cannot fail in the model. The Go code does not check for its failure either.
- `reflect.StructOf`, `reflect.New` and `json.Unmarshal` are library facilities. The built type is a list of named, typed fields, and decoding is an abstract predicate. `reflect.StructOf` panics on duplicate or invalid field names, and the model does not model that panic.
- The shared `context` is not part of the model: each poll's wake-ups are an independent sequence. That a cancellation stays in effect for every later poll is not built in. It is the predicate `Tracer.CancelStays`, which `Tracer.CancelledTraceCloses` takes as a precondition. Without it, a run can contain a cancelled poll followed by a poll that waits forever.
- Every send on `errChan` (`tracer/tracer.go:22`, `34`, `46`, `54`, `163`) is taken to complete at once: the error is appended to the errors sent and the code carries on. The channel's capacity and its reader are outside the model. If nobody takes the error off the channel, the Go code blocks at the send, and then `Trace` never returns and the deferred `m.Close()` never runs. So `Tracer.TraceClosesIffReturned`, `Tracer.TraceStopsOnAttachFailure` and `Tracer.CancelledTraceCloses` hold only when every send completes.
- Goroutines, channels, `sync.WaitGroup` and the race between the two `select` cases are concurrency. Each poll loop is a sequence of wake-ups, and the batches each poll decoded are returned instead of printed.
- File and console I/O are left out:
  - `ioutil.ReadFile` and its discarded error are outside the model, so the source text is a parameter;
  - `fmt.Println`, `fmt.Printf`, and the unused `fmt.Errorf` value at `tracer/tracer.go:150` are not modelled.
- `perfMap.Stop()` at `tracer/tracer.go:52` sits after an endless loop and cannot be reached.
- `ParseConfig` in `config/config.go` is a YAML-library wrapper, so only the configuration shapes are modelled.
- Tracer.Title: models `strings.Title` on ASCII only. Non-ASCII characters are never separators and are never upper-cased. Unicode spaces and title-case mappings are not covered.
- Tracer.ToLower: maps ASCII letters only. `strings.ToLower` also maps non-ASCII letters; for example, U+212A KELVIN SIGN becomes `k`, so `"\u212Aprobe"` attaches a kprobe in Go but is an unsupported type in the model.
- Tracer.ToUpper: maps ASCII letters only. `strings.ToUpper` also maps non-ASCII letters.
- Tracer.AttachAndLoadEvent: lower-cases ASCII only. `strings.ToLower` also maps non-ASCII letters.
- Tracer.OutputPoll: upper-cases ASCII only. `strings.ToUpper` also maps non-ASCII letters.
- Error messages are datatype constructors that carry their operands. The formatted strings are not modelled.
