/**
 * The user-space tracing engine (tracer/tracer.go): build the record type of
 * an output from its format list, attach a program's events through the probe
 * runtime, then poll each output's perf map until cancellation or the first
 * record that does not decode.
 *
 * The probe runtime (bcc) is a value that records every call made on it and
 * answers each fallible call with an injected outcome. Decoding a record is an
 * abstract predicate, and the wake-ups of a poll loop are a sequence.
 */
module Tracer {
  import opened Config
  import opened Wrappers

  datatype Result<T> = Ok(value: T) | Err(error: Error)

  type byte = x: int | 0 <= x < 256

  /** The type of one field of a built record type. */
  datatype FieldKind = U64 | U32 | Int | Bytes

  /** One field of the record type `buildStructFromArray` builds. */
  datatype StructField = StructField(name: string, kind: FieldKind)

  /** An error value returned by the probe runtime. */
  datatype RuntimeError = RuntimeError(msg: string)

  /** The errors the tracer returns or sends on its error channel. */
  datatype Error =
    | FormatTypeUnsupported(typ: string)
    | MissingKeys
    | ProgramTypeUnsupported(typ: string)
    | RuntimeCallFailed(cause: RuntimeError)
    | BuildingOutputStruct(inner: Error)
    | BuildingPerfMap(cause: RuntimeError)
    | ParsingOutput
    | OutputTypeUnsupported(typ: string)

  /** The program loaders of the runtime: `LoadKprobe`, `LoadRawTracepoint`, `LoadTracepoint`. */
  datatype ProgKind = KprobeProg | RawTracepointProg | TracepointProg

  /** The attachers of the runtime: `AttachKprobe`, `AttachKretprobe`, ... */
  datatype HookKind = KprobeHook | KretprobeHook | RawTracepointHook | TracepointHook

  /** One call on the probe runtime, as it appears in the call log. */
  datatype Call =
    | NewModule(source: string)
    | Load(prog: ProgKind, fn: string)
    | Attach(hook: HookKind, target: string, fd: nat)
    | NewTable(id: string)
    | InitPerfMap(id: string)
    | StartPerfMap(id: string)
    | CloseModule

  /** The probe runtime: the calls made so far and the calls that are to fail. */
  datatype Runtime = Runtime(log: seq<Call>, failing: map<Call, RuntimeError>)

  /** The runtime after one call, and the call's error if it failed. */
  datatype Answer = Answer(rt: Runtime, err: Option<RuntimeError>)

  /** Make one call on the runtime: log it and answer with its injected outcome. */
  function Invoke(rt: Runtime, c: Call): Answer
  {
    Answer(rt.(log := rt.log + [c]), if c in rt.failing then Some(rt.failing[c]) else None)
  }

  // ---------------------------------------------------------------------------
  // ASCII versions of strings.ToLower, strings.ToUpper and strings.Title

  function LowerChar(c: char): char
  {
    if 'A' <= c <= 'Z' then (c as int + 32) as char else c
  }

  function UpperChar(c: char): char
  {
    if 'a' <= c <= 'z' then (c as int - 32) as char else c
  }

  function ToLower(s: string): (r: string)
    ensures |r| == |s|
    ensures forall i :: 0 <= i < |s| ==> !('A' <= r[i] <= 'Z')
    ensures forall i :: 0 <= i < |s| ==>
      if 'A' <= s[i] <= 'Z' then r[i] as int == s[i] as int + 32 else r[i] == s[i]
  {
    seq(|s|, i requires 0 <= i < |s| => LowerChar(s[i]))
  }

  function ToUpper(s: string): (r: string)
    ensures |r| == |s|
    ensures forall i :: 0 <= i < |s| ==> !('a' <= r[i] <= 'z')
    ensures forall i :: 0 <= i < |s| ==>
      if 'a' <= s[i] <= 'z' then r[i] as int == s[i] as int - 32 else r[i] == s[i]
  {
    seq(|s|, i requires 0 <= i < |s| => UpperChar(s[i]))
  }

  /** A character that starts a new word for `Title`: ASCII other than letters, digits and `_`. */
  predicate IsSeparator(c: char)
  {
    c as int <= 0x7F && !('0' <= c <= '9' || 'a' <= c <= 'z' || 'A' <= c <= 'Z' || c == '_')
  }

  /** Title-case `s`, given the character that came before it. */
  function TitleAfter(prev: char, s: string): (r: string)
    ensures |r| == |s|
    ensures forall i :: 0 <= i < |s| ==>
      r[i] == if IsSeparator(if i == 0 then prev else s[i - 1]) then UpperChar(s[i]) else s[i]
    decreases |s|
  {
    if s == [] then []
    else [if IsSeparator(prev) then UpperChar(s[0]) else s[0]] + TitleAfter(s[0], s[1..])
  }

  /** `strings.Title`: upper-case the first letter of every word. */
  function Title(s: string): (r: string)
    ensures |r| == |s|
    ensures forall i :: 0 <= i < |s| ==>
      r[i] == if i == 0 || IsSeparator(s[i - 1]) then UpperChar(s[i]) else s[i]
  {
    TitleAfter(' ', s)
  }

  // ---------------------------------------------------------------------------
  // buildStructFromArray

  /** The field types of an output format, matched case-sensitively. */
  const SupportedFormatTypes: set<string> := {"u64", "u32", "int", "char[]"}

  /** The kind of field a format type string gives, if it is supported. */
  function FieldKindOf(typ: string): (k: Option<FieldKind>)
    ensures k.Some? <==> typ in SupportedFormatTypes
  {
    if typ == "u64" then Some(U64)
    else if typ == "u32" then Some(U32)
    else if typ == "int" then Some(Int)
    else if typ == "char[]" then Some(Bytes)
    else None
  }

  /**
   * Turn an output's format list into the fields of a record type, in order,
   * failing on the first item whose type is not supported.
   */
  function BuildStructFromArray(items: seq<BPFOutputFormat>): (r: Result<seq<StructField>>)
    ensures r.Ok? <==> forall i :: 0 <= i < |items| ==> items[i].typ in SupportedFormatTypes
    ensures r.Ok? ==> |r.value| == |items|
    ensures r.Ok? ==> forall i :: 0 <= i < |items| ==>
      && r.value[i].name == Title(items[i].name)
      && (r.value[i].kind == U64 <==> items[i].typ == "u64")
      && (r.value[i].kind == U32 <==> items[i].typ == "u32")
      && (r.value[i].kind == Int <==> items[i].typ == "int")
      && (r.value[i].kind == Bytes <==> items[i].typ == "char[]")
    ensures r.Err? ==> r.error.FormatTypeUnsupported? && r.error.typ !in SupportedFormatTypes
    decreases |items|
  {
    if items == [] then Ok([])
    else
      match FieldKindOf(items[0].typ)
      case None => Err(FormatTypeUnsupported(items[0].typ))
      case Some(kind) =>
        var rest := BuildStructFromArray(items[1..]);
        if rest.Err? then rest
        else
          assert forall i :: 1 <= i < |items| ==> items[i] == items[1..][i - 1];
          Ok([StructField(Title(items[0].name), kind)] + rest.value)
  }

  /** The error names the first unsupported type in the list. */
  lemma {:induction false} BuildFailsAtFirstUnsupported(items: seq<BPFOutputFormat>, k: nat)
    requires k < |items| && items[k].typ !in SupportedFormatTypes
    requires forall j :: 0 <= j < k ==> items[j].typ in SupportedFormatTypes
    ensures BuildStructFromArray(items) == Err(FormatTypeUnsupported(items[k].typ))
    decreases k
  {
    if k > 0 {
      BuildFailsAtFirstUnsupported(items[1..], k - 1);
    }
  }

  // ---------------------------------------------------------------------------
  // attachAndLoadEvent

  /** The runtime after attaching one event, and the error that stopped it, if any. */
  datatype Attached = Attached(rt: Runtime, err: Option<Error>)

  /** Load the event's function, then, unless that failed, attach it with the descriptor the load returned. */
  function LoadAndAttach(rt: Runtime, prog: ProgKind, hook: HookKind, e: BPFEvent): Attached
  {
    var loaded := Invoke(rt, Load(prog, e.loadFunc));
    if loaded.err.Some? then
      Attached(loaded.rt, Some(RuntimeCallFailed(loaded.err.value)))
    else
      var fd := |rt.log|;
      var attached := Invoke(loaded.rt, Attach(hook, e.attachTo, fd));
      Attached(attached.rt, if attached.err.Some? then Some(RuntimeCallFailed(attached.err.value)) else None)
  }

  /**
   * `r` is what issuing the pair (`prog`, `hook`) for `e` on `rt` gives: a load,
   * and an attach only when the load succeeded; the first failure is returned.
   */
  ghost predicate IssuedPair(rt: Runtime, r: Attached, prog: ProgKind, hook: HookKind, e: BPFEvent)
  {
    var load := Load(prog, e.loadFunc);
    var attach := Attach(hook, e.attachTo, |rt.log|);
    && r.rt.failing == rt.failing
    && if load in rt.failing then
         r.rt.log == rt.log + [load] && r.err == Some(RuntimeCallFailed(rt.failing[load]))
       else
         && r.rt.log == rt.log + [load, attach]
         && r.err == if attach in rt.failing then Some(RuntimeCallFailed(rt.failing[attach])) else None
  }

  const SupportedEventTypes: set<string> := {"kprobe", "kretprobe", "rawtracepoint", "tracepoint"}

  /** Validate an event and dispatch its lower-cased type to one load+attach pair. */
  function AttachAndLoadEvent(e: BPFEvent, rt: Runtime): (r: Attached)
    ensures r.rt.failing == rt.failing
    ensures rt.log <= r.rt.log
    ensures forall c :: c in r.rt.log[|rt.log|..] ==> c.Load? || c.Attach?
    ensures e.attachTo == "" || e.typ == "" ==> r == Attached(rt, Some(MissingKeys))
    ensures e.attachTo != "" && e.typ != "" ==>
      var kind := ToLower(e.typ);
      && (kind == "kprobe" ==> IssuedPair(rt, r, KprobeProg, KprobeHook, e))
      && (kind == "kretprobe" ==> IssuedPair(rt, r, KprobeProg, KretprobeHook, e))
      && (kind == "rawtracepoint" ==> IssuedPair(rt, r, RawTracepointProg, RawTracepointHook, e))
      && (kind == "tracepoint" ==> IssuedPair(rt, r, TracepointProg, TracepointHook, e))
      && (kind !in SupportedEventTypes ==> r == Attached(rt, Some(ProgramTypeUnsupported(e.typ))))
  {
    if e.attachTo == "" || e.typ == "" then
      Attached(rt, Some(MissingKeys))
    else
      var kind := ToLower(e.typ);
      if kind == "kprobe" then LoadAndAttach(rt, KprobeProg, KprobeHook, e)
      else if kind == "kretprobe" then LoadAndAttach(rt, KprobeProg, KretprobeHook, e)
      else if kind == "rawtracepoint" then LoadAndAttach(rt, RawTracepointProg, RawTracepointHook, e)
      else if kind == "tracepoint" then LoadAndAttach(rt, TracepointProg, TracepointHook, e)
      else Attached(rt, Some(ProgramTypeUnsupported(e.typ)))
  }

  /** The first loop of `Trace`: attach the events in order, stopping at the first error. */
  function AttachEvents(events: seq<BPFEvent>, rt: Runtime): (r: Attached)
    ensures r.rt.failing == rt.failing
    ensures rt.log <= r.rt.log
    decreases |events|
  {
    if events == [] then Attached(rt, None)
    else
      var before := AttachEvents(events[..|events| - 1], rt);
      if before.err.Some? then before
      else AttachAndLoadEvent(events[|events| - 1], before.rt)
  }

  /** Attaching events makes only load and attach calls. */
  lemma {:induction false} AttachEventsCallsOnlyHooks(events: seq<BPFEvent>, rt: Runtime)
    ensures forall c :: c in AttachEvents(events, rt).rt.log[|rt.log|..] ==> c.Load? || c.Attach?
    decreases |events|
  {
    if events != [] {
      var before := AttachEvents(events[..|events| - 1], rt);
      AttachEventsCallsOnlyHooks(events[..|events| - 1], rt);
      if before.err.None? {
        var r := AttachAndLoadEvent(events[|events| - 1], before.rt);
        assert r.rt.log[|rt.log|..] == before.rt.log[|rt.log|..] + r.rt.log[|before.rt.log|..];
      }
    }
  }

  /** Once event `k` fails, no later event is attempted. */
  lemma {:induction false} AttachStopsAtFirstFailure(events: seq<BPFEvent>, rt: Runtime, k: nat)
    requires k < |events|
    requires AttachEvents(events[..k + 1], rt).err.Some?
    ensures AttachEvents(events, rt) == AttachEvents(events[..k + 1], rt)
    decreases |events|
  {
    if |events| > k + 1 {
      var init := events[..|events| - 1];
      assert init[..k + 1] == events[..k + 1];
      AttachStopsAtFirstFailure(init, rt, k);
    } else {
      assert events[..k + 1] == events;
    }
  }

  // ---------------------------------------------------------------------------
  // pollOutputMaps

  /** One wake-up of the poll loop: the context was cancelled, or a batch of bytes arrived. */
  datatype Wake = Cancel | Batch(data: seq<byte>)

  /** How a poll loop ended: cancelled, on a record that failed to decode, or still waiting. */
  datatype PollEnd = Cancelled | DecodeFailed | Waiting

  /** The end of a poll loop, the wake-ups it consumed and the records it decoded. */
  datatype Polled = Polled(end: PollEnd, consumed: nat, records: seq<seq<byte>>)

  /** The `for`/`select` loop of `pollOutputMaps` over a sequence of wake-ups. */
  function SelectLoop(fields: seq<StructField>, wakes: seq<Wake>,
                      decode: (seq<StructField>, seq<byte>) -> bool): (p: Polled)
    ensures p.consumed <= |wakes|
    ensures p.end == Waiting ==> p.consumed == |wakes|
    decreases |wakes|
  {
    if wakes == [] then Polled(Waiting, 0, [])
    else match wakes[0]
      case Cancel => Polled(Cancelled, 1, [])
      case Batch(data) =>
        if !decode(fields, data) then Polled(DecodeFailed, 1, [])
        else
          var p := SelectLoop(fields, wakes[1..], decode);
          Polled(p.end, p.consumed + 1, [data] + p.records)
  }

  /**
   * The loop stops at the first cancellation or at the first batch that does
   * not decode, and consumes nothing after it; every batch before the stop
   * decoded and its record was kept, in order.
   */
  lemma {:induction false} SelectLoopStopsAtFirst(fields: seq<StructField>, wakes: seq<Wake>,
                                                 decode: (seq<StructField>, seq<byte>) -> bool)
    ensures var p := SelectLoop(fields, wakes, decode);
      && (p.end != Waiting ==> 0 < p.consumed)
      && (p.end == Cancelled ==> wakes[p.consumed - 1] == Cancel)
      && (p.end == DecodeFailed ==>
            wakes[p.consumed - 1].Batch? && !decode(fields, wakes[p.consumed - 1].data))
      && var decoded := if p.end == Waiting then p.consumed else p.consumed - 1;
         && |p.records| == decoded
         && forall j :: 0 <= j < decoded ==>
              wakes[j].Batch? && decode(fields, wakes[j].data) && p.records[j] == wakes[j].data
    decreases |wakes|
  {
    if wakes != [] && wakes[0].Batch? && decode(fields, wakes[0].data) {
      SelectLoopStopsAtFirst(fields, wakes[1..], decode);
      var rest := SelectLoop(fields, wakes[1..], decode);
      var p := SelectLoop(fields, wakes, decode);
      assert forall j :: 1 <= j < p.consumed ==> wakes[j] == wakes[1..][j - 1];
    }
  }

  /** The runtime after polling one output, the errors sent, whether it is still polling, and the decoded records. */
  datatype OutputPolled = OutputPolled(rt: Runtime, errs: seq<Error>, waiting: bool, records: seq<seq<byte>>)

  const PERF_OUTPUT: string := "BPF_PERF_OUTPUT"

  /** What `pollOutputMaps` does for one output. */
  function OutputPoll(output: BPFOutput, rt: Runtime, wakes: seq<Wake>,
                      decode: (seq<StructField>, seq<byte>) -> bool): (r: OutputPolled)
    ensures r.rt.failing == rt.failing
    ensures |r.errs| <= 1 && (r.waiting ==> r.errs == [])
    ensures r.rt.log != rt.log ==>
      BuildStructFromArray(output.format).Ok? && ToUpper(output.typ) == PERF_OUTPUT
    ensures BuildStructFromArray(output.format).Err? ==>
      r == OutputPolled(rt, [BuildingOutputStruct(BuildStructFromArray(output.format).error)], false, [])
    ensures BuildStructFromArray(output.format).Ok? && ToUpper(output.typ) != PERF_OUTPUT ==>
      r == OutputPolled(rt, [OutputTypeUnsupported(output.typ)], false, [])
    ensures BuildStructFromArray(output.format).Ok? && ToUpper(output.typ) == PERF_OUTPUT ==>
      var init := InitPerfMap(output.id);
      if init in rt.failing then
        r == OutputPolled(rt.(log := rt.log + [NewTable(output.id), init]),
                          [BuildingPerfMap(rt.failing[init])], false, [])
      else
        var p := SelectLoop(BuildStructFromArray(output.format).value, wakes, decode);
        && r.rt.log == rt.log + [NewTable(output.id), init, StartPerfMap(output.id)]
        && r.waiting == (p.end == Waiting)
        && r.errs == (if p.end == DecodeFailed then [ParsingOutput] else [])
        && r.records == p.records
  {
    var built := BuildStructFromArray(output.format);
    if built.Err? then
      OutputPolled(rt, [BuildingOutputStruct(built.error)], false, [])
    else if ToUpper(output.typ) == PERF_OUTPUT then
      var table := Invoke(rt, NewTable(output.id));
      var perfMap := Invoke(table.rt, InitPerfMap(output.id));
      if perfMap.err.Some? then
        OutputPolled(perfMap.rt, [BuildingPerfMap(perfMap.err.value)], false, [])
      else
        var started := Invoke(perfMap.rt, StartPerfMap(output.id));
        var p := SelectLoop(built.value, wakes, decode);
        OutputPolled(started.rt, if p.end == DecodeFailed then [ParsingOutput] else [],
                     p.end == Waiting, p.records)
    else
      OutputPolled(rt, [OutputTypeUnsupported(output.typ)], false, [])
  }

  /**
   * The `for`/`select` loop itself: return on `ctx.Done()`, or on the first
   * batch that does not decode; keep each decoded record.
   */
  method RunSelectLoop(fields: seq<StructField>, wakes: seq<Wake>,
                       decode: (seq<StructField>, seq<byte>) -> bool) returns (p: Polled)
    ensures p == SelectLoop(fields, wakes, decode)
  {
    var records: seq<seq<byte>> := [];
    var i := 0;
    while i < |wakes|
      invariant 0 <= i <= |wakes|
      invariant var rest := SelectLoop(fields, wakes[i..], decode);
        SelectLoop(fields, wakes, decode) == Polled(rest.end, rest.consumed + i, records + rest.records)
    {
      assert wakes[i..][1..] == wakes[i + 1..];
      if wakes[i].Cancel? {
        return Polled(Cancelled, i + 1, records);
      }
      var inputBytes := wakes[i].data;
      if !decode(fields, inputBytes) {
        return Polled(DecodeFailed, i + 1, records);
      }
      records := records + [inputBytes];
      i := i + 1;
    }
    return Polled(Waiting, i, records);
  }

  /** `pollOutputMaps`: build the record type, open the perf map and run the select loop. */
  method PollOutputMaps(output: BPFOutput, rt0: Runtime, wakes: seq<Wake>,
                        decode: (seq<StructField>, seq<byte>) -> bool) returns (r: OutputPolled)
    ensures r == OutputPoll(output, rt0, wakes, decode)
  {
    var outputType := BuildStructFromArray(output.format);
    if outputType.Err? {
      return OutputPolled(rt0, [BuildingOutputStruct(outputType.error)], false, []);
    }
    var fields := outputType.value;

    var uppercaseType := ToUpper(output.typ);
    if uppercaseType == PERF_OUTPUT {
      var rt := Invoke(rt0, NewTable(output.id)).rt;
      var perfMap := Invoke(rt, InitPerfMap(output.id));
      rt := perfMap.rt;
      if perfMap.err.Some? {
        return OutputPolled(rt, [BuildingPerfMap(perfMap.err.value)], false, []);
      }
      rt := Invoke(rt, StartPerfMap(output.id)).rt;

      var p := RunSelectLoop(fields, wakes, decode);
      return OutputPolled(rt, if p.end == DecodeFailed then [ParsingOutput] else [], p.end == Waiting, p.records);
    } else {
      return OutputPolled(rt0, [OutputTypeUnsupported(output.typ)], false, []);
    }
  }

  // ---------------------------------------------------------------------------
  // Trace

  /** The wake-ups the poll of output `j` sees; none when the sequence has no entry for it. */
  function WakesOf(wakes: seq<seq<Wake>>, j: nat): seq<Wake>
  {
    if j < |wakes| then wakes[j] else []
  }

  /** The runtime after a program run, the errors sent, and whether `Trace` returned. */
  datatype Traced = Traced(rt: Runtime, errs: seq<Error>, returned: bool)

  /**
   * The second loop of `Trace`: poll the outputs one after another; a poll that
   * never returns keeps the later outputs from being polled.
   */
  function PollOutputs(outputs: seq<BPFOutput>, rt: Runtime, wakes: seq<seq<Wake>>,
                       decode: (seq<StructField>, seq<byte>) -> bool): (r: Traced)
    ensures r.rt.failing == rt.failing
    ensures rt.log <= r.rt.log
    ensures |r.errs| <= |outputs|
    decreases |outputs|
  {
    if outputs == [] then Traced(rt, [], true)
    else
      var before := PollOutputs(outputs[..|outputs| - 1], rt, wakes, decode);
      if !before.returned then before
      else
        var o := OutputPoll(outputs[|outputs| - 1], before.rt, WakesOf(wakes, |outputs| - 1), decode);
        Traced(o.rt, before.errs + o.errs, !o.waiting)
  }

  /** Polling outputs makes only table and perf-map calls. */
  lemma {:induction false} PollOutputsCallsOnlyTables(outputs: seq<BPFOutput>, rt: Runtime,
                                                     wakes: seq<seq<Wake>>,
                                                     decode: (seq<StructField>, seq<byte>) -> bool)
    ensures forall c :: c in PollOutputs(outputs, rt, wakes, decode).rt.log[|rt.log|..] ==>
      c.NewTable? || c.InitPerfMap? || c.StartPerfMap?
    decreases |outputs|
  {
    if outputs != [] {
      var before := PollOutputs(outputs[..|outputs| - 1], rt, wakes, decode);
      PollOutputsCallsOnlyTables(outputs[..|outputs| - 1], rt, wakes, decode);
      if before.returned {
        var o := OutputPoll(outputs[|outputs| - 1], before.rt, WakesOf(wakes, |outputs| - 1), decode);
        assert o.rt.log[|rt.log|..] == before.rt.log[|rt.log|..] + o.rt.log[|before.rt.log|..];
      }
    }
  }

  /** Once the poll of output `k` keeps waiting, no later output is polled. */
  lemma {:induction false} PollStopsAtFirstWaiting(outputs: seq<BPFOutput>, rt: Runtime,
                                                  wakes: seq<seq<Wake>>,
                                                  decode: (seq<StructField>, seq<byte>) -> bool, k: nat)
    requires k < |outputs|
    requires !PollOutputs(outputs[..k + 1], rt, wakes, decode).returned
    ensures PollOutputs(outputs, rt, wakes, decode) == PollOutputs(outputs[..k + 1], rt, wakes, decode)
    decreases |outputs|
  {
    if |outputs| > k + 1 {
      var init := outputs[..|outputs| - 1];
      assert init[..k + 1] == outputs[..k + 1];
      PollStopsAtFirstWaiting(init, rt, wakes, decode, k);
    } else {
      assert outputs[..k + 1] == outputs;
    }
  }

  /** Attaching one more event, as the first loop of `Trace` does. */
  lemma AttachEventsSnoc(events: seq<BPFEvent>, rt: Runtime, i: nat)
    requires i < |events|
    ensures AttachEvents(events[..i + 1], rt) ==
      var before := AttachEvents(events[..i], rt);
      if before.err.Some? then before else AttachAndLoadEvent(events[i], before.rt)
  {
    assert events[..i + 1][..i] == events[..i];
  }

  /** Polling one more output, as the second loop of `Trace` does. */
  lemma PollOutputsSnoc(outputs: seq<BPFOutput>, rt: Runtime, wakes: seq<seq<Wake>>,
                        decode: (seq<StructField>, seq<byte>) -> bool, j: nat)
    requires j < |outputs|
    ensures PollOutputs(outputs[..j + 1], rt, wakes, decode) ==
      var before := PollOutputs(outputs[..j], rt, wakes, decode);
      if !before.returned then before
      else
        var o := OutputPoll(outputs[j], before.rt, WakesOf(wakes, j), decode);
        Traced(o.rt, before.errs + o.errs, !o.waiting)
  {
    assert outputs[..j + 1][..j] == outputs[..j];
  }

  /** A poll whose wake-ups include a cancellation cannot keep waiting. */
  lemma {:induction false} SelectLoopEndsOnCancel(fields: seq<StructField>, wakes: seq<Wake>,
                                                 decode: (seq<StructField>, seq<byte>) -> bool)
    requires Cancel in wakes
    ensures SelectLoop(fields, wakes, decode).end != Waiting
    decreases |wakes|
  {
    if wakes[0] != Cancel {
      assert Cancel in wakes[1..];
      SelectLoopEndsOnCancel(fields, wakes[1..], decode);
    }
  }

  /**
   * `ctx.Done()` stays closed once the context is cancelled: a cancellation
   * seen by the poll of output `j` is seen by the poll of every later output.
   */
  ghost predicate CancelStays(wakes: seq<seq<Wake>>, n: nat)
  {
    forall j, j' :: 0 <= j < j' < n && Cancel in WakesOf(wakes, j) ==> Cancel in WakesOf(wakes, j')
  }

  /** Once every remaining poll sees a cancellation, the output loop returns. */
  lemma {:induction false} PollOutputsReturnOnCancel(outputs: seq<BPFOutput>, rt: Runtime,
                                                    wakes: seq<seq<Wake>>,
                                                    decode: (seq<StructField>, seq<byte>) -> bool, k: nat)
    requires k <= |outputs|
    requires PollOutputs(outputs[..k], rt, wakes, decode).returned
    requires forall i :: k <= i < |outputs| ==> Cancel in WakesOf(wakes, i)
    ensures PollOutputs(outputs, rt, wakes, decode).returned
    decreases |outputs|
  {
    if |outputs| == k {
      assert outputs[..k] == outputs;
    } else {
      var init := outputs[..|outputs| - 1];
      assert init[..k] == outputs[..k];
      PollOutputsReturnOnCancel(init, rt, wakes, decode, k);
      var before := PollOutputs(init, rt, wakes, decode);
      var last := outputs[|outputs| - 1];
      var built := BuildStructFromArray(last.format);
      if built.Ok? {
        SelectLoopEndsOnCancel(built.value, WakesOf(wakes, |outputs| - 1), decode);
      }
    }
  }

  /** The poll of output `j` ends, starting from the runtime the polls before it left. */
  ghost predicate PollEnds(outputs: seq<BPFOutput>, rt: Runtime, wakes: seq<seq<Wake>>,
                           decode: (seq<StructField>, seq<byte>) -> bool, j: nat)
    requires j < |outputs|
  {
    !OutputPoll(outputs[j], PollOutputs(outputs[..j], rt, wakes, decode).rt, WakesOf(wakes, j), decode).waiting
  }

  /** The output loop returns iff no output's poll keeps waiting. */
  lemma {:induction false} PollOutputsReturnsIffNoneWaits(outputs: seq<BPFOutput>, rt: Runtime,
                                                         wakes: seq<seq<Wake>>,
                                                         decode: (seq<StructField>, seq<byte>) -> bool)
    ensures PollOutputs(outputs, rt, wakes, decode).returned <==>
      forall j :: 0 <= j < |outputs| ==> PollEnds(outputs, rt, wakes, decode, j)
    decreases |outputs|
  {
    if outputs != [] {
      var n := |outputs| - 1;
      var init := outputs[..n];
      PollOutputsReturnsIffNoneWaits(init, rt, wakes, decode);
      forall j | 0 <= j < n
        ensures PollEnds(init, rt, wakes, decode, j) == PollEnds(outputs, rt, wakes, decode, j)
      {
        assert init[j] == outputs[j];
        assert init[..j] == outputs[..j];
      }
      var before := PollOutputs(init, rt, wakes, decode);
      assert PollEnds(outputs, rt, wakes, decode, n) ==
        !OutputPoll(outputs[n], before.rt, WakesOf(wakes, n), decode).waiting;
    }
  }

  /**
   * What `Trace` does with one program: create the module from the program's
   * source text, attach every event, then poll every output; the deferred
   * `Close` runs whenever `Trace` returns.
   */
  function TraceRun(program: BPFProgram, sourceText: string, rt0: Runtime, wakes: seq<seq<Wake>>,
                    decode: (seq<StructField>, seq<byte>) -> bool): (r: Traced)
    ensures r.rt.failing == rt0.failing
    ensures rt0.log + [NewModule(sourceText)] <= r.rt.log
  {
    var started := Invoke(rt0, NewModule(sourceText)).rt;
    var a := AttachEvents(program.events, started);
    if a.err.Some? then
      Traced(Invoke(a.rt, CloseModule).rt, [a.err.value], true)
    else
      var p := PollOutputs(program.outputs, a.rt, wakes, decode);
      if p.returned then Traced(Invoke(p.rt, CloseModule).rt, p.errs, true) else p
  }

  /** The calls `Trace` makes before its deferred `Close`. */
  ghost function TraceBody(program: BPFProgram, sourceText: string, rt0: Runtime,
                           wakes: seq<seq<Wake>>, decode: (seq<StructField>, seq<byte>) -> bool): seq<Call>
  {
    var started := Invoke(rt0, NewModule(sourceText)).rt;
    var a := AttachEvents(program.events, started);
    var attaching := a.rt.log[|started.log|..];
    if a.err.Some? then [NewModule(sourceText)] + attaching
    else
      var p := PollOutputs(program.outputs, a.rt, wakes, decode);
      [NewModule(sourceText)] + attaching + p.rt.log[|a.rt.log|..]
  }

  lemma TraceLogShape(program: BPFProgram, sourceText: string, rt0: Runtime,
                      wakes: seq<seq<Wake>>, decode: (seq<StructField>, seq<byte>) -> bool)
    ensures CloseModule !in TraceBody(program, sourceText, rt0, wakes, decode)
    ensures var r := TraceRun(program, sourceText, rt0, wakes, decode);
      r.rt.log[|rt0.log|..] ==
        TraceBody(program, sourceText, rt0, wakes, decode) + (if r.returned then [CloseModule] else [])
  {
    var started := Invoke(rt0, NewModule(sourceText)).rt;
    var a := AttachEvents(program.events, started);
    AttachingShape(program.events, rt0, sourceText);
    if a.err.None? {
      PollingShape(program.outputs, a.rt, wakes, decode);
    }
  }

  /** The calls up to the end of attaching: module creation, then only loads and attaches. */
  lemma AttachingShape(events: seq<BPFEvent>, rt0: Runtime, sourceText: string)
    ensures var started := Invoke(rt0, NewModule(sourceText)).rt;
      var a := AttachEvents(events, started);
      && CloseModule !in a.rt.log[|started.log|..]
      && a.rt.log[|rt0.log|..] == [NewModule(sourceText)] + a.rt.log[|started.log|..]
  {
    var started := Invoke(rt0, NewModule(sourceText)).rt;
    AttachEventsCallsOnlyHooks(events, started);
  }

  /** Polling makes no `Close` call, and appends its calls to the log it started from. */
  lemma PollingShape(outputs: seq<BPFOutput>, rt: Runtime, wakes: seq<seq<Wake>>,
                     decode: (seq<StructField>, seq<byte>) -> bool)
    ensures CloseModule !in PollOutputs(outputs, rt, wakes, decode).rt.log[|rt.log|..]
    ensures rt.log + PollOutputs(outputs, rt, wakes, decode).rt.log[|rt.log|..] ==
      PollOutputs(outputs, rt, wakes, decode).rt.log
  {
    PollOutputsCallsOnlyTables(outputs, rt, wakes, decode);
  }

  lemma ClosedOnlyAtEnd(log: seq<Call>, body: seq<Call>, closed: bool)
    requires CloseModule !in body
    requires log == body + (if closed then [CloseModule] else [])
    ensures closed <==> CloseModule in log
    ensures closed ==> log[|log| - 1] == CloseModule && CloseModule !in log[..|log| - 1]
  {
  }

  /**
   * The deferred `m.Close()`: the module is closed, as the very last call, iff
   * `Trace` returns, and it is closed at most once.
   */
  lemma TraceClosesIffReturned(program: BPFProgram, sourceText: string, rt0: Runtime,
                               wakes: seq<seq<Wake>>, decode: (seq<StructField>, seq<byte>) -> bool)
    ensures var calls := TraceRun(program, sourceText, rt0, wakes, decode).rt.log[|rt0.log|..];
      && (TraceRun(program, sourceText, rt0, wakes, decode).returned <==> CloseModule in calls)
      && (TraceRun(program, sourceText, rt0, wakes, decode).returned ==>
            calls[|calls| - 1] == CloseModule && CloseModule !in calls[..|calls| - 1])
  {
    var r := TraceRun(program, sourceText, rt0, wakes, decode);
    TraceLogShape(program, sourceText, rt0, wakes, decode);
    ClosedOnlyAtEnd(r.rt.log[|rt0.log|..], TraceBody(program, sourceText, rt0, wakes, decode), r.returned);
  }

  /**
   * When event `k` fails to attach, `Trace` has attached events `0..k-1`,
   * sends exactly that one error, polls no output, and returns.
   */
  lemma TraceStopsOnAttachFailure(program: BPFProgram, sourceText: string, rt0: Runtime,
                                  wakes: seq<seq<Wake>>, decode: (seq<StructField>, seq<byte>) -> bool)
    requires AttachEvents(program.events, Invoke(rt0, NewModule(sourceText)).rt).err.Some?
    ensures var r := TraceRun(program, sourceText, rt0, wakes, decode);
      && r.returned
      && (exists k :: 0 <= k < |program.events|
            && AttachFailsAt(program.events, Invoke(rt0, NewModule(sourceText)).rt, k, r.errs)
            && r.rt.log ==
                 AttachEvents(program.events[..k + 1], Invoke(rt0, NewModule(sourceText)).rt).rt.log + [CloseModule])
      && (forall c :: c in r.rt.log[|rt0.log|..] ==> !c.NewTable?)
  {
    var started := Invoke(rt0, NewModule(sourceText)).rt;
    var a := AttachEvents(program.events, started);
    AttachFailureIndex(program.events, started);
    NoTableOnAttachFailure(program.events, rt0, sourceText);
    var k :| 0 <= k < |program.events| && AttachFailsAt(program.events, started, k, [a.err.value]);
    AttachFailsAtIsLast(program.events, started, k, [a.err.value]);
  }

  /** After an attach failure the run's calls are the module creation, the attaching and `Close`: no table. */
  lemma NoTableOnAttachFailure(events: seq<BPFEvent>, rt0: Runtime, sourceText: string)
    ensures var started := Invoke(rt0, NewModule(sourceText)).rt;
      forall c :: c in (AttachEvents(events, started).rt.log + [CloseModule])[|rt0.log|..] ==> !c.NewTable?
  {
    var started := Invoke(rt0, NewModule(sourceText)).rt;
    var a := AttachEvents(events, started);
    AttachEventsCallsOnlyHooks(events, started);
    assert (a.rt.log + [CloseModule])[|rt0.log|..] == [NewModule(sourceText)] + a.rt.log[|started.log|..] + [CloseModule];
  }

  /**
   * A cancelled run ends: when the poll of output `k` sees the cancellation,
   * the polls before it returned, and the cancellation stays in effect,
   * `Trace` returns and its last call is the deferred `Close`.
   */
  lemma CancelledTraceCloses(program: BPFProgram, sourceText: string, rt0: Runtime,
                             wakes: seq<seq<Wake>>, decode: (seq<StructField>, seq<byte>) -> bool, k: nat)
    requires CancelStays(wakes, |program.outputs|)
    requires k < |program.outputs| && Cancel in WakesOf(wakes, k)
    requires PollOutputs(program.outputs[..k],
                         AttachEvents(program.events, Invoke(rt0, NewModule(sourceText)).rt).rt,
                         wakes, decode).returned
    ensures var calls := TraceRun(program, sourceText, rt0, wakes, decode).rt.log[|rt0.log|..];
      && TraceRun(program, sourceText, rt0, wakes, decode).returned
      && calls[|calls| - 1] == CloseModule
  {
    var a := AttachEvents(program.events, Invoke(rt0, NewModule(sourceText)).rt);
    if a.err.None? {
      assert forall i :: k <= i < |program.outputs| ==> Cancel in WakesOf(wakes, i);
      PollOutputsReturnOnCancel(program.outputs, a.rt, wakes, decode, k);
    }
    TraceClosesIffReturned(program, sourceText, rt0, wakes, decode);
  }

  /** An attach error comes from one event, every event before it having attached. */
  lemma {:induction false} AttachFailureIndex(events: seq<BPFEvent>, rt: Runtime)
    requires AttachEvents(events, rt).err.Some?
    ensures exists k :: 0 <= k < |events| && AttachFailsAt(events, rt, k, [AttachEvents(events, rt).err.value])
    decreases |events|
  {
    var init := events[..|events| - 1];
    if AttachEvents(init, rt).err.Some? {
      AttachFailureIndex(init, rt);
      var k :| 0 <= k < |init| && AttachFailsAt(init, rt, k, [AttachEvents(init, rt).err.value]);
      assert init[..k] == events[..k];
      assert AttachFailsAt(events, rt, k, [AttachEvents(events, rt).err.value]);
    } else {
      assert AttachFailsAt(events, rt, |events| - 1, [AttachEvents(events, rt).err.value]);
    }
  }

  /** The event that fails is the last one attempted: the loop's result is that of events `0..k`. */
  lemma AttachFailsAtIsLast(events: seq<BPFEvent>, rt: Runtime, k: nat, errs: seq<Error>)
    requires k < |events| && AttachFailsAt(events, rt, k, errs)
    ensures AttachEvents(events, rt) == AttachEvents(events[..k + 1], rt)
  {
    AttachEventsSnoc(events, rt, k);
    AttachStopsAtFirstFailure(events, rt, k);
  }

  /**
   * Events `0..k-1` attached without error, event `k` failed, and its error is
   * the only one sent.
   */
  ghost predicate AttachFailsAt(events: seq<BPFEvent>, rt: Runtime, k: nat, errs: seq<Error>)
    requires k < |events|
  {
    var before := AttachEvents(events[..k], rt);
    var a := AttachAndLoadEvent(events[k], before.rt);
    before.err.None? && a.err.Some? && errs == [a.err.value]
  }

  /** `Trace`; `wakes[j]` are the wake-ups seen by the poll of output `j`. */
  method Trace(program: BPFProgram, sourceText: string, rt0: Runtime, wakes: seq<seq<Wake>>,
               decode: (seq<StructField>, seq<byte>) -> bool) returns (r: Traced)
    ensures r == TraceRun(program, sourceText, rt0, wakes, decode)
  {
    var rt := Invoke(rt0, NewModule(sourceText)).rt;
    ghost var started := rt;

    var i := 0;
    while i < |program.events|
      invariant 0 <= i <= |program.events|
      invariant AttachEvents(program.events[..i], started) == Attached(rt, None)
    {
      var event := program.events[i];
      var a := AttachAndLoadEvent(event, rt);
      AttachEventsSnoc(program.events, started, i);
      if a.err.Some? {
        AttachStopsAtFirstFailure(program.events, started, i);
        rt := Invoke(a.rt, CloseModule).rt;
        return Traced(rt, [a.err.value], true);
      }
      rt := a.rt;
      i := i + 1;
    }
    assert program.events[..i] == program.events;
    ghost var attached := rt;

    var errs: seq<Error> := [];
    var j := 0;
    while j < |program.outputs|
      invariant 0 <= j <= |program.outputs|
      invariant PollOutputs(program.outputs[..j], attached, wakes, decode) == Traced(rt, errs, true)
    {
      var o := PollOutputMaps(program.outputs[j], rt, WakesOf(wakes, j), decode);
      PollOutputsSnoc(program.outputs, attached, wakes, decode, j);
      rt, errs := o.rt, errs + o.errs;
      if o.waiting {
        PollStopsAtFirstWaiting(program.outputs, attached, wakes, decode, j);
        return Traced(rt, errs, false);
      }
      j := j + 1;
    }
    assert program.outputs[..j] == program.outputs;
    rt := Invoke(rt, CloseModule).rt;
    return Traced(rt, errs, true);
  }
}
