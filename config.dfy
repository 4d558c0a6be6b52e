/**
 * The configuration records the tracing engine consumes (config/config.go).
 * Parsing them is not part of this model; they arrive already built.
 */
module Config {

  /** One field of an output record: its name and its type string (`u64`, `char[]`, ...). */
  datatype BPFOutputFormat = BPFOutputFormat(name: string, typ: string)

  /**
   * One hook to install: the event type (`kprobe`, `tracepoint`, ...), the
   * function to load into the eBPF VM and the kernel object to attach it to.
   */
  datatype BPFEvent = BPFEvent(typ: string, loadFunc: string, attachTo: string)

  /**
   * One table to poll: its id, its table type and the layout of its records.
   * The `format` field is the one the tracer reads as `output.Format`.
   */
  datatype BPFOutput = BPFOutput(id: string, typ: string, format: seq<BPFOutputFormat>)

  /** One tracing program: its source, the events to attach and the outputs to poll. */
  datatype BPFProgram = BPFProgram(source: string, events: seq<BPFEvent>, outputs: seq<BPFOutput>)
}
