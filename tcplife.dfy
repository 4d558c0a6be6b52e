/**
 * The kernel-side tracing program csrc/tcplife.c: a kprobe on tcp_set_state that
 * keeps two per-socket hash tables and emits one lifetime record per closed
 * TCP session to one of two perf outputs.
 *
 * The BPF helpers (clock, current pid/uid/comm) and the socket's field reads
 * are inputs; a perf submission appends to a sequence.
 */
module TcpLife {
  import opened Wrappers

  const TWO_32: int := 0x1_0000_0000
  const TWO_64: int := 0x1_0000_0000_0000_0000

  type u16 = x: int | 0 <= x < 0x1_0000
  type u32 = x: int | 0 <= x < 0x1_0000_0000
  type u64 = x: int | 0 <= x < 0x1_0000_0000_0000_0000
  type u128 = x: int | 0 <= x < 0x1_0000_0000_0000_0000_0000_0000_0000_0000

  /** TCP states, as numbered by the Linux kernel (include/net/tcp_states.h). */
  const TCP_ESTABLISHED: int := 1
  const TCP_SYN_SENT: int := 2
  const TCP_FIN_WAIT1: int := 4
  const TCP_CLOSE: int := 7
  const TCP_LAST_ACK: int := 9

  /** Address family of an IPv4 socket. */
  const AF_INET: u16 := 2

  /** A `struct sock *`: the tables are keyed by the pointer value. */
  type Sock = u64

  /** The task name, `char comm[TASK_COMM_LEN]`. */
  type Comm = string

  /** `struct id_t`: the task identity cached for a socket. */
  datatype Id = Id(pid: u32, comm: Comm)

  /** `struct ipv4_data_t`, one record of the `ipv4_events` perf output. */
  datatype Ipv4Data = Ipv4Data(
    pid: u32, saddr: u32, daddr: u32, lport: u16, rport: u16,
    rxB: u64, txB: u64, spanUs: u64, comm: Comm, uid: u32)

  /** `struct ipv6_data_t`, one record of the `ipv6_events` perf output. */
  datatype Ipv6Data = Ipv6Data(
    pid: u32, saddr: u128, daddr: u128, ports: u64,
    rxB: u64, txB: u64, spanUs: u64, comm: Comm, uid: u32)

  /**
   * What the probe reads out of the socket: `skc_num`, `skc_dport` (already
   * converted to host order), `skc_family`, the IPv4 and IPv6 addresses and
   * the `tcp_sock` byte counters.
   */
  datatype SockFields = SockFields(
    num: u16, dport: u16, family: u16,
    rcvSaddr: u32, daddr: u32, v6RcvSaddr: u128, v6Daddr: u128,
    bytesReceived: u64, bytesAcked: u64)

  /**
   * What the BPF helpers return during one invocation: `bpf_ktime_get_ns`,
   * `bpf_get_current_pid_tgid`, `bpf_get_current_uid_gid` and
   * `bpf_get_current_comm`. On every path the probe asks the clock and the
   * comm helper at most once, so one value of each suffices.
   */
  datatype Helpers = Helpers(ktimeNs: u64, pidTgid: u64, uidGid: u64, comm: Comm)

  /** The probe's whole state: the two hash tables and the two perf outputs. */
  datatype Tables = Tables(
    birth: map<Sock, u64>, whoami: map<Sock, Id>,
    ipv4Events: seq<Ipv4Data>, ipv6Events: seq<Ipv6Data>)

  /** `bpf_get_current_pid_tgid() >> 32`: the thread-group id in the upper half. */
  function CurrentPid(pidTgid: u64): (pid: u32)
    ensures pid * TWO_32 <= pidTgid < (pid + 1) * TWO_32
  {
    pidTgid / TWO_32
  }

  /** The truncation of `bpf_get_current_uid_gid()` to its low 32 bits. */
  function CurrentUid(uidGid: u64): (uid: u32)
    ensures uidGid == (uidGid / TWO_32) * TWO_32 + uid
  {
    uidGid % TWO_32
  }

  /** `(now - birth) / 1000` computed in u64, so the subtraction wraps. */
  function SpanUs(now: u64, born: u64): (span: u64)
    ensures born <= now ==> span == (now - born) / 1000
    ensures now < born ==> span == (TWO_64 + now - born) / 1000
  {
    ((now - born) % TWO_64) / 1000
  }

  /** `dport + ((0ULL + lport) << 32)` in u64 arithmetic. */
  function PackPorts(lport: u16, dport: u16): (ports: u64)
    ensures ports / TWO_32 == lport
    ensures ports % TWO_32 == dport
  {
    var shifted := (lport * TWO_32) % TWO_64;
    assert shifted == lport * TWO_32;
    (dport + shifted) % TWO_64
  }

  /** `m` and `m'` agree on every key other than `k`. */
  ghost predicate OnlyKeyChanged<V>(m: map<Sock, V>, m': map<Sock, V>, k: Sock)
  {
    forall s :: s != k ==> (s in m <==> s in m') && (s in m ==> m[s] == m'[s])
  }

  /** Capturing the birth time: every state before FIN_WAIT1 (re)stamps it. */
  function StampBirth(birth: map<Sock, u64>, sk: Sock, state: int, now: u64): (b: map<Sock, u64>)
    ensures state < TCP_FIN_WAIT1 ==> sk in b && b[sk] == now
    ensures state >= TCP_FIN_WAIT1 ==> b == birth
    ensures OnlyKeyChanged(birth, b, sk)
  {
    if state < TCP_FIN_WAIT1 then birth[sk := now] else birth
  }

  /** Caching the task identity on SYN_SENT (client side) and LAST_ACK (server side). */
  function CacheIdentity(whoami: map<Sock, Id>, sk: Sock, state: int, h: Helpers): (w: map<Sock, Id>)
    ensures state == TCP_SYN_SENT || state == TCP_LAST_ACK ==>
      sk in w && w[sk] == Id(CurrentPid(h.pidTgid), h.comm)
    ensures state != TCP_SYN_SENT && state != TCP_LAST_ACK ==> w == whoami
    ensures OnlyKeyChanged(whoami, w, sk)
  {
    if state == TCP_SYN_SENT || state == TCP_LAST_ACK then
      whoami[sk := Id(CurrentPid(h.pidTgid), h.comm)]
    else
      whoami
  }

  /** The lifetime record of an IPv4 session, as the probe fills in `data4`. */
  function Ipv4Record(spanUs: u64, pid: u32, comm: Comm, h: Helpers, f: SockFields): (d: Ipv4Data)
    ensures d.pid == pid && d.comm == comm && d.spanUs == spanUs
    ensures d.uid == h.uidGid % TWO_32
    ensures d.saddr == f.rcvSaddr && d.daddr == f.daddr
    ensures d.lport == f.num && d.rport == f.dport
    ensures d.rxB == f.bytesReceived && d.txB == f.bytesAcked
  {
    Ipv4Data(pid, f.rcvSaddr, f.daddr, f.num, f.dport,
             f.bytesReceived, f.bytesAcked, spanUs, comm, CurrentUid(h.uidGid))
  }

  /** The lifetime record of an IPv6 session, as the probe fills in `data6`. */
  function Ipv6Record(spanUs: u64, pid: u32, comm: Comm, h: Helpers, f: SockFields): (d: Ipv6Data)
    ensures d.pid == pid && d.comm == comm && d.spanUs == spanUs
    ensures d.uid == h.uidGid % TWO_32
    ensures d.saddr == f.v6RcvSaddr && d.daddr == f.v6Daddr
    ensures d.ports / TWO_32 == f.num && d.ports % TWO_32 == f.dport
    ensures d.rxB == f.bytesReceived && d.txB == f.bytesAcked
  {
    Ipv6Data(pid, f.v6RcvSaddr, f.v6Daddr, PackPorts(f.num, f.dport),
             f.bytesReceived, f.bytesAcked, spanUs, comm, CurrentUid(h.uidGid))
  }

  /**
   * The TCP_CLOSE branch: without a birth stamp the create was missed and only
   * the cached identity is dropped; otherwise exactly one record goes out, to
   * the IPv4 output iff the family is AF_INET, and both entries are removed.
   */
  function Close(t: Tables, sk: Sock, h: Helpers, f: SockFields): (r: Tables)
    ensures sk !in r.birth && sk !in r.whoami
    ensures OnlyKeyChanged(t.birth, r.birth, sk) && OnlyKeyChanged(t.whoami, r.whoami, sk)
    ensures sk !in t.birth ==>
      r.birth == t.birth && r.ipv4Events == t.ipv4Events && r.ipv6Events == t.ipv6Events
    ensures sk in t.birth ==>
      var span := SpanUs(h.ktimeNs, t.birth[sk]);
      var pid := if sk in t.whoami then t.whoami[sk].pid else CurrentPid(h.pidTgid);
      var comm := if sk in t.whoami then t.whoami[sk].comm else h.comm;
      if f.family == AF_INET then
        r.ipv6Events == t.ipv6Events &&
        r.ipv4Events == t.ipv4Events + [Ipv4Record(span, pid, comm, h, f)]
      else
        r.ipv4Events == t.ipv4Events &&
        r.ipv6Events == t.ipv6Events + [Ipv6Record(span, pid, comm, h, f)]
  {
    if sk !in t.birth then
      t.(whoami := t.whoami - {sk})
    else
      var delta := SpanUs(h.ktimeNs, t.birth[sk]);
      var birth := t.birth - {sk};
      var cached := if sk in t.whoami then Some(t.whoami[sk]) else None;
      var pid := if cached.Some? then cached.value.pid else CurrentPid(h.pidTgid);
      var comm := if cached.Some? then cached.value.comm else h.comm;
      var emitted :=
        if f.family == AF_INET then
          t.(birth := birth, ipv4Events := t.ipv4Events + [Ipv4Record(delta, pid, comm, h, f)])
        else
          t.(birth := birth, ipv6Events := t.ipv6Events + [Ipv6Record(delta, pid, comm, h, f)]);
      if cached.Some? then emitted.(whoami := t.whoami - {sk}) else emitted
  }

  /** One invocation of `kprobe__tcp_set_state(ctx, sk, state)`. */
  function Next(t: Tables, sk: Sock, state: int, h: Helpers, f: SockFields): (r: Tables)
    ensures state != TCP_CLOSE ==>
      r.ipv4Events == t.ipv4Events && r.ipv6Events == t.ipv6Events &&
      r.birth == StampBirth(t.birth, sk, state, h.ktimeNs) &&
      r.whoami == CacheIdentity(t.whoami, sk, state, h)
    ensures state == TCP_CLOSE ==> r == Close(t, sk, h, f)
    ensures OnlyKeyChanged(t.birth, r.birth, sk) && OnlyKeyChanged(t.whoami, r.whoami, sk)
    ensures t.ipv4Events <= r.ipv4Events && t.ipv6Events <= r.ipv6Events
    ensures |r.ipv4Events| + |r.ipv6Events| <= |t.ipv4Events| + |t.ipv6Events| + 1
    ensures |r.ipv4Events| + |r.ipv6Events| == |t.ipv4Events| + |t.ipv6Events| + 1 <==>
      state == TCP_CLOSE && sk in t.birth
  {
    var birth := StampBirth(t.birth, sk, state, h.ktimeNs);
    var whoami := CacheIdentity(t.whoami, sk, state, h);
    if state != TCP_CLOSE then
      t.(birth := birth, whoami := whoami)
    else
      Close(t, sk, h, f)
  }

  /**
   * An active open seen end to end: SYN_SENT by the connecting task, then
   * ESTABLISHED and CLOSE in whatever task context the kernel runs them. The
   * record carries the connecting task's pid and comm and the time since the
   * last early state, and the tables forget the socket.
   */
  lemma ActiveOpenLifetime(t: Tables, sk: Sock, h1: Helpers, h2: Helpers, h3: Helpers, f: SockFields)
    requires f.family == AF_INET
    ensures
      var t1 := Next(t, sk, TCP_SYN_SENT, h1, f);
      var t2 := Next(t1, sk, TCP_ESTABLISHED, h2, f);
      var t3 := Next(t2, sk, TCP_CLOSE, h3, f);
      t3.ipv4Events == t.ipv4Events +
        [Ipv4Record(SpanUs(h3.ktimeNs, h2.ktimeNs), CurrentPid(h1.pidTgid), h1.comm, h3, f)] &&
      t3.ipv6Events == t.ipv6Events &&
      sk !in t3.birth && sk !in t3.whoami
  {
  }

  /** A second TCP_CLOSE for the same socket emits nothing more. */
  lemma CloseEmitsOnce(t: Tables, sk: Sock, h1: Helpers, h2: Helpers, f1: SockFields, f2: SockFields)
    ensures
      var t1 := Next(t, sk, TCP_CLOSE, h1, f1);
      var t2 := Next(t1, sk, TCP_CLOSE, h2, f2);
      t2 == t1
  {
  }

  /**
   * The probe instance: the `birth` and `whoami` BPF hash tables and the
   * `ipv4_events` / `ipv6_events` perf outputs.
   */
  class Probe {
    var birth: map<Sock, u64>
    var whoami: map<Sock, Id>
    var ipv4Events: seq<Ipv4Data>
    var ipv6Events: seq<Ipv6Data>

    function Snapshot(): Tables
      reads this
    {
      Tables(birth, whoami, ipv4Events, ipv6Events)
    }

    constructor ()
      ensures Snapshot() == Tables(map[], map[], [], [])
    {
      birth, whoami := map[], map[];
      ipv4Events, ipv6Events := [], [];
    }

    /** `kprobe__tcp_set_state`: update the tables in place and maybe submit one record. */
    method TcpSetState(sk: Sock, state: int, h: Helpers, f: SockFields)
      modifies this
      ensures Snapshot() == Next(old(Snapshot()), sk, state, h, f)
    {
      var pid := CurrentPid(h.pidTgid);
      var uid := CurrentUid(h.uidGid);
      var lport := f.num;
      var dport := f.dport;

      if state < TCP_FIN_WAIT1 {
        var ts := h.ktimeNs;
        birth := birth[sk := ts];
      }

      if state == TCP_SYN_SENT || state == TCP_LAST_ACK {
        var me := Id(pid, h.comm);
        whoami := whoami[sk := me];
      }

      if state != TCP_CLOSE {
        return;
      }

      if sk !in birth {
        whoami := whoami - {sk};
        return;
      }
      var deltaUs := SpanUs(h.ktimeNs, birth[sk]);
      birth := birth - {sk};

      var mep: Option<Id> := if sk in whoami then Some(whoami[sk]) else None;
      if mep.Some? {
        pid := mep.value.pid;
      }

      var rxB, txB := f.bytesReceived, f.bytesAcked;
      var comm := if mep.None? then h.comm else mep.value.comm;
      if f.family == AF_INET {
        var data4 := Ipv4Data(pid, f.rcvSaddr, f.daddr, lport, dport, rxB, txB, deltaUs, comm, uid);
        ipv4Events := ipv4Events + [data4];
      } else {
        var data6 := Ipv6Data(pid, f.v6RcvSaddr, f.v6Daddr, PackPorts(lport, dport),
                              rxB, txB, deltaUs, comm, uid);
        ipv6Events := ipv6Events + [data6];
      }

      if mep.Some? {
        whoami := whoami - {sk};
      }
    }
  }
}
