/** The values a frozen snapshot holds: processes, their effects, and the two indexes by PID. */
module Snapshot {
  import opened Basics

  datatype EffectKind = Open | Connect

  datatype Detail =
    | OpenDetail(flags: int)
    | ConnectDetail(ip: string, port: nat, domain: string, bytesSent: nat, bytesRecv: nat)

  datatype Effect = Effect(kind: EffectKind, target: string, count: nat, first: int, last: int, detail: Detail)

  /** A process. The zero end timestamp of a live process is None. */
  datatype Node = Node(
    pid: Pid, ppid: Pid, binaryPath: string, comm: string, effects: map<string, Effect>,
    start: int, end: Option<int>, children: seq<Pid>, memoryUsage: nat, enriched: bool)

  type Index = map<Pid, Node>

  datatype Frozen = Frozen(byPID: Index, ghosts: Index)
}
