/** The report of one tick (src/payload.h). A hash table that is only iterated over is the list
    of its entries, in whatever order the library enumerates them. */
module Payloads {
  import opened Text

  type Events = map<CString, U64>

  datatype Cpu = Cpu(id: CString, events: Events)

  datatype Pkg = Pkg(id: CString, cpus: seq<Cpu>)

  datatype Group = Group(name: CString, pkgs: seq<Pkg>)

  datatype Payload = Payload(timestamp: U64, target: CString, groups: seq<Group>)

  /** How many CPUs the first `n` packages hold. */
  function CpuCount(pkgs: seq<Pkg>, n: nat): nat
    requires n <= |pkgs|
  {
    if n == 0 then 0 else CpuCount(pkgs, n - 1) + |pkgs[n - 1].cpus|
  }
}
