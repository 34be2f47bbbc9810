/** enum process_field (include/nvtop/interface_common.h:45-68): the columns of the process table. */
module ProcessFields {
  datatype Field =
    | Pid | User | Ppid | Priority | Nice | State | Threads | Virt | Res | Shr | CpuPct | Time
    | GpuId | Type | GpuRate | EncRate | DecRate | Memory | CpuUsage | CpuMemUsage | Command

  /** In the order of the enumeration. */
  const ALL_FIELDS: seq<Field> :=
    [Pid, User, Ppid, Priority, Nice, State, Threads, Virt, Res, Shr, CpuPct, Time,
     GpuId, Type, GpuRate, EncRate, DecRate, Memory, CpuUsage, CpuMemUsage, Command]
}
