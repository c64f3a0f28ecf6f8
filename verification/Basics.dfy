/** Vocabulary shared by every module: optional values, times and monitor statuses. */
module Basics {

  datatype Option<+T> = None | Some(value: T)

  /** Ticks of one nanosecond counted from a UTC midnight; the zero time is an absent option. */
  type Time = int

  /** Monitor identifiers are only compared, for equality and for order. */
  type MonitorId = int

  const SECOND: int := 1_000_000_000
  const MINUTE: int := 60 * SECOND
  const HOUR: int := 60 * MINUTE
  const DAY: int := 24 * HOUR

  /** Unset is the empty status string. */
  datatype Status = Unset | Unknown | Failing | Up | Down | Maintenance

  /** Indexing a map of slices: a missing key reads as the empty slice. */
  function Lookup<T>(m: map<MonitorId, seq<T>>, monitor: MonitorId): seq<T> {
    if monitor in m then m[monitor] else []
  }

  function MinTime(a: Time, b: Time): Time { if a < b then a else b }

  function MaxTime(a: Time, b: Time): Time { if a > b then a else b }

  /** MAX and MIN over nullable times ignore nulls. */
  function Latest(a: Option<Time>, b: Option<Time>): Option<Time> {
    if a.None? then b else if b.None? then a else Some(MaxTime(a.value, b.value))
  }

  function Earliest(a: Option<Time>, b: Option<Time>): Option<Time> {
    if a.None? then b else if b.None? then a else Some(MinTime(a.value, b.value))
  }
}
