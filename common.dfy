/** Shared vocabulary of the maintenance engine: optional values, the order
    statuses and types, and the time units every component works in. */
module Common {

  datatype Option<+T> = None | Some(value: T) {
    /** The value, or `default` when absent (JavaScript's `x || default`
        for a field that is either set or missing). */
    function GetOr(default: T): T {
      match this
      case Some(v) => v
      case None => default
    }
  }

  /** Work-order statuses, named as the application stores them
      ("Pendiente", "En Proceso", "Pausado", "Completado", "Cancelado"). */
  datatype Status = Pendiente | EnProceso | Pausado | Completado | Cancelado

  /** Work-order types ("Preventivo", "Correctivo"). */
  datatype OrderType = Preventivo | Correctivo

  /** Timestamps are integer milliseconds since the epoch. */
  const MsPerMinute: int := 60 * 1000
  const MsPerHour: int := 60 * MsPerMinute
  const MsPerDay: int := 24 * MsPerHour

  /** The UTC day number of a timestamp (what `toISOString().split('T')[0]`
      names, and what `new Date('YYYY-MM-DD')` reads back at midnight). */
  function DayOf(t: int): int {
    t / MsPerDay
  }
}
