/** The rows of the dead_letter_queue table. */
module DeadRows {
  type EventId = string
  type DestId = string

  datatype DeadRow = DeadRow(event: EventId, dest: DestId, resolved: bool)

  /** What resolving event e does to one row. */
  function Resolve(row: DeadRow, e: EventId): (r: DeadRow)
    ensures r.event == row.event && r.dest == row.dest
    ensures r.resolved <==> row.resolved || row.event == e
  {
    if row.event == e then row.(resolved := true) else row
  }
}
