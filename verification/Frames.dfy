/** The gateway's frames, as the client core parses them (PROTOCOL section 8). */
module Frames {
  import opened Common

  newtype u64 = x: int | 0 <= x <= 0xFFFF_FFFF_FFFF_FFFF
  newtype u32 = x: int | 0 <= x <= 0xFFFF_FFFF

  /** What a frame whose op is known says. `Other` is every sequenced op but `ready`. */
  datatype Event =
    | HeartbeatAck
    | InvalidSession(reason: string)
    | Resumed(replayed: u64)
    | Hello
    | Ready(sessionId: string)
    | Other(op: string)

  /** One incoming JSON value: its `s`, and what it parses to; an unknown op parses to nothing. */
  datatype Value = Value(s: Option<u64>, typed: Option<Event>)

  /** A frame as it is handed to the frontend. */
  datatype ServerFrame = ServerFrame(event: Event, s: Option<u64>)
}
