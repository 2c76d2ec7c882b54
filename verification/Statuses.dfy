/** Connection status codes: one set of codes serves as the status of a record
    and as the identifier of the messages that peers and the admin thread post. */
module Statuses {

  datatype Status =
    | ConnectingServer
    | ConnectingClient
    | Established
    | ServerClosed
    | ClientClosed
    | ServerLost
    | ClientLost
    | Failed
    | Kicked
    | Cancelled
    | BanThis
    | BanAll

  /** The bit pattern of each code. */
  function Bits(s: Status): bv8 {
    match s
    case ConnectingServer => 0x02
    case ConnectingClient => 0x03
    case Established => 0x04
    case ServerClosed => 0x08
    case ClientClosed => 0x09
    case ServerLost => 0x10
    case ClientLost => 0x11
    case Failed => 0x20
    case Kicked => 0x40
    case Cancelled => 0x41
    case BanThis => 0x80
    case BanAll => 0x81
  }

  /** Its number. */
  function Code(s: Status): int { Bits(s) as int }

  const CLIENT_SERVER_MASK: bv8 := 0xFE
  const DISCONNECTED_MASK: bv8 := 0x30
  const NOT_CONNECTED_MASK: bv8 := 0x38

  predicate IsLost(s: Status) { s.ServerLost? || s.ClientLost? }

  predicate IsClosed(s: Status) { s.ServerClosed? || s.ClientClosed? }

  /** Ended by an error: a lost or a failed connection. */
  predicate IsDisconnected(s: Status) { IsLost(s) || s.Failed? }

  predicate IsNotConnected(s: Status) { IsDisconnected(s) || IsClosed(s) }

  /** The predicates above are the source's bit tests, and the codes are distinct. */
  lemma MasksAgree(s: Status, t: Status)
    ensures IsDisconnected(s) <==> Bits(s) & DISCONNECTED_MASK != 0
    ensures IsNotConnected(s) <==> Bits(s) & NOT_CONNECTED_MASK != 0
    ensures IsLost(s) <==> Bits(s) & CLIENT_SERVER_MASK == 0x10
    ensures IsClosed(s) <==> Bits(s) & CLIENT_SERVER_MASK == 0x08
    ensures s.Failed? <==> Bits(s) & CLIENT_SERVER_MASK == 0x20
    ensures s.Failed? <==> Bits(s) & 0x20 != 0
    ensures s.Established? <==> Bits(s) & CLIENT_SERVER_MASK == 0x04
    ensures Bits(s) == Bits(t) ==> s == t
  {
    match s {
      case ConnectingServer => case ConnectingClient => case Established =>
      case ServerClosed => case ClientClosed => case ServerLost =>
      case ClientLost => case Failed => case Kicked =>
      case Cancelled => case BanThis => case BanAll =>
    }
  }

}
