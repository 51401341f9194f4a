/** The UDP socket the multicast server owns, as an abstract record: its
    state, the endpoint it is bound to, the interface it sends multicast
    traffic through, the datagrams waiting to be read and the datagrams
    written so far. The operating system's side is reduced to two inputs:
    the set of endpoints it refuses to bind and the set of adapters it
    refuses as a multicast interface. */
module Socket {
  import opened Adapters

  /** A port number as the socket layer carries it (16 bits). */
  newtype uint16 = x: int | 0 <= x < 0x1_0000

  /** The `unsigned int` the server stores its ports in (32 bits). */
  newtype uint32 = x: int | 0 <= x < 0x1_0000_0000

  /** Narrowing of a stored port to the socket layer's 16 bits: the value
      modulo 2^16. */
  function Narrow16(p: uint32): (r: uint16)
    ensures p < 0x1_0000 ==> r as int == p as int
    ensures (p as int - r as int) % 0x1_0000 == 0
  {
    (p as int % 0x1_0000) as uint16
  }

  /** A host address; the null address is the one that failed to parse or
      was never set. Others are opaque. */
  datatype HostAddress = NullAddress | Address(raw: nat)

  /** The IPv4 loopback address 127.0.0.1. */
  const LocalHost := Address(0x7F00_0001)

  /** A received datagram; a null one carries no sender or receiver. */
  datatype Datagram = NullDatagram | Payload(data: string)

  /** A datagram handed to the socket for sending. */
  datatype OutDatagram = OutDatagram(data: string, destination: HostAddress, port: uint16, interfaceIndex: int)

  datatype SocketState = Unconnected | Bound

  datatype Socket = Socket(
    state: SocketState,
    boundAddress: HostAddress,
    boundPort: uint16,
    iface: Adapter,
    pending: seq<Datagram>,
    written: seq<OutDatagram>,
    refused: set<(HostAddress, uint16)>,
    unattachable: set<Adapter>)

  /** A freshly created socket: not bound, nothing received or written. */
  function NewSocket(refused: set<(HostAddress, uint16)>, unattachable: set<Adapter>): Socket
  {
    Socket(Unconnected, NullAddress, 0, NoAdapter, [], [], refused, unattachable)
  }

  /** Closing releases the endpoint and discards unread datagrams. */
  function Close(s: Socket): Socket
  {
    s.(state := Unconnected, boundAddress := NullAddress, boundPort := 0, iface := NoAdapter, pending := [])
  }

  /** Binding succeeds on an unbound socket whose endpoint the host accepts,
      with no multicast interface chosen yet; otherwise the socket is left
      as it was. */
  function Bind(s: Socket, address: HostAddress, port: uint16): Socket
  {
    if s.state == Unconnected && (address, port) !in s.refused then
      s.(state := Bound, boundAddress := address, boundPort := port, iface := NoAdapter, pending := [])
    else
      s
  }

  /** Choosing the outgoing multicast interface takes effect only on a bound
      socket and only for an adapter the host accepts; a refusal is silent
      and leaves the socket as it was. */
  function SetMulticastInterface(s: Socket, a: Adapter): Socket
  {
    if s.state == Bound && a !in s.unattachable then s.(iface := a) else s
  }

  /** The multicast interface the socket reports: none unless it is bound. */
  function MulticastInterface(s: Socket): Adapter
  {
    if s.state == Bound then s.iface else NoAdapter
  }

  predicate HasPendingDatagrams(s: Socket)
  {
    s.pending != []
  }

  /** The socket after its oldest pending datagram has been read. */
  function Dequeued(s: Socket): Socket
    requires HasPendingDatagrams(s)
  {
    s.(pending := s.pending[1..])
  }

  /** The network delivers datagram `d`: a bound socket queues it behind the
      datagrams already waiting; an unbound socket receives nothing. */
  function Arrive(s: Socket, d: Datagram): (r: Socket)
    ensures r.state == s.state
    ensures r.pending == if s.state == Bound then s.pending + [d] else s.pending
  {
    if s.state == Bound then s.(pending := s.pending + [d]) else s
  }

  function WriteDatagram(s: Socket, d: OutDatagram): Socket
  {
    s.(written := s.written + [d])
  }
}
