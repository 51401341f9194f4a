/** The multicast endpoint manager: the five configuration fields and their
    validated setters, the socket's bind/rebind lifecycle, the drain of
    incoming datagrams and the sending of one message. Every signal the
    server emits is appended to an in-order event log. */
module Server {
  import opened Adapters
  import opened Socket

  datatype Option<T> = None | Some(value: T)

  /** The three signals of the server. */
  datatype Event =
    | ReceivedMessage(message: string)
    | AdapterUpdated(name: string)
    | SettingError(error: string)

  /** The five configuration fields, taken together. */
  datatype EndpointConfig = EndpointConfig(
    adapter: Adapter,
    inputAddress: HostAddress,
    inputPort: uint32,
    outputAddress: HostAddress,
    outputPort: uint32)

  /** The constructor's default arguments: no adapter, loopback in on port
      7000, loopback out on port 8000. */
  const DefaultConfig := EndpointConfig(NoAdapter, LocalHost, 7000, LocalHost, 8000)

  /** An address is acceptable unless it is the null address. */
  function IsValidIPAddress(address: HostAddress): (r: bool)
    ensures r <==> address != NullAddress
  {
    !address.NullAddress?
  }

  /** The three ways a reconfiguration can be refused. */
  datatype SettingFailure = InvalidAdapter | InvalidIP | InvalidPort

  /** The text of the settingError signal for each failure. */
  function ErrorText(f: SettingFailure): string
  {
    match f
    case InvalidAdapter => "Invalid adapter"
    case InvalidIP => "Invalid IP"
    case InvalidPort => "Invalid port"
  }

  /** A requested configuration passes every check of a reconfiguration. */
  predicate Acceptable(c: EndpointConfig)
  {
    IsValidNetworkAdapter(c.adapter)
    && IsValidIPAddress(c.inputAddress) && IsValidIPAddress(c.outputAddress)
    && c.inputPort != 0 && c.outputPort != 0
  }

  /** The first check of a reconfiguration that fails, in the order adapter,
      addresses, ports; None when all pass. */
  function FirstFailure(c: EndpointConfig): (r: Option<SettingFailure>)
    ensures r == None <==> Acceptable(c)
    ensures r == Some(InvalidAdapter) <==> !IsValidNetworkAdapter(c.adapter)
    ensures r == Some(InvalidIP) <==>
              IsValidNetworkAdapter(c.adapter)
              && (c.inputAddress == NullAddress || c.outputAddress == NullAddress)
    ensures r == Some(InvalidPort) <==>
              IsValidNetworkAdapter(c.adapter)
              && c.inputAddress != NullAddress && c.outputAddress != NullAddress
              && (c.inputPort == 0 || c.outputPort == 0)
  {
    if !IsValidNetworkAdapter(c.adapter) then Some(InvalidAdapter)
    else if !IsValidIPAddress(c.inputAddress) || !IsValidIPAddress(c.outputAddress) then Some(InvalidIP)
    else if c.inputPort == 0 || c.outputPort == 0 then Some(InvalidPort)
    else None
  }

  /** A name the host does not list as a usable adapter is refused as an
      invalid adapter, whatever the other four values are. */
  lemma UnknownNameIsInvalidAdapter(adapters: seq<Adapter>, name: string, c: EndpointConfig)
    requires !IsValidNetworkAdapterName(adapters, name)
    ensures FirstFailure(c.(adapter := GetNetworkAdapter(adapters, name))) == Some(InvalidAdapter)
  {
  }

  /** The interface a freshly bound socket ends up multicasting through when
      asked for adapter `a`: the adapter itself unless the host refuses it. */
  function AttachedInterface(s: Socket, a: Adapter): Adapter
  {
    if a in s.unattachable then NoAdapter else a
  }

  /** The socket agrees with the configuration: if it is bound at all, it is
      bound to the incoming address and the incoming port narrowed to 16
      bits, and multicasts through the configured adapter if the host
      accepted it and through no chosen interface otherwise. */
  ghost predicate Realizes(s: Socket, c: EndpointConfig)
  {
    s.state == Bound ==>
      s.boundAddress == c.inputAddress && s.boundPort == Narrow16(c.inputPort)
      && s.iface == AttachedInterface(s, c.adapter)
  }

  /** The socket after initialize() on configuration `c`: closed if it was
      bound, bound to the incoming endpoint, then given the adapter. */
  function Reinitialized(s: Socket, c: EndpointConfig): Socket
  {
    var closed := if s.state == Bound then Close(s) else s;
    SetMulticastInterface(Bind(closed, c.inputAddress, Narrow16(c.inputPort)), c.adapter)
  }

  /** What initialize() achieves: the socket ends bound exactly when the host
      accepts the incoming endpoint; it then agrees with the configuration
      and reports the configured adapter if the host accepted that adapter,
      and no interface otherwise; nothing written is lost. */
  lemma ReinitializedOutcome(s: Socket, c: EndpointConfig)
    ensures var r := Reinitialized(s, c);
      && (r.state == Bound <==> (c.inputAddress, Narrow16(c.inputPort)) !in s.refused)
      && Realizes(r, c)
      && MulticastInterface(r) == (if r.state == Bound then AttachedInterface(s, c.adapter) else NoAdapter)
      && r.written == s.written && r.refused == s.refused && r.unattachable == s.unattachable
  {
  }

  /** Running initialize() twice with the same configuration leaves the
      socket as running it once. */
  lemma ReinitializeIdempotent(s: Socket, c: EndpointConfig)
    ensures Reinitialized(Reinitialized(s, c), c) == Reinitialized(s, c)
  {
  }

  /** The socket after deInitialize(): closed if it was bound. */
  function DeInitialized(s: Socket): (r: Socket)
    ensures r.state == Unconnected
    ensures r.written == s.written && r.refused == s.refused
  {
    match s.state
    case Bound => Close(s)
    case Unconnected => s
  }

  /** deInitialize() is idempotent. */
  lemma DeInitializeIdempotent(s: Socket)
    ensures DeInitialized(DeInitialized(s)) == DeInitialized(s)
  {
  }

  /** The receivedMessage signals a drain of `queue` emits: one per non-null
      datagram, in queue order. */
  function Received(queue: seq<Datagram>): (r: seq<Event>)
    ensures |r| <= |queue|
  {
    if queue == [] then []
    else (if queue[0].Payload? then [ReceivedMessage(queue[0].data)] else []) + Received(queue[1..])
  }

  /** Draining two queues one after the other emits the two event runs in order. */
  lemma {:induction false} ReceivedAppend(q1: seq<Datagram>, q2: seq<Datagram>)
    ensures Received(q1 + q2) == Received(q1) + Received(q2)
  {
    if q1 == [] {
      assert q1 + q2 == q2;
    } else {
      var head := if q1[0].Payload? then [ReceivedMessage(q1[0].data)] else [];
      assert (q1 + q2)[0] == q1[0];
      assert (q1 + q2)[1..] == q1[1..] + q2;
      ReceivedAppend(q1[1..], q2);
      calc {
        Received(q1 + q2);
        head + Received(q1[1..] + q2);
        head + (Received(q1[1..]) + Received(q2));
        (head + Received(q1[1..])) + Received(q2);
      }
    }
  }

  /** A message is emitted exactly when a datagram carrying it was pending,
      and nothing but received messages is emitted. */
  lemma {:induction false} ReceivedMessages(queue: seq<Datagram>, m: string)
    ensures ReceivedMessage(m) in Received(queue) <==> Payload(m) in queue
    ensures forall e :: e in Received(queue) ==> e.ReceivedMessage?
  {
    if queue != [] {
      ReceivedMessages(queue[1..], m);
      assert queue == [queue[0]] + queue[1..];
    }
  }

  /** A port above 16 bits passes the non-zero check, yet the socket is bound
      to its truncation: 65536 is accepted and bound as port 0. */
  lemma WidePortBindsPortZero(s: Socket, c: EndpointConfig)
    requires c.inputPort == 0x1_0000
    ensures c.inputPort != 0
    ensures Reinitialized(s, c).state == Bound ==> Reinitialized(s, c).boundPort == 0
  {
  }

  /** Datagrams that reach a bound socket are drained after those already
      waiting, each non-null one as one message. */
  lemma {:induction false} ArrivalsDrainInOrder(s: Socket, d: Datagram)
    requires s.state == Bound
    ensures Received(Arrive(s, d).pending) ==
              Received(s.pending) + (if d.Payload? then [ReceivedMessage(d.data)] else [])
  {
    ReceivedAppend(s.pending, [d]);
  }

  class MulticastServer {
    var networkAdapter: Adapter
    var inputIPAddress: HostAddress
    var inputPort: uint32
    var outputIPAddress: HostAddress
    var outputPort: uint32
    var socket: Socket
    /** Every signal emitted so far, oldest first. */
    var events: seq<Event>

    function Config(): EndpointConfig
      reads this
    {
      EndpointConfig(networkAdapter, inputIPAddress, inputPort, outputIPAddress, outputPort)
    }

    ghost predicate Valid()
      reads this
    {
      Realizes(socket, Config())
    }

    /** Stores the five values unchecked, then initializes the socket. */
    constructor(adapter: Adapter, incomingIP: HostAddress, incomingPort: uint32,
                outgoingIP: HostAddress, outgoingPort: uint32,
                refused: set<(HostAddress, uint16)>, unattachable: set<Adapter>)
      ensures Valid()
      ensures Config() == EndpointConfig(adapter, incomingIP, incomingPort, outgoingIP, outgoingPort)
      ensures socket == Reinitialized(NewSocket(refused, unattachable), Config())
      ensures events == [AdapterUpdated(MulticastInterface(socket).name)]
    {
      networkAdapter := adapter;
      inputIPAddress := incomingIP;
      inputPort := incomingPort;
      outputIPAddress := outgoingIP;
      outputPort := outgoingPort;
      socket := NewSocket(refused, unattachable);
      events := [];
      new;
      Initialize();
    }

    /** The constructor with every argument left at its default. */
    constructor Default(refused: set<(HostAddress, uint16)>, unattachable: set<Adapter>)
      ensures Valid()
      ensures Config() == DefaultConfig
      ensures socket == Reinitialized(NewSocket(refused, unattachable), Config())
      ensures events == [AdapterUpdated(MulticastInterface(socket).name)]
    {
      networkAdapter := DefaultConfig.adapter;
      inputIPAddress := DefaultConfig.inputAddress;
      inputPort := DefaultConfig.inputPort;
      outputIPAddress := DefaultConfig.outputAddress;
      outputPort := DefaultConfig.outputPort;
      socket := NewSocket(refused, unattachable);
      events := [];
      new;
      Initialize();
    }

    /** Closes the socket if bound, binds it to the incoming endpoint, sets
        the multicast interface and announces the interface the socket
        reports. The outcome of the bind is not inspected. */
    method Initialize()
      modifies this
      ensures Valid()
      ensures Config() == old(Config())
      ensures socket == Reinitialized(old(socket), Config())
      ensures socket.state == Bound <==> (inputIPAddress, Narrow16(inputPort)) !in old(socket).refused
      ensures events == old(events) +
                [AdapterUpdated(if socket.state == Bound then AttachedInterface(socket, networkAdapter).name else "")]
    {
      if socket.state == Bound {
        socket := Close(socket);
      }
      socket := Bind(socket, inputIPAddress, Narrow16(inputPort));
      socket := SetMulticastInterface(socket, networkAdapter);
      events := events + [AdapterUpdated(MulticastInterface(socket).name)];
      ReinitializedOutcome(old(socket), Config());
    }

    /** Closes the socket if it is bound. */
    method DeInitialize()
      requires Valid()
      modifies this
      ensures Valid()
      ensures Config() == old(Config()) && events == old(events)
      ensures socket == DeInitialized(old(socket))
    {
      if socket.state == Bound {
        socket := Close(socket);
      }
    }

    method SetIncomingIPAddress(incomingIP: HostAddress) returns (ok: bool)
      requires Valid()
      modifies this
      ensures Valid()
      ensures ok <==> IsValidIPAddress(incomingIP)
      ensures !ok ==> Config() == old(Config()) && socket == old(socket) && events == old(events)
      ensures ok ==> Config() == old(Config()).(inputAddress := incomingIP)
      ensures ok ==> socket == Reinitialized(old(socket), Config())
      ensures ok ==> events == old(events) + [AdapterUpdated(MulticastInterface(socket).name)]
    {
      if !IsValidIPAddress(incomingIP) {
        return false;
      }
      inputIPAddress := incomingIP;
      Initialize();
      return true;
    }

    method SetOutgoingIPAddress(outgoingIP: HostAddress) returns (ok: bool)
      requires Valid()
      modifies this
      ensures Valid()
      ensures ok <==> IsValidIPAddress(outgoingIP)
      ensures Config() == if ok then old(Config()).(outputAddress := outgoingIP) else old(Config())
      ensures socket == old(socket) && events == old(events)
    {
      if !IsValidIPAddress(outgoingIP) {
        return false;
      }
      outputIPAddress := outgoingIP;
      return true;
    }

    method SetIncomingPort(incomingPort: uint32) returns (ok: bool)
      requires Valid()
      modifies this
      ensures Valid()
      ensures ok <==> incomingPort != 0
      ensures !ok ==> Config() == old(Config()) && socket == old(socket) && events == old(events)
      ensures ok ==> Config() == old(Config()).(inputPort := incomingPort)
      ensures ok ==> socket == Reinitialized(old(socket), Config())
      ensures ok ==> events == old(events) + [AdapterUpdated(MulticastInterface(socket).name)]
    {
      if incomingPort == 0 {
        return false;
      }
      inputPort := incomingPort;
      Initialize();
      return true;
    }

    method SetOutgoingPort(outgoingPort: uint32) returns (ok: bool)
      requires Valid()
      modifies this
      ensures Valid()
      ensures ok <==> outgoingPort != 0
      ensures Config() == if ok then old(Config()).(outputPort := outgoingPort) else old(Config())
      ensures socket == old(socket) && events == old(events)
    {
      if outgoingPort == 0 {
        return false;
      }
      outputPort := outgoingPort;
      return true;
    }

    /** Checks adapter, then addresses, then ports; on the first failure emits
        its error and changes nothing, otherwise commits all five values and
        reinitializes the socket. */
    method SetNetworkAdapter(adapter: Adapter, incomingIP: HostAddress, incomingPort: uint32,
                             outgoingIP: HostAddress, outgoingPort: uint32) returns (ok: bool)
      requires Valid()
      modifies this
      ensures Valid()
      ensures var c := EndpointConfig(adapter, incomingIP, incomingPort, outgoingIP, outgoingPort);
        && (ok <==> Acceptable(c))
        && (!ok ==> Config() == old(Config()) && socket == old(socket)
                    && events == old(events) + [SettingError(ErrorText(FirstFailure(c).value))])
        && (ok ==> Config() == c && socket == Reinitialized(old(socket), c)
                   && events == old(events) + [AdapterUpdated(MulticastInterface(socket).name)])
    {
      if !IsValidNetworkAdapter(adapter) {
        events := events + [SettingError("Invalid adapter")];
        return false;
      }
      if !IsValidIPAddress(incomingIP) || !IsValidIPAddress(outgoingIP) {
        events := events + [SettingError("Invalid IP")];
        return false;
      }
      if incomingPort == 0 || outgoingPort == 0 {
        events := events + [SettingError("Invalid port")];
        return false;
      }
      networkAdapter := adapter;
      inputIPAddress := incomingIP;
      inputPort := incomingPort;
      outputIPAddress := outgoingIP;
      outputPort := outgoingPort;
      Initialize();
      return true;
    }

    /** Looks the adapter up by name among the host's adapters, then behaves
        as SetNetworkAdapter on what the lookup returned. */
    method SetNetworkAdapterByName(adapters: seq<Adapter>, adapterName: string, incomingIP: HostAddress,
                                   incomingPort: uint32, outgoingIP: HostAddress, outgoingPort: uint32)
      returns (ok: bool)
      requires Valid()
      modifies this
      ensures Valid()
      ensures !IsValidNetworkAdapterName(adapters, adapterName) ==>
                !ok && Config() == old(Config()) && socket == old(socket)
                && events == old(events) + [SettingError("Invalid adapter")]
      ensures var c := EndpointConfig(GetNetworkAdapter(adapters, adapterName), incomingIP, incomingPort, outgoingIP, outgoingPort);
        && (ok <==> Acceptable(c))
        && (!ok ==> Config() == old(Config()) && socket == old(socket)
                    && events == old(events) + [SettingError(ErrorText(FirstFailure(c).value))])
        && (ok ==> Config() == c && c.adapter.name == adapterName && socket == Reinitialized(old(socket), c)
                   && events == old(events) + [AdapterUpdated(MulticastInterface(socket).name)])
    {
      var adapter := GetNetworkAdapter(adapters, adapterName);
      ok := SetNetworkAdapter(adapter, incomingIP, incomingPort, outgoingIP, outgoingPort);
    }

    /** Reads every pending datagram and emits a receivedMessage for each
        non-null one, in arrival order. */
    method ProcessData()
      requires Valid()
      modifies this
      ensures Valid()
      ensures Config() == old(Config())
      ensures socket == old(socket).(pending := [])
      ensures events == old(events) + Received(old(socket).pending)
    {
      ghost var queue := socket.pending;
      ghost var n := 0;
      while HasPendingDatagrams(socket)
        invariant 0 <= n <= |queue|
        invariant socket == old(socket).(pending := queue[n..])
        invariant events == old(events) + Received(queue[..n])
        invariant Config() == old(Config())
        decreases |socket.pending|
      {
        var datagram := socket.pending[0];
        socket := Dequeued(socket);
        if datagram.Payload? {
          events := events + [ReceivedMessage(datagram.data)];
        }
        assert queue[..n + 1] == queue[..n] + [queue[n]];
        ReceivedAppend(queue[..n], [queue[n]]);
        n := n + 1;
      }
      assert queue[..n] == queue;
    }

    /** Writes one datagram carrying `message` to the outgoing address and
        port, tagged with the index of the socket's multicast interface. */
    method SendMessage(message: string)
      requires Valid()
      modifies this
      ensures Valid()
      ensures Config() == old(Config()) && events == old(events)
      ensures socket == WriteDatagram(old(socket),
                          OutDatagram(message, outputIPAddress, Narrow16(outputPort), MulticastInterface(old(socket)).index))
      ensures old(socket).state == Bound ==>
                socket.written[|socket.written| - 1].interfaceIndex == AttachedInterface(socket, networkAdapter).index
    {
      var datagram := OutDatagram(message, outputIPAddress, Narrow16(outputPort), MulticastInterface(socket).index);
      socket := WriteDatagram(socket, datagram);
    }
  }
}
