# MulticastServer: a verified model of the multicast endpoint manager

This project models `MulticastServer`, the component of a small Qt
multicast UDP tool that decides which host network adapters may be used,
keeps the endpoint configuration (adapter, incoming address and port,
outgoing address and port), rebinds its one UDP socket whenever the
incoming side changes, drains received datagrams into `receivedMessage`
signals and sends messages to the outgoing endpoint.

- `adapters.dfy` (module `Adapters`): the adapter filter
  (`isValidNetworkAdapter`), the lookup by exact name
  (`getNetworkAdapter`), the name-based check and
  `refreshNetworkAdapters`, which clears the caller's list and appends the
  usable adapters' names. The host's enumeration of interfaces is an input
  sequence in the host's order.
- `socket.dfy` (module `Socket`): the UDP socket as a record (state,
  bound address, bound port, multicast interface, unread datagrams,
  written datagrams) with the socket operations the server calls. The
  operating system is reduced to two inputs: the set of endpoints it
  refuses to bind and the set of adapters it refuses as a multicast
  interface. `Arrive` is the network delivering a datagram to a bound
  socket. The ports the server stores are 32-bit (`uint32`); the
  socket takes 16 (`uint16`), and `Narrow16` is the truncating cast.
- `server.dfy` (module `Server`): the class `MulticastServer` with the
  five configuration fields, the socket and an event log to which every
  signal (`receivedMessage`, `adapterUpdated`, `settingError`) is
  appended in emission order. Its invariant `Valid()` says that the
  socket, whenever it is bound, is bound to the incoming address and the
  incoming port narrowed to 16 bits and multicasts through the configured
  adapter, or through no chosen interface if the host refused it.

Behaviour of the code worth noting:

- The adapter filter is valid-flag plus name only ("BLUETOOTH", "VM" in
  the upper-cased name).
- A bind failure is not reported: `initialize` never looks at the result
  of `bind`, emits `adapterUpdated` regardless, and the setters still
  return true. The model lets the bind fail (the endpoint is in the
  refused set) and shows that the socket then stays unbound and the
  announced interface name is empty.
- Setting the multicast interface returns nothing, so a refusal goes
  unnoticed too: the announced name and the index tagged on sent
  datagrams are what the socket reports, which is no interface when the
  host refused the adapter.
- `processData` drops only null datagrams; a datagram with an empty
  payload is emitted as an empty message.
- The port checks are on the stored 32-bit value: a port of 65536 passes
  `setIncomingPort` and is narrowed to 0 for the bind
  (`WidePortBindsPortZero`).

## Model

| member | source | states |
|---|---|---|
| `Adapters.ToUpper` | multicastserver.cpp:55 | the upper-cased name has the same length and upper-cases each character in place |
| `Adapters.Contains` | multicastserver.cpp:55 | the substring search is true iff the pattern occurs at some position of the text |
| `Adapters.IsValidNetworkAdapter` | multicastserver.cpp:50-59 | an adapter passes iff it is valid and neither "BLUETOOTH" nor "VM" occurs anywhere in its upper-cased name; an invalid adapter fails whatever its name |
| `Adapters.AdapterFilterIgnoresCase` | multicastserver.cpp:50-59 | the filter rejects exactly the invalid adapters and those whose name contains "bluetooth" or "vm" in any mix of letter case |
| `Adapters.GetNetworkAdapter` | multicastserver.cpp:34-48 | the lookup returns either a usable adapter from the list whose name equals the request, or the invalid default adapter, and the latter exactly when no usable adapter has that name |
| `Adapters.GetNetworkAdapterFirstMatch` | multicastserver.cpp:34-48 | when several usable adapters carry the name, the lookup returns the earliest in enumeration order |
| `Adapters.IsValidNetworkAdapterName` | multicastserver.cpp:61-64 | the name-based check holds iff some usable adapter has exactly that name |
| `Adapters.EligibleNames` | multicastserver.cpp:21-32 | the refreshed list has at most one name per enumerated adapter |
| `Adapters.EligibleNamesAppend` | multicastserver.cpp:26-31 | the list of usable names keeps enumeration order: the names for two enumerations in sequence are the names for each, in sequence |
| `Adapters.EligibleNamesMembers` | multicastserver.cpp:26-31 | a name is in the refreshed list iff some usable adapter carries it |
| `Adapters.ListedIffAccepted` | multicastserver.cpp:21-64 | a name is in the refreshed list iff the name-based check accepts it |
| `Adapters.RefreshNetworkAdapters` | multicastserver.cpp:21-32 | after the call the caller's list holds exactly the names of the usable adapters, in enumeration order, whatever it held before |
| `Socket.Narrow16` | multicastserver.cpp:183-184 | the 16-bit port equals the stored port when that is below 65536 and differs from it by a multiple of 65536 |
| `Server.IsValidIPAddress` | multicastserver.cpp:66-70 | an address is accepted iff it is not the null address |
| `Server.FirstFailure` | multicastserver.cpp:133-151 | the adapter is checked first, then both addresses, then both ports; the failure reported is the first that fails with all earlier checks passed, and there is none iff all checks pass |
| `Server.UnknownNameIsInvalidAdapter` | multicastserver.cpp:165-174 | a name with no usable adapter reaches the checks as the invalid default adapter and is refused as an invalid adapter |
| `Server.ReinitializedOutcome` | multicastserver.cpp:176-189 | after initialize the socket is bound iff the host accepts the incoming endpoint; it then agrees with the configuration and reports the configured adapter if the host accepted it as multicast interface, and otherwise no interface; written datagrams are kept |
| `Server.ReinitializeIdempotent` | multicastserver.cpp:176-189 | initializing twice with the same configuration leaves the socket as initializing once |
| `Server.DeInitialized` | multicastserver.cpp:191-196 | after deInitialize the socket is not bound and no written datagram is lost |
| `Server.DeInitializeIdempotent` | multicastserver.cpp:191-196 | deInitialize applied twice is deInitialize applied once |
| `Server.Received` | multicastserver.cpp:198-208 | a drain emits at most one event per pending datagram |
| `Server.ReceivedAppend` | multicastserver.cpp:200-207 | draining is in queue order: the events for two queues in sequence are the events for each, in sequence |
| `Server.ReceivedMessages` | multicastserver.cpp:198-208 | a message is emitted iff a non-null datagram carrying it was pending, and only receivedMessage events are emitted |
| `Server.ArrivalsDrainInOrder` | multicastserver.cpp:198-208 | a datagram that reaches a bound socket is drained after those already waiting, as one message if it is not null |
| `Server.WidePortBindsPortZero` | multicastserver.cpp:113-120 | an incoming port of 65536 passes the non-zero check, and the socket, if bound, is bound to port 0 |
| `Server.MulticastServer.constructor` | multicastserver.cpp:3-19 | the five arguments are stored unchecked, the socket is initialized on them and one adapterUpdated is emitted |
| `Server.MulticastServer.Default` | multicastserver.h:16-21 | with default arguments the configuration is no adapter, loopback 7000 in, loopback 8000 out |
| `Server.MulticastServer.Initialize` | multicastserver.cpp:176-189 | the configuration is unchanged, the socket is closed if bound and rebound to the incoming endpoint with the adapter set, it ends bound iff the host accepts the endpoint, and exactly one adapterUpdated carrying the name of the interface the socket reports (the adapter's if bound and the host accepted it, empty otherwise) is appended |
| `Server.MulticastServer.DeInitialize` | multicastserver.cpp:191-196 | the socket is closed if bound and left alone otherwise; configuration and events are unchanged |
| `Server.MulticastServer.SetIncomingIPAddress` | multicastserver.cpp:92-101 | a null address is refused with nothing changed; otherwise only the incoming address changes, the socket is reinitialized and one adapterUpdated is emitted |
| `Server.MulticastServer.SetOutgoingIPAddress` | multicastserver.cpp:103-111 | succeeds iff the address is not null and then changes only the outgoing address; never touches the socket or emits an event |
| `Server.MulticastServer.SetIncomingPort` | multicastserver.cpp:113-122 | port 0 is refused with nothing changed; otherwise only the incoming port changes, the socket is reinitialized and one adapterUpdated is emitted |
| `Server.MulticastServer.SetOutgoingPort` | multicastserver.cpp:124-131 | succeeds iff the port is non-zero and then changes only the outgoing port; never touches the socket or emits an event |
| `Server.MulticastServer.SetNetworkAdapter` | multicastserver.cpp:133-163 | succeeds iff all checks pass; on failure exactly one settingError with the first failing check's text and no field or socket change; on success all five fields equal the arguments, the socket is reinitialized once and one adapterUpdated is emitted |
| `Server.MulticastServer.SetNetworkAdapterByName` | multicastserver.cpp:165-174 | behaves as SetNetworkAdapter on the adapter the lookup finds; an unknown name gives one "Invalid adapter" error and changes nothing; on success the committed adapter carries the requested name |
| `Server.MulticastServer.ProcessData` | multicastserver.cpp:198-208 | every pending datagram is consumed and one receivedMessage per non-null datagram is appended in queue order; nothing else changes |
| `Server.MulticastServer.SendMessage` | multicastserver.cpp:210-221 | exactly one datagram is written, carrying the message to the outgoing address and the outgoing port narrowed to 16 bits, tagged with the index of the interface the socket reports: the configured adapter's when bound and the host accepted it |

## Left out

- Qt widgets and the window that drives the server (`mainwindow.cpp`, `mainwindow.h`): presentation only.
- The host's interface enumeration: an input sequence of adapter records instead of a host query.
- Unicode case mapping: `ToUpper` maps only the ASCII letters; other characters are left as they are.
- Address parsing and the conversions between Qt, standard and byte strings: addresses are opaque values with a null case, payloads are strings passed through unchanged.
- What the operating system does on bind, close, setting the multicast interface and writing: the socket is an abstract record; the port the system picks when binding port 0 and the automatic bind on a write to an unbound socket are not modelled.
- The readyRead signal that triggers `processData`: the drain runs on whatever the socket holds; arrivals are the function `Arrive`, which no server method calls.
- Signal delivery: emissions are appended to an ordered log; connected slots and the event loop are not modelled.
- The getters for the four address and port fields: they return the fields and are read directly.
- The socket's ownership by the server object and its release on destruction.
