// Listening sockets, the lines of a /watch stream, and the (stack, port)
// identity under which a client reports them.
module Listens {

  type Port = p: int | 0 <= p < 0x1_0000

  datatype Stack = V4 | V6

  // A peer may report a protocol this side does not know.
  datatype Proto = TCP | UDP | UnknownProto(name: string)

  datatype Listen = Listen(stack: Stack, proto: Proto, addr: string, port: Port)

  // One line of a /watch response. A line that does not parse, or whose op is
  // none of the three, is skipped by every reader.
  datatype Event = Add(listen: Listen) | Remove(listen: Listen) | Sync | Skipped

  datatype PortKey = PortKey(stack: Stack, port: Port)

  function Key(l: Listen): PortKey {
    PortKey(l.stack, l.port)
  }

  // The zero value of a Go map lookup.
  function Count<K>(m: map<K, int>, k: K): int {
    if k in m then m[k] else 0
  }
}
