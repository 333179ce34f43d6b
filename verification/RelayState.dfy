/**
 * One session of the relay (internal/relay/relay.go), as functions on values.  Each function is one
 * critical section of the session lock; `viewers` maps a relay viewer ID to what its send channel buffers.
 */
module RelayState {
  import opened ByteStrings

  const SEND_BUF_SIZE := 256

  datatype State = State(viewers: map<Id, seq<Bytes>>, closed: bool, maxViewers: nat)

  datatype JoinResult = Joined | Full | Gone

  function Join(s: State, id: Id): (State, JoinResult)
  {
    if s.closed then (s, Gone)
    else if |s.viewers| >= s.maxViewers then (s, Full)
    else (s.(viewers := s.viewers[id := []]), Joined)
  }

  /** A send that does not fit leaves the buffer as it is. */
  function Offer(buf: seq<Bytes>, msg: Bytes): (r: seq<Bytes>)
    ensures |buf| <= |r| && (|buf| <= SEND_BUF_SIZE ==> |r| <= SEND_BUF_SIZE)
  {
    if |buf| < SEND_BUF_SIZE then buf + [msg] else buf
  }

  /** A broadcast is dropped for a viewer whose buffer is full. */
  function Broadcast(s: State, data: Bytes): State
  {
    s.(viewers := map id | id in s.viewers :: Offer(s.viewers[id], data))
  }

  /** A unicast that does not fit evicts the viewer. */
  function Unicast(s: State, id: Id, payload: Bytes): State
  {
    if id !in s.viewers then s
    else if |s.viewers[id]| < SEND_BUF_SIZE then s.(viewers := s.viewers[id := s.viewers[id] + [payload]])
    else s.(viewers := s.viewers - {id})
  }

  /** One message of the sharer, as runSharer dispatches it. */
  function FromSharer(s: State, data: Bytes): State
  {
    if data == [] then s
    else if data[0] == TAG_STREAM || data[0] == TAG_TERM_SIZE then Broadcast(s, data)
    else if data[0] == TAG_UNICAST && |data| >= 1 + VIEWER_ID_LEN then Unicast(s, data[1..7], data[7..])
    else s
  }

  /** viewerWriter receives the oldest buffered message. */
  function Take(s: State, id: Id): State
    requires id in s.viewers && s.viewers[id] != []
  {
    s.(viewers := s.viewers[id := s.viewers[id][1..]])
  }

  function Leave(s: State, id: Id): State
  {
    s.(viewers := s.viewers - {id})
  }

  function Teardown(s: State): State
  {
    s.(viewers := map[], closed := true)
  }
}
