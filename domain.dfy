/** The chat message record of the domain package and the one transformation the
    WebSocket handler applies to it. */
module Domain {

  /** A reading of the server clock (Go's time.Time), kept as an opaque instant. */
  type Time = int

  /** One chat message: ID, Type, Content, Sender and Timestamp. The Go field `Type`
      is called `kind` here because `type` is a Dafny keyword. */
  datatype Message = Message(id: int, kind: string, content: string, sender: string, timestamp: Time)

  /** The handler overwrites whatever timestamp the client sent with the server clock. */
  function Stamp(m: Message, now: Time): Message
  {
    m.(timestamp := now)
  }

  /** Stamping sets the timestamp to the clock value, passes every other field through,
      and ignores the timestamp the client supplied: two inbound messages stamp to the
      same value exactly when they agree on ID, Type, Content and Sender. */
  lemma StampOverwritesTimestamp(m1: Message, m2: Message, now: Time)
    ensures Stamp(m1, now).timestamp == now
    ensures Stamp(m1, now).id == m1.id && Stamp(m1, now).kind == m1.kind
    ensures Stamp(m1, now).content == m1.content && Stamp(m1, now).sender == m1.sender
    ensures Stamp(m1, now) == Stamp(m2, now) <==>
              m1.id == m2.id && m1.kind == m2.kind && m1.content == m2.content && m1.sender == m2.sender
  {
  }
}

/** The outcomes of the calls the handler makes into code outside the model: the
    WebSocket upgrade, JSON reads, and the message service. Each is an input. */
module Oracles {
  import opened Domain

  datatype Option<T> = None | Some(value: T)

  /** Opaque identity of a connection (the Go code keys the registry by *websocket.Conn). */
  type ConnId = nat

  /** Result of upgrading the HTTP request to a WebSocket connection. */
  datatype Upgrade = Upgraded(conn: ConnId) | UpgradeFailed

  /** Result of MessageService.GetRecentMessages. */
  datatype FetchResult = Fetched(messages: seq<Message>) | FetchFailed

  /** Result of one ReadJSON call on a connection. */
  datatype ReadResult = ReadOk(msg: Message) | ReadFailed
}
