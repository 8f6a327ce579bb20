/** The observable history of the handler as a sequence of events, and what can be
    read off it: the registry it leads to, whether every write went to a registered
    connection, and what was written to one connection. */
module Trace {
  import opened Domain
  import opened Oracles

  datatype Event =
    | Registered(conn: ConnId)                  // h.clients[conn] = true
    | Removed(conn: ConnId)                     // delete(h.clients, conn)
    | Wrote(conn: ConnId, msg: Message, ok: bool) // conn.WriteJSON(msg) and whether it succeeded
    | Closed(conn: ConnId)                      // conn.Close()
    | Saved(msg: Message, ok: bool)             // service.SendMessage(msg) and whether it succeeded
    | Forwarded(msg: Message)                   // h.broadcast <- msg

  /** The effect of one event on the set of registered connections. */
  function Apply(s: set<ConnId>, e: Event): set<ConnId>
  {
    match e
    case Registered(c) => s + {c}
    case Removed(c) => s - {c}
    case _ => s
  }

  /** The registry after the events of `t`, starting from `s`. */
  function After(s: set<ConnId>, t: seq<Event>): set<ConnId>
    decreases |t|
  {
    if t == [] then s else After(Apply(s, t[0]), t[1..])
  }

  /** Every write in `t` goes to a connection that is registered at that moment. */
  predicate Sound(s: set<ConnId>, t: seq<Event>)
    decreases |t|
  {
    t == [] || ((t[0].Wrote? ==> t[0].conn in s) && Sound(Apply(s, t[0]), t[1..]))
  }

  /** The write attempts of `t` made on connection `c`, in order. */
  function Writes(c: ConnId, t: seq<Event>): seq<Event>
    decreases |t|
  {
    if t == [] then []
    else (if t[0].Wrote? && t[0].conn == c then [t[0]] else []) + Writes(c, t[1..])
  }

  /** Running two stretches of history one after the other is running their concatenation. */
  lemma {:induction false} AfterAppend(s: set<ConnId>, t1: seq<Event>, t2: seq<Event>)
    ensures After(s, t1 + t2) == After(After(s, t1), t2)
    ensures Sound(s, t1 + t2) <==> Sound(s, t1) && Sound(After(s, t1), t2)
    decreases |t1|
  {
    if t1 != [] {
      assert (t1 + t2)[1..] == t1[1..] + t2;
      AfterAppend(Apply(s, t1[0]), t1[1..], t2);
    } else {
      assert t1 + t2 == t2;
    }
  }

  /** The writes to one connection over a concatenation are those of each part. */
  lemma {:induction false} WritesAppend(c: ConnId, t1: seq<Event>, t2: seq<Event>)
    ensures Writes(c, t1 + t2) == Writes(c, t1) + Writes(c, t2)
    decreases |t1|
  {
    if t1 != [] {
      assert (t1 + t2)[1..] == t1[1..] + t2;
      assert (t1 + t2)[0] == t1[0];
      WritesAppend(c, t1[1..], t2);
    } else {
      assert t1 + t2 == t2;
    }
  }

  /** A single event's effect on the registry and on soundness. */
  lemma AfterSingle(s: set<ConnId>, e: Event)
    ensures After(s, [e]) == Apply(s, e)
    ensures Sound(s, [e]) <==> (e.Wrote? ==> e.conn in s)
  {
  }

  /** A removal takes exactly that connection out and leaves every other membership
      alone; removing a connection that is already absent changes nothing. */
  lemma RemoveIsIdempotent(s: set<ConnId>, c: ConnId)
    ensures After(s, [Removed(c)]) == s - {c}
    ensures After(After(s, [Removed(c)]), [Removed(c)]) == After(s, [Removed(c)])
    ensures c !in s ==> After(s, [Removed(c)]) == s
  {
  }
}
