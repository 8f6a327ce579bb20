/** The WebSocket handler: a registry of live connections updated in place by the
    per-connection handler steps and by the broadcaster. Every call into the
    transport or the message service is an oracle input, and each step runs as one
    atomic, sequential method. */
module Handler {
  import opened Domain
  import opened Oracles
  import opened Trace
  import opened Backlog
  import opened Broadcast

  class WebSocketHandler {
    /** The registry, keyed by connection; every value is `true`. */
    var clients: map<ConnId, bool>
    /** The history of registrations, removals, writes, closes, saves and forwards. */
    ghost var trace: seq<Event>

    /** The registry is exactly what the history's registrations and removals leave,
        and no write so far went to a connection that was not registered at the time. */
    ghost predicate Valid()
      reads this
    {
      (forall c | c in clients :: clients[c]) &&
      clients.Keys == After({}, trace) &&
      Sound({}, trace)
    }

    /** A fresh handler has an empty registry and has done nothing yet. */
    constructor ()
      ensures Valid()
      ensures clients == map[] && trace == []
    {
      clients := map[];
      trace := [];
    }

    /** The start of a connection's handler: upgrade, register, then replay the backlog
        that `recent(RecentLimit)` returns, `writeOk(j)` being the outcome of writing
        its j-th message. A failed upgrade does nothing at all. An upgrade always yields
        a new connection, so its id is not yet registered. */
    method Connect(upgrade: Upgrade, recent: nat -> FetchResult, writeOk: nat -> bool) returns (conn: Option<ConnId>)
      requires Valid()
      requires upgrade.Upgraded? ==> upgrade.conn !in clients
      modifies this
      ensures Valid()
      ensures upgrade.UpgradeFailed? ==> conn == None && clients == old(clients) && trace == old(trace)
      ensures upgrade.Upgraded? ==>
        conn == Some(upgrade.conn) &&
        clients == old(clients)[upgrade.conn := true] &&
        trace == old(trace) + [Registered(upgrade.conn)] + BacklogEvents(upgrade.conn, recent(RecentLimit), writeOk)
      ensures forall d :: (upgrade.Upgraded? ==> d != upgrade.conn) ==> Writes(d, trace) == Writes(d, old(trace))
    {
      if upgrade.UpgradeFailed? {
        return None;
      }
      var c := upgrade.conn;
      clients := clients[c := true];
      trace := trace + [Registered(c)];
      AfterAppend({}, old(trace), [Registered(c)]);
      assert [Registered(c)][1..] == [];
      forall d ensures Writes(d, trace) == Writes(d, old(trace)) {
        WritesAppend(d, old(trace), [Registered(c)]);
        assert Writes(d, [Registered(c)]) == Writes(d, []);
      }
      SendBacklog(c, recent(RecentLimit), writeOk);
      conn := Some(c);
    }

    /** The backlog replay to connection `c`, which is registered: nothing is written
        when fetching failed; otherwise the messages in the order given, stopping after
        the first failed write. Either way `c` stays registered. */
    method SendBacklog(c: ConnId, fetched: FetchResult, writeOk: nat -> bool)
      requires Valid() && c in clients
      modifies this
      ensures Valid()
      ensures clients == old(clients)
      ensures trace == old(trace) + BacklogEvents(c, fetched, writeOk)
      ensures forall d :: d != c ==> Writes(d, trace) == Writes(d, old(trace))
    {
      if fetched.Fetched? {
        var msgs := fetched.messages;
        var i := 0;
        while i < |msgs|
          invariant 0 <= i <= |msgs|
          invariant clients == old(clients)
          invariant trace + Replay(c, msgs, writeOk, i) == old(trace) + Replay(c, msgs, writeOk, 0)
          decreases |msgs| - i
        {
          var ok := writeOk(i);
          assert Replay(c, msgs, writeOk, i) ==
            [Wrote(c, msgs[i], ok)] + if ok then Replay(c, msgs, writeOk, i + 1) else [];
          trace := trace + [Wrote(c, msgs[i], ok)];
          if !ok {
            assert trace == old(trace) + Replay(c, msgs, writeOk, 0);
            break;
          }
          i := i + 1;
        }
      }
      assert trace == old(trace) + BacklogEvents(c, fetched, writeOk);
      BacklogSummary(old(trace), old(clients).Keys, c, fetched, writeOk);
    }

    /** One iteration of a connection's read loop. A failed read removes `conn` from the
        registry and closes it, leaving every other membership alone; a message read
        gets the server clock `now` as its timestamp, is saved (with outcome `saveOk`),
        and is then forwarded to the broadcaster whatever the save's outcome. */
    method ReadStep(conn: ConnId, read: ReadResult, now: Time, saveOk: bool) returns (forwarded: Option<Message>)
      requires Valid()
      modifies this
      ensures Valid()
      ensures read.ReadFailed? ==>
        forwarded == None && clients == old(clients) - {conn} &&
        trace == old(trace) + [Removed(conn), Closed(conn)]
      ensures read.ReadOk? ==>
        forwarded == Some(Stamp(read.msg, now)) && clients == old(clients) &&
        trace == old(trace) + [Saved(Stamp(read.msg, now), saveOk), Forwarded(Stamp(read.msg, now))]
    {
      var step: seq<Event>;
      match read {
        case ReadFailed =>
          clients := clients - {conn};
          step := [Removed(conn), Closed(conn)];
          forwarded := None;
        case ReadOk(m) =>
          var msg := Stamp(m, now);
          step := [Saved(msg, saveOk), Forwarded(msg)];
          forwarded := Some(msg);
      }
      trace := trace + step;
      var before := old(clients).Keys;
      AfterAppend({}, old(trace), step);
      assert step == [step[0]] + [step[1]];
      AfterAppend(before, [step[0]], [step[1]]);
      AfterSingle(before, step[0]);
      AfterSingle(Apply(before, step[0]), step[1]);
    }

    /** One round of the broadcaster for message `msg`, `writeOk(c)` being the outcome
        of writing it to `c`. The registry is visited in some order `order` that lists
        each connection registered at the start exactly once; the round writes `msg` to
        each of them, sender included, and closes and removes exactly those whose write
        failed. */
    method BroadcastRound(msg: Message, writeOk: ConnId -> bool) returns (ghost order: seq<ConnId>)
      requires Valid()
      modifies this
      ensures Valid()
      ensures NoDup(order) && forall c :: c in order <==> c in old(clients)
      ensures clients.Keys == set c | c in old(clients) && writeOk(c)
      ensures trace == old(trace) + RoundEvents(order, msg, writeOk)
      ensures forall c :: Writes(c, trace) ==
                Writes(c, old(trace)) + (if c in old(clients) then [Wrote(c, msg, writeOk(c))] else [])
      ensures forall c :: Closed(c) in trace[|old(trace)|..] <==> c in old(clients) && !writeOk(c)
    {
      var pending := clients.Keys;
      order := [];
      while pending != {}
        invariant pending <= old(clients).Keys
        invariant forall c :: c in order <==> c in old(clients) && c !in pending
        invariant NoDup(order)
        invariant forall c | c in clients :: clients[c]
        invariant clients.Keys == old(clients).Keys - Failures(order, writeOk)
        invariant trace == old(trace) + RoundEvents(order, msg, writeOk)
        decreases pending
      {
        var c :| c in pending;
        ghost var before := trace;
        VisitClient(c, msg, writeOk);
        RoundStep(old(trace), before, trace, order, c, msg, writeOk);
        order := order + [c];
        pending := pending - {c};
      }
      RoundSummary(old(trace), old(clients).Keys, order, msg, writeOk);
      assert trace[|old(trace)|..] == RoundEvents(order, msg, writeOk);
    }

    /** The broadcaster's visit of one connection `c`: write `msg` to it and, when the
        write fails, close it and delete it from the registry. */
    method VisitClient(c: ConnId, msg: Message, writeOk: ConnId -> bool)
      requires c in clients
      modifies this
      ensures clients == if writeOk(c) then old(clients) else old(clients) - {c}
      ensures trace == old(trace) + Visit(c, msg, writeOk)
    {
      var ok := writeOk(c);
      if !ok {
        clients := clients - {c};
      }
      trace := trace + Visit(c, msg, writeOk);
    }
  }
}
