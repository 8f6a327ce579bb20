/** One round of the broadcaster: the received message is written to every registered
    connection, and each connection whose write fails is closed and removed. */
module Broadcast {
  import opened Domain
  import opened Oracles
  import opened Trace

  /** The events of visiting one connection `c` with message `m`. */
  function Visit(c: ConnId, m: Message, ok: ConnId -> bool): seq<Event>
  {
    if ok(c) then [Wrote(c, m, true)]
    else [Wrote(c, m, false), Closed(c), Removed(c)]
  }

  /** The events of a round that visits the connections in the order `o`. */
  function RoundEvents(o: seq<ConnId>, m: Message, ok: ConnId -> bool): seq<Event>
    decreases |o|
  {
    if o == [] then [] else RoundEvents(o[..|o| - 1], m, ok) + Visit(o[|o| - 1], m, ok)
  }

  /** The connections of `o` whose write fails. */
  function Failures(o: seq<ConnId>, ok: ConnId -> bool): set<ConnId>
  {
    set c | c in o && !ok(c)
  }

  /** `o` visits no connection twice. */
  predicate NoDup(o: seq<ConnId>)
    decreases |o|
  {
    o == [] || (NoDup(o[..|o| - 1]) && o[|o| - 1] !in o[..|o| - 1])
  }

  /** Extending a visiting order by one connection `c`. */
  lemma SnocFacts(o: seq<ConnId>, c: ConnId, m: Message, ok: ConnId -> bool)
    ensures Failures(o + [c], ok) == Failures(o, ok) + (if ok(c) then {} else {c})
    ensures NoDup(o + [c]) <==> NoDup(o) && c !in o
    ensures RoundEvents(o + [c], m, ok) == RoundEvents(o, m, ok) + Visit(c, m, ok)
    ensures forall d :: d in o + [c] <==> d in o || d == c
  {
  }

  /** Extending a partial round by the visit of one more connection `c`. */
  lemma RoundStep(t0: seq<Event>, before: seq<Event>, after: seq<Event>, o: seq<ConnId>, c: ConnId, m: Message, ok: ConnId -> bool)
    requires before == t0 + RoundEvents(o, m, ok)
    requires after == before + Visit(c, m, ok)
    ensures after == t0 + RoundEvents(o + [c], m, ok)
    ensures Failures(o + [c], ok) == Failures(o, ok) + (if ok(c) then {} else {c})
    ensures NoDup(o + [c]) <==> NoDup(o) && c !in o
  {
    SnocFacts(o, c, m, ok);
  }

  /** Visiting one connection removes it exactly when its write fails, writes to it
      once and to nobody else, and closes it exactly when its write fails. */
  lemma VisitEffect(s: set<ConnId>, c: ConnId, m: Message, ok: ConnId -> bool)
    ensures After(s, Visit(c, m, ok)) == if ok(c) then s else s - {c}
    ensures Sound(s, Visit(c, m, ok)) <==> c in s
    ensures forall d :: Writes(d, Visit(c, m, ok)) == if d == c then [Wrote(c, m, ok(c))] else []
    ensures forall d :: Closed(d) in Visit(c, m, ok) <==> d == c && !ok(c)
  {
    var v := Visit(c, m, ok);
    if ok(c) {
      assert v[1..] == [];
    } else {
      var v1, v2 := [Closed(c), Removed(c)], [Removed(c)];
      assert v[1..] == v1 && v1[1..] == v2 && v2[1..] == [];
      assert After(s, v) == After(s, v1) == After(s, v2) == After(s - {c}, []);
      assert Sound(s, v2) && Sound(s, v1);
      assert Sound(s, v) <==> c in s;
      forall d ensures Writes(d, v) == if d == c then [Wrote(c, m, ok(c))] else [] {
        assert Writes(d, v1) == Writes(d, v2) == [];
      }
    }
  }

  /** A round over connections that are all registered, each visited once, leaves the
      registry as it was minus exactly the connections whose write failed, and writes
      only to connections still registered at the moment of the write. */
  lemma {:induction false} RoundRegistry(s: set<ConnId>, o: seq<ConnId>, m: Message, ok: ConnId -> bool)
    requires NoDup(o)
    requires forall c :: c in o ==> c in s
    ensures After(s, RoundEvents(o, m, ok)) == s - Failures(o, ok)
    ensures Sound(s, RoundEvents(o, m, ok))
    decreases |o|
  {
    if o == [] {
      assert Failures(o, ok) == {};
    } else {
      var init, last := o[..|o| - 1], o[|o| - 1];
      assert o == init + [last];
      SnocFacts(init, last, m, ok);
      assert forall c :: c in init ==> c in o;
      RoundRegistry(s, init, m, ok);
      var before := s - Failures(init, ok);
      assert last in before;
      AfterAppend(s, RoundEvents(init, m, ok), Visit(last, m, ok));
      VisitEffect(before, last, m, ok);
    }
  }

  /** Every connection of the round gets exactly one write attempt of the message, whose
      outcome is its oracle's; connections outside the round get none; and a connection
      is closed in the round exactly when it is in the round and its write failed. */
  lemma {:induction false} RoundWrites(c: ConnId, o: seq<ConnId>, m: Message, ok: ConnId -> bool)
    requires NoDup(o)
    ensures Writes(c, RoundEvents(o, m, ok)) == if c in o then [Wrote(c, m, ok(c))] else []
    ensures Closed(c) in RoundEvents(o, m, ok) <==> c in o && !ok(c)
    decreases |o|
  {
    if o != [] {
      var init, last := o[..|o| - 1], o[|o| - 1];
      assert o == init + [last];
      SnocFacts(init, last, m, ok);
      RoundWrites(c, init, m, ok);
      var r, v := RoundEvents(init, m, ok), Visit(last, m, ok);
      WritesAppend(c, r, v);
      VisitEffect({}, last, m, ok);
      assert Closed(c) in r + v <==> Closed(c) in r || Closed(c) in v;
    }
  }

  /** A whole round appended to a history that left registry `s`, visiting each
      connection of `s` once: the registry becomes the connections of `s` whose write
      succeeded, every write is still to a registered connection, each connection of
      `s` gains exactly one write attempt and nobody else gains any, and the round
      closes exactly the connections of `s` whose write failed. */
  lemma RoundSummary(t: seq<Event>, s: set<ConnId>, o: seq<ConnId>, m: Message, ok: ConnId -> bool)
    requires After({}, t) == s && Sound({}, t)
    requires NoDup(o) && forall c :: c in o <==> c in s
    ensures After({}, t + RoundEvents(o, m, ok)) == (set c | c in s && ok(c))
    ensures Sound({}, t + RoundEvents(o, m, ok))
    ensures forall c :: Writes(c, t + RoundEvents(o, m, ok)) ==
              Writes(c, t) + (if c in s then [Wrote(c, m, ok(c))] else [])
    ensures forall c :: Closed(c) in RoundEvents(o, m, ok) <==> c in s && !ok(c)
  {
    var round := RoundEvents(o, m, ok);
    AfterAppend({}, t, round);
    RoundRegistry(s, o, m, ok);
    forall c ensures Writes(c, t + round) == Writes(c, t) + (if c in s then [Wrote(c, m, ok(c))] else []) {
      WritesAppend(c, t, round);
      RoundWrites(c, o, m, ok);
    }
    forall c ensures Closed(c) in round <==> c in s && !ok(c) {
      RoundWrites(c, o, m, ok);
    }
  }
}
