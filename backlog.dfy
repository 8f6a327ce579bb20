/** Replaying the recent-message backlog to a newly attached connection. */
module Backlog {
  import opened Domain
  import opened Oracles
  import opened Trace

  /** How many recent messages the handler asks the service for. */
  const RecentLimit: nat := 50

  /** The writes made when replaying `msgs[i..]` to `c`, where `ok(j)` is the outcome of
      writing `msgs[j]`: the messages in the order given, stopping right after the first
      write that fails. */
  function Replay(c: ConnId, msgs: seq<Message>, ok: nat -> bool, i: nat): (r: seq<Event>)
    requires i <= |msgs|
    ensures |r| <= |msgs| - i
    ensures forall j :: 0 <= j < |r| ==> r[j] == Wrote(c, msgs[i + j], ok(i + j))
    ensures forall j :: 0 <= j < |r| - 1 ==> r[j].ok
    ensures |r| < |msgs| - i ==> 0 < |r| && !r[|r| - 1].ok
    decreases |msgs| - i
  {
    if i == |msgs| then []
    else if ok(i) then [Wrote(c, msgs[i], true)] + Replay(c, msgs, ok, i + 1)
    else [Wrote(c, msgs[i], false)]
  }

  /** The writes of the backlog step: nothing when fetching failed, otherwise the replay
      of the fetched messages in the order the service returned them. */
  function BacklogEvents(c: ConnId, fetched: FetchResult, ok: nat -> bool): seq<Event>
  {
    match fetched
    case FetchFailed => []
    case Fetched(msgs) => Replay(c, msgs, ok, 0)
  }

  /** Exactly the prefix up to and including the first failing write is attempted: with
      `k` the first failing index (or the end), `k - i` writes, plus the failing one. */
  lemma {:induction false} ReplayStopsAtFirstFailure(c: ConnId, msgs: seq<Message>, ok: nat -> bool, i: nat, k: nat)
    requires i <= k <= |msgs|
    requires forall j :: i <= j < k ==> ok(j)
    requires k == |msgs| || !ok(k)
    ensures |Replay(c, msgs, ok, i)| == if k == |msgs| then k - i else k - i + 1
    decreases k - i
  {
    if i < k {
      ReplayStopsAtFirstFailure(c, msgs, ok, i + 1, k);
    }
  }

  /** The replay touches only `c`: it registers and removes nobody, and when `c` is
      registered every one of its writes goes to a registered connection. */
  lemma {:induction false} ReplayEffect(s: set<ConnId>, c: ConnId, msgs: seq<Message>, ok: nat -> bool, i: nat)
    requires i <= |msgs|
    ensures After(s, Replay(c, msgs, ok, i)) == s
    ensures c in s ==> Sound(s, Replay(c, msgs, ok, i))
    ensures Writes(c, Replay(c, msgs, ok, i)) == Replay(c, msgs, ok, i)
    ensures forall d :: d != c ==> Writes(d, Replay(c, msgs, ok, i)) == []
    decreases |msgs| - i
  {
    var r := Replay(c, msgs, ok, i);
    if i < |msgs| {
      var rest := if ok(i) then Replay(c, msgs, ok, i + 1) else [];
      assert r == [Wrote(c, msgs[i], ok(i))] + rest;
      assert r[1..] == rest;
      if ok(i) {
        ReplayEffect(s, c, msgs, ok, i + 1);
      }
    }
  }

  /** The backlog step, in both its outcomes, leaves the registry as it was. */
  lemma BacklogEffect(s: set<ConnId>, c: ConnId, fetched: FetchResult, ok: nat -> bool)
    ensures After(s, BacklogEvents(c, fetched, ok)) == s
    ensures c in s ==> Sound(s, BacklogEvents(c, fetched, ok))
    ensures Writes(c, BacklogEvents(c, fetched, ok)) == BacklogEvents(c, fetched, ok)
    ensures forall d :: d != c ==> Writes(d, BacklogEvents(c, fetched, ok)) == []
    ensures fetched.FetchFailed? ==> BacklogEvents(c, fetched, ok) == []
  {
    if fetched.Fetched? {
      ReplayEffect(s, c, fetched.messages, ok, 0);
    }
  }

  /** Appending the backlog step to a valid history whose registry `s` holds `c`
      keeps it valid, leaves the registry `s`, and adds writes to `c` only. */
  lemma BacklogSummary(t: seq<Event>, s: set<ConnId>, c: ConnId, fetched: FetchResult, ok: nat -> bool)
    requires After({}, t) == s && Sound({}, t) && c in s
    ensures After({}, t + BacklogEvents(c, fetched, ok)) == s
    ensures Sound({}, t + BacklogEvents(c, fetched, ok))
    ensures forall d :: d != c ==> Writes(d, t + BacklogEvents(c, fetched, ok)) == Writes(d, t)
  {
    var b := BacklogEvents(c, fetched, ok);
    AfterAppend({}, t, b);
    BacklogEffect(s, c, fetched, ok);
    forall d | d != c ensures Writes(d, t + b) == Writes(d, t) {
      WritesAppend(d, t, b);
    }
  }

  /** The order the repository returns recent messages in: newest first. */
  predicate NewestFirst(msgs: seq<Message>)
  {
    forall j, k :: 0 <= j < k < |msgs| ==> msgs[j].timestamp >= msgs[k].timestamp
  }

  /** The replay keeps the service's order, so a newest-first backlog reaches the new
      connection newest first: if at least two messages with different timestamps are
      written, the first one written is strictly newer than the last. */
  lemma ReplayKeepsNewestFirst(c: ConnId, msgs: seq<Message>, ok: nat -> bool)
    requires NewestFirst(msgs)
    ensures forall j, k :: 0 <= j < k < |Replay(c, msgs, ok, 0)| ==>
              Replay(c, msgs, ok, 0)[j].msg.timestamp >= Replay(c, msgs, ok, 0)[k].msg.timestamp
    ensures forall j, k :: 0 <= j < k < |Replay(c, msgs, ok, 0)| && msgs[j].timestamp != msgs[k].timestamp ==>
              Replay(c, msgs, ok, 0)[j].msg.timestamp > Replay(c, msgs, ok, 0)[k].msg.timestamp
  {
  }
}
