/** The in-memory webhook delivery store: every delivery is accepted once within its time to
    live. */
module Deliveries {
  import opened Common

  datatype Status = Received | Duplicate | Enqueued | Processed | Failed

  datatype Delivery = Delivery(
    deliveryID: string, eventType: string, action: string, repository: string, installationID: int,
    signature: string, payloadSHA256: string, payload: string, status: Status, receivedAt: int, lastError: string)

  type Entries = map<string, Delivery>

  predicate Expired(d: Delivery, now: int, ttl: int) { now - d.receivedAt > ttl }

  function Prune(entries: Entries, now: int, ttl: int): Entries {
    map id | id in entries && !Expired(entries[id], now, ttl) :: entries[id]
  }

  /** The flag says whether the delivery was known. */
  function Remember(entries: Entries, delivery: Delivery, now: int, ttl: int): (Entries, bool) {
    var kept := Prune(entries, now, ttl);
    var id := delivery.deliveryID;
    if id in kept then (kept[id := kept[id].(status := Duplicate)], true) else (kept[id := delivery], false)
  }

  function MarkStatus(entries: Entries, id: string, status: Status, err: Option<string>): (Entries, bool) {
    if id !in entries then (entries, false)
    else (entries[id := entries[id].(status := status, lastError := if err.Some? then err.value else "")], true)
  }

  /** The counts a snapshot reports. */
  datatype Counts = Counts(total: nat, byStatus: map<Status, nat>, deduplicated: nat, replayRecorded: nat)

  function WithStatus(entries: Entries, status: Status): set<string> {
    set id | id in entries && entries[id].status == status
  }

  function Signed(entries: Entries): set<string> { set id | id in entries && entries[id].signature != "" }

  predicate CountsOf(c: Counts, entries: Entries) {
    && c.total == |entries|
    && (forall st :: (if st in c.byStatus then c.byStatus[st] else 0) == |WithStatus(entries, st)|)
    && c.deduplicated == |WithStatus(entries, Duplicate)|
    && c.replayRecorded == |Signed(entries)|
  }

  class InMemoryDeliveryStore {
    const ttl: int
    var entries: Entries

    constructor (ttl: int)
      ensures entries == map[] && this.ttl == if ttl <= 0 then 604_800_000_000_000 else ttl
    {
      this.ttl := if ttl <= 0 then 604_800_000_000_000 else ttl;
      entries := map[];
    }

    method PruneExpired(now: int)
      modifies this
      ensures entries == Prune(old(entries), now, ttl)
    {
      var left := entries.Keys;
      while left != {}
        invariant left <= old(entries).Keys
        invariant entries.Keys <= old(entries).Keys
        invariant forall id :: id in entries ==> entries[id] == old(entries)[id]
        invariant forall id :: id in old(entries) ==>
          (id in entries <==> id in left || !Expired(old(entries)[id], now, ttl))
        decreases left
      {
        var id :| id in left;
        if now - entries[id].receivedAt > ttl {
          entries := entries - {id};
        }
        left := left - {id};
      }
      assert entries.Keys == Prune(old(entries), now, ttl).Keys;
    }

    method RememberDelivery(delivery: Delivery, clock: int) returns (duplicate: bool)
      modifies this
      ensures (entries, duplicate) == Remember(old(entries), delivery, clock, ttl)
    {
      PruneExpired(clock);
      if delivery.deliveryID in entries {
        var existing := entries[delivery.deliveryID].(status := Duplicate);
        entries := entries[delivery.deliveryID := existing];
        return true;
      }
      entries := entries[delivery.deliveryID := delivery];
      return false;
    }

    method Mark(deliveryID: string, status: Status, err: Option<string>) returns (found: bool)
      modifies this
      ensures (entries, found) == MarkStatus(old(entries), deliveryID, status, err)
    {
      if deliveryID !in entries {
        return false;
      }
      var delivery := entries[deliveryID].(status := status);
      delivery := delivery.(lastError := if err.Some? then err.value else "");
      entries := entries[deliveryID := delivery];
      return true;
    }

    method Lookup(deliveryID: string, clock: int) returns (r: Option<Delivery>)
      modifies this
      ensures entries == Prune(old(entries), clock, ttl)
      ensures r == if deliveryID in entries then Some(entries[deliveryID]) else None
    {
      PruneExpired(clock);
      return if deliveryID in entries then Some(entries[deliveryID]) else None;
    }

    method Snapshot(now: int) returns (c: Counts)
      modifies this
      ensures entries == Prune(old(entries), now, ttl) && CountsOf(c, entries)
    {
      hide Prune, WithStatus, Signed;
      PruneExpired(now);
      c := Counts(|entries|, map[], 0, 0);
      ghost var pruned := entries;
      ghost var seen: Entries := map[];
      var left := entries.Keys;
      NothingCounted();
      while left != {}
        invariant entries == pruned && left <= entries.Keys && c.total == |entries|
        invariant Split(entries, seen, left)
        invariant CountsOf(c.(total := |seen|), seen)
        decreases left
      {
        var id :| id in left;
        var d := entries[id];
        c := CountOne(seen, c, id, d);
        seen := seen[id := d];
        left := left - {id};
      }
      assert seen == entries;
    }
  }

  /** The entries already counted are those not left. */
  ghost predicate Split(entries: Entries, seen: Entries, left: set<string>) {
    seen == map id | id in entries && id !in left :: entries[id]
  }

  /** One turn of the counting loop. */
  method CountOne(ghost seen: Entries, c: Counts, id: string, d: Delivery) returns (r: Counts)
    requires id !in seen && CountsOf(c.(total := |seen|), seen)
    ensures r.total == c.total && CountsOf(r.(total := |seen[id := d]|), seen[id := d])
  {
    hide WithStatus, Signed;
    OneMoreEntry(seen, id, d);
    r := c.(byStatus := c.byStatus[d.status := 1 + if d.status in c.byStatus then c.byStatus[d.status] else 0]);
    if d.status == Duplicate {
      r := r.(deduplicated := r.deduplicated + 1);
    }
    if d.signature != "" {
      r := r.(replayRecorded := r.replayRecorded + 1);
    }
  }

  lemma OneMoreEntry(seen: Entries, id: string, d: Delivery)
    requires id !in seen
    ensures forall st :: |WithStatus(seen[id := d], st)| == |WithStatus(seen, st)| + if d.status == st then 1 else 0
    ensures |Signed(seen[id := d])| == |Signed(seen)| + if d.signature != "" then 1 else 0
  {
    hide Signed, WithStatus;
    forall st
      ensures |WithStatus(seen[id := d], st)| == |WithStatus(seen, st)| + if d.status == st then 1 else 0
    {
      OneMoreOf(seen, id, d, st);
    }
    OneMoreSigned(seen, id, d);
  }

  lemma OneMoreOf(seen: Entries, id: string, d: Delivery, st: Status)
    requires id !in seen
    ensures |WithStatus(seen[id := d], st)| == |WithStatus(seen, st)| + if d.status == st then 1 else 0
  {
    assert WithStatus(seen[id := d], st) == if d.status == st then WithStatus(seen, st) + {id} else WithStatus(seen, st);
  }

  lemma OneMoreSigned(seen: Entries, id: string, d: Delivery)
    requires id !in seen
    ensures |Signed(seen[id := d])| == |Signed(seen)| + if d.signature != "" then 1 else 0
  {
    assert Signed(seen[id := d]) == if d.signature != "" then Signed(seen) + {id} else Signed(seen);
  }

  lemma NothingCounted()
    ensures forall st :: WithStatus(map[], st) == {}
    ensures Signed(map[]) == {}
  {
  }

  // ----- What a call does -----

  /** A delivery that is stored and not older than its time to live is a duplicate: it is marked as
      one and otherwise kept. Any other is stored as it came. Expired deliveries go, all others
      stay as they are. */
  lemma RememberAnswers(entries: Entries, d: Delivery, now: int, ttl: int)
    ensures var (after, duplicate) := Remember(entries, d, now, ttl);
            var id := d.deliveryID;
            && (duplicate <==> id in entries && now <= entries[id].receivedAt + ttl)
            && id in after && after[id] == (if duplicate then entries[id].(status := Duplicate) else d)
            && forall other :: other != id ==>
                 && (other in after <==> other in entries && now <= entries[other].receivedAt + ttl)
                 && (other in after ==> after[other] == entries[other])
  {
  }

  /** Marking sets the status, and the error's text or none, of a stored delivery and touches nothing
      else. */
  lemma MarkAnswers(entries: Entries, id: string, status: Status, err: Option<string>)
    ensures var (after, found) := MarkStatus(entries, id, status, err);
            && (found <==> id in entries) && after.Keys == entries.Keys
            && (found ==> after[id] == entries[id].(status := status, lastError := if err.Some? then err.value else ""))
            && forall other :: other in entries && other != id ==> after[other] == entries[other]
  {
  }

  lemma PruneAnswers(entries: Entries, now: int, ttl: int)
    ensures forall id :: id in Prune(entries, now, ttl) <==> id in entries && now <= entries[id].receivedAt + ttl
    ensures forall id :: id in Prune(entries, now, ttl) ==> Prune(entries, now, ttl)[id] == entries[id]
  {
  }

  // ----- Totals -----

  function CountUnder(c: Counts, st: Status): nat { if st in c.byStatus then c.byStatus[st] else 0 }

  /** Every stored delivery is counted under exactly one status. */
  lemma {:induction false} StatusesPartition(entries: Entries)
    ensures |WithStatus(entries, Received)| + |WithStatus(entries, Duplicate)| + |WithStatus(entries, Enqueued)|
            + |WithStatus(entries, Processed)| + |WithStatus(entries, Failed)| == |entries|
    decreases |entries|
  {
    hide WithStatus, Signed;
    if entries == map[] {
      NothingCounted();
    } else {
      var id :| id in entries;
      var rest := Without(entries, id);
      StatusesPartition(rest);
      OneMoreEntry(rest, id, entries[id]);
    }
  }

  function Without(entries: Entries, id: string): (rest: Entries)
    requires id in entries
    ensures id !in rest && rest[id := entries[id]] == entries && |rest| == |entries| - 1
  {
    var rest := map i | i in entries && i != id :: entries[i];
    assert entries.Keys == rest.Keys + {id};
    rest
  }

  /** The status counts of a snapshot add up to its total. */
  lemma SnapshotAddsUp(c: Counts, entries: Entries)
    requires CountsOf(c, entries)
    ensures CountUnder(c, Received) + CountUnder(c, Duplicate) + CountUnder(c, Enqueued)
            + CountUnder(c, Processed) + CountUnder(c, Failed) == c.total
    ensures CountUnder(c, Duplicate) == c.deduplicated <= c.total
  {
    hide WithStatus, Signed;
    StatusesPartition(entries);
  }

  // ----- Accepted once -----

  datatype Op = RememberOp(delivery: Delivery) | MarkOp(id: string, status: Status, err: Option<string>) | ReadOp

  datatype Event = Event(now: int, op: Op)

  function Apply(entries: Entries, e: Event, ttl: int): Entries {
    match e.op
    case RememberOp(d) => Remember(entries, d, e.now, ttl).0
    case MarkOp(id, status, err) => MarkStatus(entries, id, status, err).0
    case ReadOp => Prune(entries, e.now, ttl)
  }

  predicate Run(states: seq<Entries>, events: seq<Event>, ttl: int) {
    && |states| == |events| + 1
    && (forall i :: 0 <= i < |events| ==> states[i + 1] == Apply(states[i], events[i], ttl))
    && (forall i, j :: 0 <= i <= j < |events| ==> events[i].now <= events[j].now)
  }

  predicate Accepts(entries: Entries, e: Event, ttl: int) {
    e.op.RememberOp? && !Remember(entries, e.op.delivery, e.now, ttl).1
  }

  /** Only the status and the last error of a stored delivery ever change. */
  predicate SameDelivery(stored: Delivery, accepted: Delivery) {
    stored == accepted.(status := stored.status, lastError := stored.lastError)
  }

  predicate Kept(entries: Entries, d: Delivery) { d.deliveryID in entries && SameDelivery(entries[d.deliveryID], d) }

  lemma {:induction false} KeptWhileAlive(states: seq<Entries>, events: seq<Event>, ttl: int, a: nat, m: nat)
    requires Run(states, events, ttl) && a < m <= |events| && Accepts(states[a], events[a], ttl)
    requires events[m - 1].now <= events[a].op.delivery.receivedAt + ttl
    ensures Kept(states[m], events[a].op.delivery)
    decreases m
  {
    if m > a + 1 {
      assert events[m - 2].now <= events[m - 1].now;
      KeptWhileAlive(states, events, ttl, a, m - 1);
    }
    assert states[m] == Apply(states[m - 1], events[m - 1], ttl);
  }

  /** Within its time to live an accepted delivery is not accepted again: every later
      `Remember` of its identifier reports a duplicate, and the stored delivery keeps the
      original payload and receive time, whatever happens in between. */
  lemma AcceptedOnce(states: seq<Entries>, events: seq<Event>, ttl: int, a: nat, b: nat)
    requires Run(states, events, ttl) && a < b < |events| && Accepts(states[a], events[a], ttl)
    requires events[b].now <= events[a].op.delivery.receivedAt + ttl
    ensures events[b].op.RememberOp? && events[b].op.delivery.deliveryID == events[a].op.delivery.deliveryID
            ==> !Accepts(states[b], events[b], ttl)
    ensures Kept(states[b + 1], events[a].op.delivery)
  {
    assert events[b - 1].now <= events[b].now;
    KeptWhileAlive(states, events, ttl, a, b);
    KeptWhileAlive(states, events, ttl, a, b + 1);
  }

  ghost predicate NotAcceptedBetween(states: seq<Entries>, events: seq<Event>, ttl: int, a: nat, b: nat, id: string)
    requires |states| == |events| + 1
  {
    forall i :: a < i < b && i < |events| && Accepts(states[i], events[i], ttl) ==> events[i].op.delivery.deliveryID != id
  }

  lemma {:induction false} KeptOrGone(states: seq<Entries>, events: seq<Event>, ttl: int, a: nat, m: nat)
    requires Run(states, events, ttl) && a < m <= |events| && Accepts(states[a], events[a], ttl)
    requires NotAcceptedBetween(states, events, ttl, a, m, events[a].op.delivery.deliveryID)
    ensures events[a].op.delivery.deliveryID in states[m] ==> Kept(states[m], events[a].op.delivery)
    decreases m
  {
    if m > a + 1 {
      KeptOrGone(states, events, ttl, a, m - 1);
    }
    assert states[m] == Apply(states[m - 1], events[m - 1], ttl);
  }

  /** The bound is sharp: the next time a delivery is remembered after it was accepted, it is
      accepted again exactly when its time to live has passed. */
  lemma AcceptedAgainIffExpired(states: seq<Entries>, events: seq<Event>, ttl: int, a: nat, b: nat)
    requires Run(states, events, ttl) && a < b < |events| && Accepts(states[a], events[a], ttl)
    requires events[b].op.RememberOp? && events[b].op.delivery.deliveryID == events[a].op.delivery.deliveryID
    requires NotAcceptedBetween(states, events, ttl, a, b, events[a].op.delivery.deliveryID)
    ensures Accepts(states[b], events[b], ttl) <==> events[b].now > events[a].op.delivery.receivedAt + ttl
  {
    KeptOrGone(states, events, ttl, a, b);
    if events[b].now <= events[a].op.delivery.receivedAt + ttl {
      AcceptedOnce(states, events, ttl, a, b);
    }
  }
}
