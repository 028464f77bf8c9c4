/**
 The background reporter of usage events: every round fetches the oldest unreported events,
 sends them as one batch and then marks them.

 Events are known by their position; `deliveries` is the history of the batches that the
 metering service accepted, with whether marking them succeeded.
 */
module UsageReporter {
  import opened Sequences

  datatype Event = Event(timestamp: int, reported: bool)

  datatype Delivery = Delivery(ids: seq<nat>, marked: bool)

  datatype Outbox = Outbox(events: seq<Event>, deliveries: seq<Delivery>)

  datatype Step =
    | Record(timestamp: int)
    | Report(fetched: bool, sent: bool, marked: bool)

  /** A limit that is not positive stands for the default. */
  function BatchLimit(limit: int): (n: nat)
    ensures n > 0
  {
    if limit <= 0 then 100 else limit
  }

  ghost function Unreported(events: seq<Event>): set<nat> {
    set i: nat | i < |events| && !events[i].reported
  }

  /** At most `limit` unreported events, oldest first; ties come in any order. */
  ghost predicate OldestBatch(events: seq<Event>, limit: nat, batch: seq<nat>) {
    && NoDuplicates(batch) && Elements(batch) <= Unreported(events)
    && |batch| == (if |Unreported(events)| < limit then |Unreported(events)| else limit)
    && Ascending(events, batch)
    && (forall b, u :: b in Elements(batch) && u in Unreported(events) - Elements(batch) ==>
          events[b].timestamp <= events[u].timestamp)
  }

  ghost predicate Ascending(events: seq<Event>, ids: seq<nat>) {
    && (forall i :: 0 <= i < |ids| ==> ids[i] < |events|)
    && (forall i, j :: 0 <= i < j < |ids| ==> events[ids[i]].timestamp <= events[ids[j]].timestamp)
  }

  function Mark(events: seq<Event>, ids: seq<nat>): seq<Event> {
    seq(|events|, i requires 0 <= i < |events| => if i in ids then events[i].(reported := true) else events[i])
  }

  /** A round that sends the batch; a failed send leaves everything as it was. */
  function Deliver(s: Outbox, batch: seq<nat>, sent: bool, marked: bool): Outbox {
    if !sent then s
    else Outbox(if marked then Mark(s.events, batch) else s.events, s.deliveries + [Delivery(batch, marked)])
  }

  ghost predicate Next(limit: nat, s: Outbox, step: Step, t: Outbox) {
    match step
    case Record(timestamp) => t == s.(events := s.events + [Event(timestamp, false)])
    case Report(fetched, sent, marked) =>
      if !fetched || Unreported(s.events) == {} then t == s
      else exists batch: seq<nat> :: OldestBatch(s.events, limit, batch) && t == Deliver(s, batch, sent, marked)
  }

  // ----- The reporter

  lemma {:induction false} OldestExists(events: seq<Event>, ids: set<nat>) returns (id: nat)
    requires ids != {} && forall i :: i in ids ==> i < |events|
    ensures id in ids && forall i :: i in ids ==> events[id].timestamp <= events[i].timestamp
  {
    id :| id in ids;
    if ids != {id} {
      var other := OldestExists(events, ids - {id});
      if events[other].timestamp < events[id].timestamp {
        id := other;
      }
    }
  }

  ghost predicate OldestSoFar(events: seq<Event>, batch: seq<nat>, rest: set<nat>) {
    && rest == Unreported(events) - Elements(batch) && Elements(batch) <= Unreported(events)
    && NoDuplicates(batch) && Ascending(events, batch)
    && forall b, u :: b in Elements(batch) && u in rest ==> events[b].timestamp <= events[u].timestamp
  }

  lemma AddOldest(events: seq<Event>, batch: seq<nat>, rest: set<nat>, id: nat)
    requires OldestSoFar(events, batch, rest) && id in rest
    requires forall i :: i in rest ==> events[id].timestamp <= events[i].timestamp
    ensures OldestSoFar(events, batch + [id], rest - {id})
  {
    ElementsAppend(batch, id);
    assert forall i :: 0 <= i < |batch| ==> batch[i] in Elements(batch);
  }

  class Reporter {
    var events: seq<Event>
    const batchSize: int
    ghost var deliveries: seq<Delivery>

    ghost function Contents(): Outbox
      reads this
    {
      Outbox(events, deliveries)
    }

    constructor (batchSize: int)
      ensures Contents() == Outbox([], []) && this.batchSize == batchSize
    {
      this.batchSize := batchSize;
      events, deliveries := [], [];
    }

    method RecordEvent(timestamp: int)
      modifies this
      ensures Next(BatchLimit(batchSize), old(Contents()), Record(timestamp), Contents())
    {
      events := events + [Event(timestamp, false)];
    }

    method GetUnreportedEvents(limit: int) returns (batch: seq<nat>)
      ensures OldestBatch(events, BatchLimit(limit), batch)
      ensures |batch| <= if limit <= 0 then 100 else limit
    {
      batch := [];
      var rest := set i: nat | i < |events| && !events[i].reported;
      while |batch| < BatchLimit(limit) && rest != {}
        invariant OldestSoFar(events, batch, rest) && |batch| <= BatchLimit(limit)
        decreases rest
      {
        ghost var oldest := OldestExists(events, rest);
        var id :| id in rest && forall i :: i in rest ==> events[id].timestamp <= events[i].timestamp;
        AddOldest(events, batch, rest, id);
        batch := batch + [id];
        rest := rest - {id};
      }
      DistinctCardinality(batch);
      SubsetSize(Elements(batch), Unreported(events));
      if rest == {} {
        assert Unreported(events) == Elements(batch);
      }
    }

    method ReportBatch(fetched: bool, sent: bool, marked: bool)
      modifies this
      ensures Next(BatchLimit(batchSize), old(Contents()), Report(fetched, sent, marked), Contents())
      ensures !fetched || !sent ==> Contents() == old(Contents())
    {
      if !fetched {
        return;
      }
      var batch := GetUnreportedEvents(batchSize);
      if |batch| == 0 {
        assert Unreported(events) == {};
        return;
      }
      assert batch[0] in Elements(batch);
      if !sent {
        assert Contents() == Deliver(Contents(), batch, sent, marked);
        return;
      }
      var ids: seq<nat> := [];
      for i := 0 to |batch|
        invariant ids == batch[..i]
      {
        ids := ids + [batch[i]];
      }
      deliveries := deliveries + [Delivery(batch, marked)];
      if !marked {
        return;
      }
      events := Mark(events, ids);
    }
  }

  // ----- What every run keeps

  /** How many accepted and marked batches hold the event. */
  ghost function MarkedCount(deliveries: seq<Delivery>, id: nat): nat {
    if deliveries == [] then 0
    else
      var last := deliveries[|deliveries| - 1];
      MarkedCount(deliveries[..|deliveries| - 1], id) + if last.marked && id in Elements(last.ids) then 1 else 0
  }

  ghost function DeliveredCount(deliveries: seq<Delivery>, id: nat): nat {
    if deliveries == [] then 0
    else
      var last := deliveries[|deliveries| - 1];
      DeliveredCount(deliveries[..|deliveries| - 1], id) + if id in Elements(last.ids) then 1 else 0
  }

  /** An event is marked reported exactly when one accepted batch with it was marked, and there is only one. */
  ghost predicate Accounted(s: Outbox) {
    forall id: nat :: MarkedCount(s.deliveries, id) == if id < |s.events| && s.events[id].reported then 1 else 0
  }

  lemma MarkedByDelivery(s: Outbox, batch: seq<nat>, marked: bool, limit: nat)
    requires Accounted(s) && OldestBatch(s.events, limit, batch)
    ensures Accounted(Deliver(s, batch, true, marked))
  {
    var t := Deliver(s, batch, true, marked);
    assert t.deliveries[..|s.deliveries|] == s.deliveries;
    forall id: nat
      ensures MarkedCount(t.deliveries, id) == if id < |t.events| && t.events[id].reported then 1 else 0
    {
      assert id in Elements(batch) ==> id in Unreported(s.events);
    }
  }

  lemma NextKeepsAccounted(limit: nat, s: Outbox, step: Step, t: Outbox)
    requires Accounted(s) && Next(limit, s, step, t)
    ensures Accounted(t)
  {
    match step
    case Record(timestamp) =>
      assert MarkedCount(s.deliveries, |s.events|) == 0;
    case Report(fetched, sent, marked) =>
      if t != s {
        var batch: seq<nat> :| OldestBatch(s.events, limit, batch) && t == Deliver(s, batch, sent, marked);
        MarkedByDelivery(s, batch, marked, limit);
      }
  }

  ghost predicate IsRun(limit: nat, trace: seq<Outbox>, steps: seq<Step>) {
    |trace| == |steps| + 1 && forall i :: 0 <= i < |steps| ==> Next(limit, trace[i], steps[i], trace[i + 1])
  }

  lemma {:induction false} EveryRunAccounts(limit: nat, trace: seq<Outbox>, steps: seq<Step>, i: nat)
    requires IsRun(limit, trace, steps) && trace[0] == Outbox([], []) && i < |trace|
    ensures Accounted(trace[i])
  {
    if i > 0 {
      EveryRunAccounts(limit, trace, steps, i - 1);
      NextKeepsAccounted(limit, trace[i - 1], steps[i - 1], trace[i]);
    }
  }

  // ----- Without marking failures: exactly once, oldest first

  ghost predicate AllMarked(s: Outbox) {
    forall i :: 0 <= i < |s.deliveries| ==> s.deliveries[i].marked
  }

  lemma {:induction false} CountsAgree(deliveries: seq<Delivery>, id: nat)
    requires forall i :: 0 <= i < |deliveries| ==> deliveries[i].marked
    ensures DeliveredCount(deliveries, id) == MarkedCount(deliveries, id)
  {
    if deliveries != [] {
      CountsAgree(deliveries[..|deliveries| - 1], id);
    }
  }

  ghost predicate MarkingSucceeds(steps: seq<Step>) {
    forall i :: 0 <= i < |steps| && steps[i].Report? ==> steps[i].marked
  }

  /** When marking never fails, a reported event is in exactly one accepted batch and any other event in none. */
  lemma DeliveredExactlyOnce(limit: nat, trace: seq<Outbox>, steps: seq<Step>, i: nat, id: nat)
    requires IsRun(limit, trace, steps) && trace[0] == Outbox([], []) && i < |trace| && MarkingSucceeds(steps)
    ensures DeliveredCount(trace[i].deliveries, id)
         == if id < |trace[i].events| && trace[i].events[id].reported then 1 else 0
  {
    EveryRunAccounts(limit, trace, steps, i);
    EveryDeliveryMarked(limit, trace, steps, i);
    CountsAgree(trace[i].deliveries, id);
  }

  lemma {:induction false} EveryDeliveryMarked(limit: nat, trace: seq<Outbox>, steps: seq<Step>, i: nat)
    requires IsRun(limit, trace, steps) && trace[0] == Outbox([], []) && i < |trace| && MarkingSucceeds(steps)
    ensures AllMarked(trace[i])
  {
    if i > 0 {
      EveryDeliveryMarked(limit, trace, steps, i - 1);
      assert Next(limit, trace[i - 1], steps[i - 1], trace[i]);
    }
  }

  /** The events of the marked batches, in the order they were sent. */
  ghost function ReportedOrder(deliveries: seq<Delivery>): seq<nat> {
    if deliveries == [] then []
    else
      var last := deliveries[|deliveries| - 1];
      ReportedOrder(deliveries[..|deliveries| - 1]) + if last.marked then last.ids else []
  }

  /** The reported events were sent in the order they happened, and none is younger than one still waiting. */
  ghost predicate OldestFirst(s: Outbox) {
    && Ascending(s.events, ReportedOrder(s.deliveries))
    && (forall r, u :: r in Elements(ReportedOrder(s.deliveries)) && u in Unreported(s.events) ==>
          s.events[r].timestamp <= s.events[u].timestamp)
  }

  /** Events are recorded with the present time, so a new one is at least as young as the others. */
  ghost predicate ClockAdvances(s: Outbox, step: Step) {
    step.Record? ==> forall i :: 0 <= i < |s.events| ==> s.events[i].timestamp <= step.timestamp
  }

  lemma DeliveryKeepsOldestFirst(limit: nat, s: Outbox, batch: seq<nat>, marked: bool)
    requires OldestFirst(s) && OldestBatch(s.events, limit, batch)
    ensures OldestFirst(Deliver(s, batch, true, marked))
  {
    var t := Deliver(s, batch, true, marked);
    var sent := ReportedOrder(s.deliveries);
    assert t.deliveries[..|s.deliveries|] == s.deliveries;
    var all := ReportedOrder(t.deliveries);
    assert all == sent + if marked then batch else [];
    assert forall i :: 0 <= i < |t.events| ==> t.events[i].timestamp == s.events[i].timestamp;
    assert forall i :: 0 <= i < |sent| ==> sent[i] in Elements(sent);
    assert forall i :: 0 <= i < |batch| ==> batch[i] in Elements(batch) && batch[i] in Unreported(s.events);
    assert Unreported(t.events) <= Unreported(s.events) - if marked then Elements(batch) else {};
  }

  lemma NextKeepsOldestFirst(limit: nat, s: Outbox, step: Step, t: Outbox)
    requires OldestFirst(s) && Next(limit, s, step, t) && ClockAdvances(s, step)
    ensures OldestFirst(t)
  {
    match step
    case Record(timestamp) =>
      assert Unreported(t.events) == Unreported(s.events) + {|s.events|};
      assert forall i :: 0 <= i < |ReportedOrder(s.deliveries)| ==>
        ReportedOrder(s.deliveries)[i] in Elements(ReportedOrder(s.deliveries));
    case Report(fetched, sent, marked) =>
      if t != s {
        var batch: seq<nat> :| OldestBatch(s.events, limit, batch) && t == Deliver(s, batch, sent, marked);
        DeliveryKeepsOldestFirst(limit, s, batch, marked);
      }
  }

  /** Over every run on an advancing clock, whatever sends and marks fail. */
  lemma {:induction false} EveryRunIsOldestFirst(limit: nat, trace: seq<Outbox>, steps: seq<Step>, i: nat)
    requires IsRun(limit, trace, steps) && trace[0] == Outbox([], []) && i < |trace|
    requires forall k :: 0 <= k < |steps| ==> ClockAdvances(trace[k], steps[k])
    ensures OldestFirst(trace[i])
  {
    if i > 0 {
      EveryRunIsOldestFirst(limit, trace, steps, i - 1);
      NextKeepsOldestFirst(limit, trace[i - 1], steps[i - 1], trace[i]);
    }
  }

  // ----- Progress

  ghost function Remaining(n: nat, sent: nat): nat {
    if sent >= n then 0 else n - sent
  }

  lemma MarkingReports(events: seq<Event>, batch: seq<nat>)
    requires NoDuplicates(batch) && Elements(batch) <= Unreported(events)
    ensures |Unreported(Mark(events, batch))| == |Unreported(events)| - |batch|
  {
    DistinctCardinality(batch);
    assert Unreported(Mark(events, batch)) == Unreported(events) - Elements(batch);
  }

  lemma RoundReports(limit: nat, s: Outbox, t: Outbox)
    requires Next(limit, s, Report(true, true, true), t)
    ensures |Unreported(t.events)| == Remaining(|Unreported(s.events)|, limit)
  {
    if Unreported(s.events) != {} {
      var batch: seq<nat> :| OldestBatch(s.events, limit, batch) && t == Deliver(s, batch, true, true);
      MarkingReports(s.events, batch);
    }
  }

  /** k successful rounds with nothing new report k batches, or everything. */
  lemma {:induction false} RoundsDrain(limit: nat, trace: seq<Outbox>, steps: seq<Step>, k: nat)
    requires IsRun(limit, trace, steps) && k < |trace|
    requires forall i :: 0 <= i < |steps| ==> steps[i] == Report(true, true, true)
    ensures |Unreported(trace[k].events)| == Remaining(|Unreported(trace[0].events)|, k * limit)
  {
    if k > 0 {
      RoundsDrain(limit, trace, steps, k - 1);
      assert steps[k - 1] == Report(true, true, true);
      RoundReports(limit, trace[k - 1], trace[k]);
      assert k * limit == (k - 1) * limit + limit;
    }
  }
  // ----- Only what was accepted is reported

  /** The round sends a batch, since something waits, and the metering service takes it. */
  ghost predicate Accepted(s: Outbox, step: Step) {
    step.Report? && step.fetched && step.sent && exists i :: 0 <= i < |s.events| && !s.events[i].reported
  }

  /** Any other round changes nothing: the fetch failed, nothing waits, or the metering service refused the batch. */
  lemma OtherRoundChangesNothing(limit: nat, s: Outbox, step: Step, t: Outbox)
    requires Next(limit, s, step, t) && step.Report? && !Accepted(s, step)
    ensures t == s
  {
    assert !step.sent || !step.fetched || Unreported(s.events) == {};
  }

  lemma AcceptedRoundDelivers(limit: nat, s: Outbox, step: Step, t: Outbox) returns (d: Delivery)
    requires Next(limit, s, step, t) && Accepted(s, step)
    ensures t.deliveries == s.deliveries + [d] && d.marked == step.marked && OldestBatch(s.events, limit, d.ids)
    ensures |t.events| == |s.events|
    ensures forall i :: 0 <= i < |s.events| ==>
      t.events[i].reported == (s.events[i].reported || (step.marked && i in d.ids))
  {
    var waiting :| 0 <= waiting < |s.events| && !s.events[waiting].reported;
    assert waiting in Unreported(s.events);
    var batch: seq<nat> :| OldestBatch(s.events, limit, batch) && t == Deliver(s, batch, step.sent, step.marked);
    d := Delivery(batch, step.marked);
  }

  lemma OtherStepDeliversNothing(limit: nat, s: Outbox, step: Step, t: Outbox)
    requires Next(limit, s, step, t) && !Accepted(s, step)
    ensures t.deliveries == s.deliveries && s.events <= t.events
    ensures forall i :: |s.events| <= i < |t.events| ==> !t.events[i].reported
  {
    if step.Report? {
      OtherRoundChangesNothing(limit, s, step, t);
    }
  }

  /** For each accepted round before point `i`, in order, whether its marking succeeded. */
  ghost function AcceptedRounds(trace: seq<Outbox>, steps: seq<Step>, i: nat): seq<bool>
    requires i <= |steps| && |trace| == |steps| + 1
  {
    if i == 0 then []
    else
      AcceptedRounds(trace, steps, i - 1)
        + if Accepted(trace[i - 1], steps[i - 1]) then [steps[i - 1].marked] else []
  }

  /** In every run the batches delivered are those of the accepted rounds, one for each, in order. */
  lemma {:induction false} DeliveriesAreAcceptedRounds(limit: nat, trace: seq<Outbox>, steps: seq<Step>, i: nat)
    requires IsRun(limit, trace, steps) && trace[0] == Outbox([], []) && i < |trace|
    ensures var rounds, ds := AcceptedRounds(trace, steps, i), trace[i].deliveries;
            |rounds| == |ds| && forall k :: 0 <= k < |ds| ==> ds[k].marked == rounds[k]
  {
    if i > 0 {
      DeliveriesAreAcceptedRounds(limit, trace, steps, i - 1);
      if Accepted(trace[i - 1], steps[i - 1]) {
        var d := AcceptedRoundDelivers(limit, trace[i - 1], steps[i - 1], trace[i]);
      } else {
        OtherStepDeliversNothing(limit, trace[i - 1], steps[i - 1], trace[i]);
      }
    }
  }

  /** The last batch delivered by the step holds the event. */
  ghost predicate JustDelivered(s: Outbox, t: Outbox, id: nat) {
    exists d :: t.deliveries == s.deliveries + [d] && id in d.ids
  }

  lemma OnlyAcceptedRoundsReport(limit: nat, s: Outbox, step: Step, t: Outbox, id: nat)
    requires Next(limit, s, step, t) && id < |t.events| && t.events[id].reported
    requires id < |s.events| ==> !s.events[id].reported
    ensures step == Report(true, true, true) && id < |s.events| && JustDelivered(s, t, id)
  {
    if Accepted(s, step) {
      var d := AcceptedRoundDelivers(limit, s, step, t);
    } else {
      OtherStepDeliversNothing(limit, s, step, t);
    }
  }

  /** In every run a reported event became so in an accepted and marked round, and was in the batch of that round. */
  lemma {:induction false} ReportedWasAccepted(limit: nat, trace: seq<Outbox>, steps: seq<Step>, i: nat, id: nat)
    returns (k: nat)
    requires IsRun(limit, trace, steps) && trace[0] == Outbox([], []) && i < |trace|
    requires id < |trace[i].events| && trace[i].events[id].reported
    ensures k < i && steps[k] == Report(true, true, true)
    ensures id < |trace[k].events| && !trace[k].events[id].reported && JustDelivered(trace[k], trace[k + 1], id)
  {
    k := i - 1;
    if id < |trace[k].events| && trace[k].events[id].reported {
      k := ReportedWasAccepted(limit, trace, steps, k, id);
    } else {
      OnlyAcceptedRoundsReport(limit, trace[k], steps[k], trace[i], id);
    }
  }
}
