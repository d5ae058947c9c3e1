/** Which records reach whom, and what is remembered of requests: over single steps and whole runs of a device. */
module DeviceRecords {
  import opened Wrappers
  import opened DeviceSync
  import opened DeviceApprovals

  // ---------------------------------------------------------------- every reachable target

  /** How often a device is listed. */
  function Listed(devices: seq<DeviceId>, d: DeviceId): nat {
    if devices == [] then 0 else (if devices[0] == d then 1 else 0) + Listed(devices[1..], d)
  }

  /** How many of the writes carry this record to this device. */
  function Carried(writes: seq<Write>, d: DeviceId, record: Record): nat {
    if writes == [] then 0
    else (if writes[0].to == d && writes[0].record == record then 1 else 0) + Carried(writes[1..], d, record)
  }

  lemma {:induction false} ListedAppend(devices: seq<DeviceId>, last: DeviceId, d: DeviceId)
    ensures Listed(devices + [last], d) == Listed(devices, d) + if last == d then 1 else 0
  {
    if devices == [] {
      assert [last][1..] == [];
    } else {
      assert (devices + [last])[1..] == devices[1..] + [last];
      ListedAppend(devices[1..], last, d);
    }
  }

  lemma {:induction false} CarriedAppend(writes: seq<Write>, last: Write, d: DeviceId, record: Record)
    ensures Carried(writes + [last], d, record) == Carried(writes, d, record) + if last.to == d && last.record == record then 1 else 0
  {
    if writes == [] {
      assert [last][1..] == [];
    } else {
      assert (writes + [last])[1..] == writes[1..] + [last];
      CarriedAppend(writes[1..], last, d, record);
    }
  }

  lemma {:induction false} BroadcastReaches(targets: seq<DeviceId>, record: Record, approved: set<DeviceId>,
                                            unreachable: set<DeviceId>, d: DeviceId)
    ensures Carried(Broadcast(targets, record, approved, unreachable), d, record)
         == if d in unreachable then 0 else Listed(targets, d)
    decreases |targets|
  {
    if targets != [] {
      var k := |targets| - 1;
      BroadcastReaches(targets[..k], record, approved, unreachable, d);
      assert targets == targets[..k] + [targets[k]];
      ListedAppend(targets[..k], targets[k], d);
      CarriedAppend(Broadcast(targets[..k], record, approved, unreachable), Write(targets[k], record, approved), d, record);
    }
  }

  lemma {:induction false} TargetsAreApproved(siblings: seq<DeviceId>, approved: set<DeviceId>, d: DeviceId)
    ensures Listed(Targets(siblings, approved), d) == if d in approved then Listed(siblings, d) else 0
    decreases |siblings|
  {
    if siblings != [] {
      var k := |siblings| - 1;
      TargetsAreApproved(siblings[..k], approved, d);
      assert siblings == siblings[..k] + [siblings[k]];
      ListedAppend(siblings[..k], siblings[k], d);
      ListedAppend(Targets(siblings[..k], approved), siblings[k], d);
    }
  }

  /** A change of ours goes to every sibling that is approved and can be reached, once for each time it is listed, and to nobody else. */
  lemma MirrorReachesApproved(s: State, siblings: seq<DeviceId>, raw: Raw, unreachable: set<DeviceId>, d: DeviceId)
    ensures var after := Next(s, Mirroring(siblings, raw, unreachable));
            && s.written <= after.written && after == s.(written := after.written)
            && Carried(after.written[|s.written|..], d, Mirror(raw))
               == if d in s.approvals && d !in unreachable then Listed(siblings, d) else 0
  {
    var approved := s.approvals.Keys;
    var more := Broadcast(Targets(siblings, approved), Mirror(raw), approved, unreachable);
    assert (s.written + more)[|s.written|..] == more;
    BroadcastReaches(Targets(siblings, approved), Mirror(raw), approved, unreachable, d);
    TargetsAreApproved(siblings, approved, d);
  }

  /** A request goes to every sibling that can be reached. */
  lemma RequestReachesAll(s: State, siblings: seq<DeviceId>, transfer: Transfer, unreachable: set<DeviceId>, d: DeviceId)
    ensures var after := Next(s, Asking(siblings, transfer, unreachable));
            && s.written <= after.written && after == s.(written := after.written)
            && Carried(after.written[|s.written|..], d, Request(transfer)) == if d in unreachable then 0 else Listed(siblings, d)
  {
    var more := Broadcast(siblings, Request(transfer), s.approvals.Keys, unreachable);
    assert (s.written + more)[|s.written|..] == more;
    BroadcastReaches(siblings, Request(transfer), s.approvals.Keys, unreachable, d);
  }

  // ---------------------------------------------------------------- the approval goes first

  ghost predicate AnnouncedBefore(written: seq<Write>, n: nat)
    requires n < |written|
  {
    exists m :: 0 <= m < n && written[m].to == written[n].to && written[m].record == Approval(TransferOf(written[n].record), true)
  }

  function TransferOf(record: Record): Transfer {
    if record.Mirror? then "" else record.transfer
  }

  predicate OfHistory(record: Record) {
    record.Offer? || record.Item? || record.Complete?
  }

  ghost predicate HistoryIsAnnounced(written: seq<Write>) {
    forall n :: 0 <= n < |written| && OfHistory(written[n].record) ==>
      AnnouncedBefore(written, n)
  }

  lemma ApprovalGoesFirst(s: State, e: Event)
    requires HistoryIsAnnounced(s.written)
    ensures HistoryIsAnnounced(Next(s, e).written)
  {
    var after := Next(s, e).written;
    NextOnlyAppends(s, e);
    forall n | 0 <= n < |after| && OfHistory(after[n].record)
      ensures AnnouncedBefore(after, n)
    {
      if n < |s.written| {
        assert AnnouncedBefore(s.written, n);
        var m :| 0 <= m < n && s.written[m].to == s.written[n].to
                 && s.written[m].record == Approval(TransferOf(s.written[n].record), true);
        assert after[m] == s.written[m];
      } else {
        assert after[|s.written|].record == Approval(TransferOf(after[n].record), true) && after[|s.written|].to == after[n].to;
      }
    }
  }

  /** Writes are only added; those of an approval start with the announcement, and the history is of its transfer. */
  lemma NextOnlyAppends(s: State, e: Event)
    ensures s.written <= Next(s, e).written
    ensures forall n :: |s.written| <= n < |Next(s, e).written| && OfHistory(Next(s, e).written[n].record) ==>
              && e.Approving? && |s.written| < n
              && Next(s, e).written[|s.written|].record == Approval(e.transfer, true) && Next(s, e).written[|s.written|].to == e.device
              && Next(s, e).written[n].to == e.device && TransferOf(Next(s, e).written[n].record) == e.transfer
  {
    match e
    case Mirroring(siblings, raw, unreachable) =>
      var more := Broadcast(Targets(siblings, s.approvals.Keys), Mirror(raw), s.approvals.Keys, unreachable);
      forall i | 0 <= i < |more| ensures more[i].record == Mirror(raw) {
        BroadcastIsTo(Targets(siblings, s.approvals.Keys), Mirror(raw), s.approvals.Keys, unreachable, i);
      }
    case Asking(siblings, transfer, unreachable) =>
      var more := Broadcast(siblings, Request(transfer), s.approvals.Keys, unreachable);
      forall i | 0 <= i < |more| ensures more[i].record == Request(transfer) {
        BroadcastIsTo(siblings, Request(transfer), s.approvals.Keys, unreachable, i);
      }
    case Approving(device, known, transfer, items, healthy) =>
      BackfillIsOf(transfer, items);
      hide Backfill, Reach;
    case _ =>
  }

  lemma BackfillIsOf(transfer: Transfer, items: seq<Raw>)
    ensures forall i :: 0 <= i < |Backfill(transfer, items)| ==> TransferOf(Backfill(transfer, items)[i]) == transfer
  {
    hide ChainOf;
  }

  /** In every run, history is sent to a device only after the approval that announces its transfer was. */
  lemma {:induction false} HistoryFollowsItsApproval(events: seq<Event>)
    ensures HistoryIsAnnounced(Run(events).written)
    decreases |events|
  {
    if events != [] {
      HistoryFollowsItsApproval(events[..|events| - 1]);
      ApprovalGoesFirst(Run(events[..|events| - 1]), events[|events| - 1]);
    }
  }

  /**
   Approving a device writes the approval, the offer, the items and the closing record to it, in this order, up to
   the first relay failure; the approval counts from the moment the first of them is written.
   */
  lemma ApprovalSendsInOrder(s: State, device: DeviceId, transfer: Transfer, items: seq<Raw>, healthy: nat)
    requires |items| < 4294967296
    ensures var after := Next(s, Approving(device, true, transfer, items, healthy));
            var all := [Approval(transfer, true), Offer(transfer, |items|)] + ItemRecords(transfer, items)
                       + [Complete(transfer, |items|, Some(ChainOf(transfer, items)))];
            var n := if healthy < |items| + 3 then healthy else |items| + 3;
            && |after.written| == |s.written| + n && s.written <= after.written && n <= |all|
            && (forall i :: 0 <= i < n ==> after.written[|s.written| + i].to == device && after.written[|s.written| + i].record == all[i])
            && after.approvals == (if healthy > 0 then s.approvals[device := transfer] else s.approvals)
  {
    hide ChainOf;
    var all := [Approval(transfer, true), Offer(transfer, |items|)] + ItemRecords(transfer, items)
               + [Complete(transfer, |items|, Some(ChainOf(transfer, items)))];
    assert all == [Approval(transfer, true)] + Backfill(transfer, items);
  }

  // ---------------------------------------------------------------- requests waiting for a decision

  /** The step settles a device's request: a denial, or an approval whose history was sent to the end. */
  predicate Settles(e: Event, device: DeviceId) {
    || e == Denying(device)
    || (e.Approving? && e.device == device && e.known && |e.items| + 3 <= e.healthy && |e.items| < 4294967296)
  }

  /** The transfer of the device's last request, unless it was settled since. */
  function Waiting(events: seq<Event>, device: DeviceId): seq<Transfer>
    decreases |events|
  {
    if events == [] then []
    else
      var e := events[|events| - 1];
      if e.Arriving? && e.from == device && e.record.Request? then [e.record.transfer]
      else if Settles(e, device) then []
      else Waiting(events[..|events| - 1], device)
  }

  function Pending(s: State, device: DeviceId): seq<Transfer> {
    if device in s.pending then [s.pending[device]] else []
  }

  /** A request waits from its arrival until a human denies it or the history it asked for was sent. */
  lemma {:induction false} RequestWaitsUntilSettled(events: seq<Event>, device: DeviceId)
    ensures Pending(Run(events), device) == Waiting(events, device)
    decreases |events|
  {
    if events != [] {
      RequestWaitsUntilSettled(events[..|events| - 1], device);
      PendingStep(Run(events[..|events| - 1]), events[|events| - 1], device);
      hide Next;
    }
  }

  lemma PendingStep(s: State, e: Event, device: DeviceId)
    ensures Pending(Next(s, e), device) ==
            if e.Arriving? && e.from == device && e.record.Request? then [e.record.transfer]
            else if Settles(e, device) then [] else Pending(s, device)
  {
  }

  // ---------------------------------------------------------------- the last two hundred ids

  /** An id counts as seen exactly when it is among the last 200 recorded. */
  lemma SeenExactlyWhenAmongTheLast(events: seq<Event>, id: Transfer)
    ensures var past := Accepted(events);
            id in Run(events).seen <==> exists i :: 0 <= i < |past| && |past| - 200 <= i && past[i] == id
  {
    SeenIsTheLastFew(events);
    var past, few := Accepted(events), LastFew(Accepted(events));
    var cut := |past| - |few|;
    assert forall i :: 0 <= i < |few| ==> few[i] == past[cut + i];
    if exists i :: 0 <= i < |past| && |past| - 200 <= i && past[i] == id {
      var i :| 0 <= i < |past| && |past| - 200 <= i && past[i] == id;
      assert few[i - cut] == id;
    }
  }
}
