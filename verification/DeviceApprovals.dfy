/** The approval gate over whole runs: who may be written to, and how an approval can come back. */
module DeviceApprovals {
  import opened DeviceSync

  /** One step of a device: a human decision, an outgoing change, or an opened record. */
  datatype Event =
    | Approving(device: DeviceId, known: bool, transfer: Transfer, items: seq<Raw>, healthy: nat)
    | Revoking(device: DeviceId)
    | Denying(device: DeviceId)
    | Mirroring(siblings: seq<DeviceId>, raw: Raw, unreachable: set<DeviceId>)
    | Asking(siblings: seq<DeviceId>, transfer: Transfer, unreachable: set<DeviceId>)
    | Arriving(from: DeviceId, record: Record, applies: bool)

  function Next(s: State, e: Event): State {
    match e
    case Approving(device, known, transfer, items, healthy) => Approve(s, device, known, transfer, items, healthy)
    case Revoking(device) => Revoke(s, device)
    case Denying(device) => Deny(s, device)
    case Mirroring(siblings, raw, unreachable) => MirrorOut(s, siblings, raw, unreachable)
    case Asking(siblings, transfer, unreachable) => Ask(s, siblings, transfer, unreachable)
    case Arriving(from, record, applies) => Handle(s, from, record, applies)
  }

  function Run(events: seq<Event>): State
    decreases |events|
  {
    if events == [] then Initial else Next(Run(events[..|events| - 1]), events[|events| - 1])
  }

  // ---------------------------------------------------------------- writes go to approved devices

  /** Requests and approvals are addressed to anyone; everything that carries data is gated. */
  predicate Gated(record: Record) {
    record.Offer? || record.Item? || record.Complete? || record.Mirror?
  }

  ghost predicate WritesAreApproved(written: seq<Write>) {
    forall i :: 0 <= i < |written| && Gated(written[i].record) ==> written[i].to in written[i].approved
  }

  /** The approvals noted with a write are those in force when it was made. */
  lemma {:induction false} BroadcastIsTo(targets: seq<DeviceId>, record: Record, approved: set<DeviceId>, unreachable: set<DeviceId>, i: nat)
    requires i < |Broadcast(targets, record, approved, unreachable)|
    ensures var w := Broadcast(targets, record, approved, unreachable)[i];
            w.to in targets && w.to !in unreachable && w.record == record && w.approved == approved
    decreases |targets|
  {
    var before := targets[..|targets| - 1];
    if i < |Broadcast(before, record, approved, unreachable)| {
      BroadcastIsTo(before, record, approved, unreachable, i);
    }
  }

  lemma NextKeepsGate(s: State, e: Event)
    requires WritesAreApproved(s.written)
    ensures WritesAreApproved(Next(s, e).written)
    ensures s.written <= Next(s, e).written
    ensures forall i :: |s.written| <= i < |Next(s, e).written| && Gated(Next(s, e).written[i].record) ==>
              Next(s, e).written[i].approved == if e.Approving? then s.approvals.Keys + {e.device} else s.approvals.Keys
  {
    match e
    case Mirroring(siblings, raw, unreachable) =>
      var targets := Targets(siblings, s.approvals.Keys);
      var more := Broadcast(targets, Mirror(raw), s.approvals.Keys, unreachable);
      forall i | 0 <= i < |more| ensures more[i].to in s.approvals.Keys && more[i].approved == s.approvals.Keys {
        BroadcastIsTo(targets, Mirror(raw), s.approvals.Keys, unreachable, i);
      }
    case Asking(siblings, transfer, unreachable) =>
      var more := Broadcast(siblings, Request(transfer), s.approvals.Keys, unreachable);
      forall i | 0 <= i < |more| ensures !Gated(more[i].record) {
        BroadcastIsTo(siblings, Request(transfer), s.approvals.Keys, unreachable, i);
      }
    case Approving(device, known, transfer, items, healthy) =>
      ApproveWrites(s, device, known, transfer, items, healthy);
    case _ =>
  }

  lemma ApproveWrites(s: State, device: DeviceId, known: bool, transfer: Transfer, items: seq<Raw>, healthy: nat)
    ensures var after := Approve(s, device, known, transfer, items, healthy);
            && s.written <= after.written
            && forall i :: |s.written| <= i < |after.written| && Gated(after.written[i].record) ==>
                 after.written[i].to == device && after.written[i].approved == s.approvals.Keys + {device}
  {
    hide Backfill, Reach;
    var after := Approve(s, device, known, transfer, items, healthy);
    if known && healthy > 0 {
      assert s.approvals[device := transfer].Keys == s.approvals.Keys + {device};
      var first := s.written + [Write(device, Approval(transfer, true), s.approvals.Keys)];
      forall i | |first| <= i < |after.written|
        ensures after.written[i].to == device && after.written[i].approved == s.approvals.Keys + {device}
      {
      }
    }
  }

  /** In every run, every record that carries data goes to a device that was approved when it was written. */
  lemma {:induction false} OnlyApprovedDevicesGetData(events: seq<Event>)
    ensures WritesAreApproved(Run(events).written)
    decreases |events|
  {
    if events != [] {
      OnlyApprovedDevicesGetData(events[..|events| - 1]);
      NextKeepsGate(Run(events[..|events| - 1]), events[|events| - 1]);
    }
  }

  // ---------------------------------------------------------------- how approvals appear

  /** Event `i` of the run puts `device` among the approved. */
  ghost predicate Grants(events: seq<Event>, i: nat, device: DeviceId)
    requires i < |events|
  {
    match events[i]
    case Approving(d, known, _, _, healthy) => d == device && known && healthy > 0
    case Arriving(from, record, _) =>
      from == device && record.Approval? && record.ranged && record.transfer !in Run(events[..i]).seen
    case _ => false
  }

  ghost predicate RevokedAfter(events: seq<Event>, i: nat, device: DeviceId) {
    exists j :: i < j < |events| && events[j] == Revoking(device)
  }

  ghost predicate StandingGrant(events: seq<Event>, device: DeviceId) {
    exists i :: 0 <= i < |events| && Grants(events, i, device) && !RevokedAfter(events, i, device)
  }

  lemma GrantsInPrefix(events: seq<Event>, i: nat, device: DeviceId)
    requires i < |events| - 1
    ensures Grants(events, i, device) == Grants(events[..|events| - 1], i, device)
  {
    var before := events[..|events| - 1];
    assert before[..i] == events[..i] && before[i] == events[i];
  }

  lemma StandingUnfolds(events: seq<Event>, device: DeviceId)
    requires events != []
    ensures var k := |events| - 1;
            StandingGrant(events, device) <==>
            Grants(events, k, device) || (StandingGrant(events[..k], device) && events[k] != Revoking(device))
  {
    var k := |events| - 1;
    var before := events[..k];
    forall i | 0 <= i < k
      ensures Grants(events, i, device) == Grants(before, i, device)
      ensures RevokedAfter(events, i, device) <==> RevokedAfter(before, i, device) || events[k] == Revoking(device)
    {
      GrantsInPrefix(events, i, device);
      if RevokedAfter(before, i, device) {
        var j :| i < j < k && before[j] == Revoking(device);
        assert events[j] == Revoking(device);
      }
      if RevokedAfter(events, i, device) && events[k] != Revoking(device) {
        var j :| i < j < |events| && events[j] == Revoking(device);
        assert before[j] == Revoking(device);
      }
    }
    hide Grants;
    assert !RevokedAfter(events, k, device);
    if StandingGrant(before, device) && events[k] != Revoking(device) {
      var i :| 0 <= i < k && Grants(before, i, device) && !RevokedAfter(before, i, device);
      assert Grants(events, i, device) && !RevokedAfter(events, i, device);
    }
    if StandingGrant(events, device) && !Grants(events, k, device) {
      var i :| 0 <= i < |events| && Grants(events, i, device) && !RevokedAfter(events, i, device);
      assert Grants(before, i, device) && !RevokedAfter(before, i, device);
    }
  }

  lemma NextApprovals(s: State, e: Event, device: DeviceId)
    ensures device in Next(s, e).approvals <==>
            || (e.Approving? && e.device == device && e.known && e.healthy > 0)
            || (e.Arriving? && e.from == device && e.record.Approval? && e.record.ranged && e.record.transfer !in s.seen)
            || (device in s.approvals && e != Revoking(device))
  {
  }

  /**
   A device is approved exactly when a human approved it here, or it sent an approval not seen before,
   and nobody revoked it since.
   */
  lemma {:induction false} ApprovedExactlyWhenGranted(events: seq<Event>, device: DeviceId)
    ensures device in Run(events).approvals <==> StandingGrant(events, device)
    decreases |events|
  {
    if events != [] {
      var k := |events| - 1;
      ApprovedExactlyWhenGranted(events[..k], device);
      StandingUnfolds(events, device);
      NextApprovals(Run(events[..k]), events[k], device);
      hide StandingGrant, Next;
    }
  }

  // ---------------------------------------------------------------- replays

  /** The transfer ids recorded over the run, in order; an id long forgotten can be recorded again. */
  ghost function Accepted(events: seq<Event>): seq<Transfer>
    decreases |events|
  {
    if events == [] then []
    else
      var k := |events| - 1;
      if AcceptsAt(events, k) then Accepted(events[..k]) + [events[k].record.transfer] else Accepted(events[..k])
  }

  /** Event `i` is an approval whose transfer id is recorded as new. */
  ghost predicate AcceptsAt(events: seq<Event>, i: nat)
    requires i < |events|
  {
    events[i].Arriving? && events[i].record.Approval? && events[i].record.transfer !in Run(events[..i]).seen
  }

  ghost predicate NoRepeats(ids: seq<Transfer>) {
    forall i, j :: 0 <= i < j < |ids| ==> ids[i] != ids[j]
  }

  lemma LastFewOfMore(past: seq<Transfer>, id: Transfer)
    requires NoRepeats(LastFew(past)) && id !in LastFew(past)
    ensures LastFew(LastFew(past) + [id]) == LastFew(past + [id])
    ensures NoRepeats(LastFew(past + [id]))
  {
    var few := LastFew(past) + [id];
    assert NoRepeats(few);
  }

  lemma NextSeen(s: State, e: Event)
    ensures Next(s, e).seen ==
            if e.Arriving? && e.record.Approval? && e.record.transfer !in s.seen
            then LastFew(s.seen + [e.record.transfer]) else s.seen
  {
  }

  /** The seen list holds the last 200 recorded ids, without repeats. */
  lemma {:induction false} SeenIsTheLastFew(events: seq<Event>)
    ensures Run(events).seen == LastFew(Accepted(events)) && NoRepeats(Run(events).seen)
    decreases |events|
  {
    if events != [] {
      var k := |events| - 1;
      SeenIsTheLastFew(events[..k]);
      hide LastFew, NoRepeats, Next;
      var s, e := Run(events[..k]), events[k];
      if AcceptsAt(events, k) {
        LastFewOfMore(Accepted(events[..k]), e.record.transfer);
        NextSeen(s, e);
      } else {
        NextSeen(s, e);
      }
    }
  }

  lemma {:induction false} AcceptedGrows(events: seq<Event>, i: nat)
    requires i <= |events|
    ensures Accepted(events[..i]) <= Accepted(events)
    decreases |events|
  {
    if i < |events| {
      var before := events[..|events| - 1];
      AcceptedGrows(before, i);
      assert before[..i] == events[..i];
    } else {
      assert events[..i] == events;
    }
  }

  lemma AcceptanceRecords(events: seq<Event>, i: nat)
    requires i < |events| && AcceptsAt(events, i)
    ensures Accepted(events[..i + 1]) == Accepted(events[..i]) + [events[i].record.transfer]
  {
    var upto := events[..i + 1];
    assert upto[..i] == events[..i] && AcceptsAt(upto, i);
  }

  /** The same transfer id is accepted twice only once at least 200 newer ids were recorded in between. */
  lemma ReplayNeedsTwoHundredNewerIds(events: seq<Event>, i: nat, j: nat)
    requires i < j < |events| && AcceptsAt(events, i) && AcceptsAt(events, j)
    requires events[i].record.transfer == events[j].record.transfer
    ensures |Accepted(events[..j])| - |Accepted(events[..i + 1])| >= 200
  {
    var t := events[i].record.transfer;
    var past := Accepted(events[..j]);
    AcceptanceRecords(events, i);
    AcceptedGrows(events[..j], i + 1);
    assert events[..j][..i + 1] == events[..i + 1];
    var p := |Accepted(events[..i])|;
    assert past[p] == t;
    SeenIsTheLastFew(events[..j]);
    RecentOrForgotten(past, p);
  }

  lemma RecentOrForgotten(ids: seq<Transfer>, p: nat)
    requires p < |ids|
    ensures ids[p] in LastFew(ids) || |ids| - (p + 1) >= MAX_SEEN
  {
    var few := LastFew(ids);
    if p >= |ids| - |few| {
      assert few[p - (|ids| - |few|)] == ids[p];
    }
  }

  /**
   A revoked device comes back only by a new human decision, or by an approval record whose id is not among
   the last 200 recorded; a replay of an approval recorded before therefore waits for 200 newer ids.
   */
  lemma RevokedStaysOutWithoutNewGrant(events: seq<Event>, r: nat, device: DeviceId)
    requires r < |events| && events[r] == Revoking(device)
    requires forall k :: r < k < |events| ==> !(events[k].Approving? && events[k].device == device)
    requires forall k :: r < k < |events| && events[k].Arriving? && events[k].from == device && events[k].record.Approval? ==>
               exists i :: 0 <= i < r && AcceptsAt(events, i) && events[i].record.transfer == events[k].record.transfer
                           && |Accepted(events[..k])| - |Accepted(events[..i + 1])| < 200
    ensures device !in Run(events).approvals
  {
    ApprovedExactlyWhenGranted(events, device);
    if StandingGrant(events, device) {
      var k :| 0 <= k < |events| && Grants(events, k, device) && !RevokedAfter(events, k, device);
      assert r <= k;
      if r < k {
        var i :| 0 <= i < r && AcceptsAt(events, i) && events[i].record.transfer == events[k].record.transfer
                 && |Accepted(events[..k])| - |Accepted(events[..i + 1])| < 200;
        ReplayNeedsTwoHundredNewerIds(events, i, k);
        assert false;
      }
    }
  }
}
