/** A back-fill is reported complete exactly when every item sent was applied, once and in order. */
module DeviceTransfer {
  import opened Wrappers
  import opened DeviceSync

  /** An opened record of one sender, and whether applying it succeeded. */
  datatype Arrival = Arrival(record: Record, applies: bool)

  /** The sender's entry after a run of its records. */
  function Entered(start: Entry, arrivals: seq<Arrival>): Entry
    decreases |arrivals|
  {
    if arrivals == [] then start
    else
      var k := |arrivals| - 1;
      Receive(Entered(start, arrivals[..k]), arrivals[k].record, arrivals[k].applies)
  }

  /** The items that were applied, in order of arrival. */
  function Applied(arrivals: seq<Arrival>): seq<Record>
    decreases |arrivals|
  {
    if arrivals == [] then []
    else
      var k := |arrivals| - 1;
      var before := Applied(arrivals[..k]);
      var last := arrivals[k];
      if last.record.Item? && last.applies && 0 <= last.record.seqNo < SEQ_LIMIT then before + [last.record] else before
  }

  /** The digest of applied items: the first one's transfer seeds it. */
  function ChainOver(items: seq<Record>): Option<Digest>
    requires forall i :: 0 <= i < |items| ==> items[i].Item? && 0 <= items[i].seqNo
    decreases |items|
  {
    if items == [] then None
    else
      var last := items[|items| - 1];
      Some(Step(Started(last.transfer, ChainOver(items[..|items| - 1])), last.seqNo, last.raw))
  }

  lemma {:induction false} AppliedAreItems(arrivals: seq<Arrival>)
    ensures forall i :: 0 <= i < |Applied(arrivals)| ==> Applied(arrivals)[i].Item? && 0 <= Applied(arrivals)[i].seqNo
    decreases |arrivals|
  {
    if arrivals != [] {
      AppliedAreItems(arrivals[..|arrivals| - 1]);
    }
  }

  predicate IsOffer(a: Arrival) { a.record.Offer? }

  /** Since the last offer, the entry counts and digests exactly the applied items. */
  lemma {:induction false} EntryTracksApplied(offer: Entry, arrivals: seq<Arrival>)
    requires offer.received == 0 && offer.chain == None
    requires forall i :: 0 <= i < |arrivals| ==> !IsOffer(arrivals[i])
    ensures Entered(offer, arrivals).received == |Applied(arrivals)|
    ensures forall i :: 0 <= i < |Applied(arrivals)| ==> Applied(arrivals)[i].Item? && 0 <= Applied(arrivals)[i].seqNo
    ensures Entered(offer, arrivals).chain == ChainOver(Applied(arrivals))
    decreases |arrivals|
  {
    if arrivals != [] {
      var k := |arrivals| - 1;
      EntryTracksApplied(offer, arrivals[..k]);
      AppliedAreItems(arrivals);
      var before, after := Applied(arrivals[..k]), Applied(arrivals);
      if after != before {
        assert after[..|after| - 1] == before;
      }
    }
  }

  /** The applied items are the ones sent: same bytes, numbered from one. */
  ghost predicate AsSent(applied: seq<Record>, sent: seq<Raw>) {
    && |applied| == |sent|
    && forall i :: 0 <= i < |sent| ==> applied[i].Item? && applied[i].seqNo == i + 1 && applied[i].raw == sent[i]
  }

  /** Two chains are equal exactly when they digest the same items from the same seed. */
  lemma {:induction false} ChainsAgreeExactlyWhen(applied: seq<Record>, transfer: Transfer, sent: seq<Raw>)
    requires forall i :: 0 <= i < |applied| ==> applied[i].Item? && 0 <= applied[i].seqNo
    ensures ChainOver(applied) == Some(ChainOf(transfer, sent)) <==>
            applied != [] && applied[0].transfer == transfer && AsSent(applied, sent)
    decreases |applied|
  {
    if applied != [] && sent != [] {
      var a, s := |applied| - 1, |sent| - 1;
      ChainsAgreeExactlyWhen(applied[..a], transfer, sent[..s]);
      if a > 0 && AsSent(applied[..a], sent[..s]) && applied[a].seqNo == |sent| && applied[a].raw == sent[s] {
        forall i | 0 <= i < |sent| ensures applied[i].seqNo == i + 1 && applied[i].raw == sent[i] {
          if i < s {
            assert applied[..a][i] == applied[i] && sent[..s][i] == sent[i];
          }
        }
      }
      if AsSent(applied, sent) && a > 0 {
        assert AsSent(applied[..a], sent[..s]);
      }
      if a == 0 {
        assert ChainOver(applied[..a]) == None;
        SeedMeansEmpty(transfer, sent[..s]);
      } else {
        assert applied[..a][0] == applied[0];
      }
    } else if sent == [] && applied != [] {
      assert ChainOver(applied).value.Step?;
    }
  }

  lemma SeedMeansEmpty(transfer: Transfer, sent: seq<Raw>)
    ensures ChainOf(transfer, sent).Seed? <==> sent == []
  {
  }

  /**
   After an offer, whatever arrives (drops, repeats, reordering, items of other transfers, failing items,
   early completions), the closing record of a transfer of `n >= 1` items marks it complete exactly when
   the items applied since the offer are the sent ones, each once and in order, under its transfer id.
   */
  lemma CompleteExactlyWhenAllApplied(
      before: Entry, offer: Record, arrivals: seq<Arrival>, transfer: Transfer, sent: seq<Raw>)
    requires offer.Offer? && sent != []
    requires forall i :: 0 <= i < |arrivals| ==> !IsOffer(arrivals[i])
    ensures var entry := Receive(Entered(Receive(before, offer, true), arrivals),
                                 Complete(transfer, |sent|, Some(ChainOf(transfer, sent))), true);
            var applied := Applied(arrivals);
            && entry.done
            && (entry.complete == Some(true) <==>
                  AsSent(applied, sent) && applied[0].transfer == transfer)
  {
    EntryTracksApplied(Receive(before, offer, true), arrivals);
    ChainsAgreeExactlyWhen(Applied(arrivals), transfer, sent);
  }

  /** A device that never made an offer counts from nothing: its entry digests exactly the items applied. */
  lemma EntryWithoutOffer(arrivals: seq<Arrival>)
    requires forall i :: 0 <= i < |arrivals| ==> !IsOffer(arrivals[i])
    ensures forall i :: 0 <= i < |Applied(arrivals)| ==> Applied(arrivals)[i].Item? && 0 <= Applied(arrivals)[i].seqNo
    ensures var entry := Entered(EntryOf(map[], "device"), arrivals);
            && entry.received == |Applied(arrivals)| && entry.chain == ChainOver(Applied(arrivals))
            && ((forall i :: 0 <= i < |arrivals| ==> !arrivals[i].record.Complete?) ==>
                  entry.expected == 0 && !entry.done && entry.complete == None)
  {
    EntryTracksApplied(NoEntry, arrivals);
    if forall i :: 0 <= i < |arrivals| ==> !arrivals[i].record.Complete? {
      NothingClosed(arrivals);
    }
  }

  lemma {:induction false} NothingClosed(arrivals: seq<Arrival>)
    requires forall i :: 0 <= i < |arrivals| ==> !IsOffer(arrivals[i]) && !arrivals[i].record.Complete?
    ensures var entry := Entered(NoEntry, arrivals); entry.expected == 0 && !entry.done && entry.complete == None
    decreases |arrivals|
  {
    if arrivals != [] {
      NothingClosed(arrivals[..|arrivals| - 1]);
    }
  }

  /** An empty transfer is never reported complete: the receiver has no digest to compare. */
  lemma EmptyTransferNeverCompletes(before: Entry, offer: Record, arrivals: seq<Arrival>, transfer: Transfer)
    requires offer.Offer?
    requires forall i :: 0 <= i < |arrivals| ==> !IsOffer(arrivals[i])
    ensures Receive(Entered(Receive(before, offer, true), arrivals),
                    Complete(transfer, 0, Some(ChainOf(transfer, []))), true).complete == Some(false)
  {
    EntryTracksApplied(Receive(before, offer, true), arrivals);
    ChainsAgreeExactlyWhen(Applied(arrivals), transfer, []);
  }

  function Delivered(records: seq<Record>): (arrivals: seq<Arrival>)
    ensures |arrivals| == |records|
    ensures forall i :: 0 <= i < |records| ==> arrivals[i] == Arrival(records[i], true)
  {
    seq(|records|, (i: nat) requires i < |records| => Arrival(records[i], true))
  }

  lemma {:induction false} DeliveredItemsApply(records: seq<Record>)
    requires forall i :: 0 <= i < |records| ==> records[i].Item? && 0 <= records[i].seqNo < SEQ_LIMIT
    ensures Applied(Delivered(records)) == records
    decreases |records|
  {
    if records != [] {
      var k := |records| - 1;
      DeliveredItemsApply(records[..k]);
      assert Delivered(records)[..k] == Delivered(records[..k]);
      assert records == records[..k] + [records[k]];
    }
  }

  /** A back-fill delivered record for record, all of it applied, is reported complete whatever came before. */
  lemma WholeBackfillCompletes(before: Entry, transfer: Transfer, sent: seq<Raw>)
    requires 0 < |sent| < SEQ_LIMIT
    ensures Entered(before, Delivered(Backfill(transfer, sent))).complete == Some(true)
  {
    var records := ItemRecords(transfer, sent);
    var all := Delivered(Backfill(transfer, sent));
    var n := |sent|;
    DeliveredItemsApply(records);
    CompleteExactlyWhenAllApplied(before, Offer(transfer, n), Delivered(records), transfer, sent);
    assert all[..n + 1] == [Arrival(Offer(transfer, n), true)] + Delivered(records);
    EnteredAfterFirst(before, Arrival(Offer(transfer, n), true), Delivered(records));
  }

  lemma {:induction false} EnteredAfterFirst(before: Entry, first: Arrival, rest: seq<Arrival>)
    ensures Entered(before, [first] + rest) == Entered(Receive(before, first.record, first.applies), rest)
    decreases |rest|
  {
    var whole := [first] + rest;
    if rest == [] {
      assert whole == [first] && whole[..0] == [];
    } else {
      var k := |rest| - 1;
      EnteredAfterFirst(before, first, rest[..k]);
      assert whole[..k + 1] == [first] + rest[..k];
    }
  }

  /** A record of some device, as it reaches the receiver. */
  datatype Inbound = Inbound(from: DeviceId, arrival: Arrival)

  function HandledAll(s: State, inbound: seq<Inbound>): State
    decreases |inbound|
  {
    if inbound == [] then s
    else
      var k := |inbound| - 1;
      Handle(HandledAll(s, inbound[..k]), inbound[k].from, inbound[k].arrival.record, inbound[k].arrival.applies)
  }

  /** The records of one device, in order of arrival. */
  function From(inbound: seq<Inbound>, device: DeviceId): seq<Arrival>
    decreases |inbound|
  {
    if inbound == [] then []
    else
      var k := |inbound| - 1;
      var before := From(inbound[..k], device);
      if inbound[k].from == device then before + [inbound[k].arrival] else before
  }

  lemma HandleIsPerDevice(s: State, from: DeviceId, record: Record, applies: bool, device: DeviceId)
    ensures EntryOf(Handle(s, from, record, applies).incoming, device) ==
            if device == from then Receive(EntryOf(s.incoming, device), record, applies) else EntryOf(s.incoming, device)
  {
  }

  lemma EnteredAfterLast(start: Entry, before: seq<Arrival>, last: Arrival)
    ensures Entered(start, before + [last]) == Receive(Entered(start, before), last.record, last.applies)
  {
    assert (before + [last])[..|before|] == before;
  }

  /** Over any run of records from any devices, a device's entry is what its own records alone leave. */
  lemma {:induction false} EntriesDoNotMix(s: State, inbound: seq<Inbound>, device: DeviceId)
    ensures EntryOf(HandledAll(s, inbound).incoming, device) ==
            Entered(EntryOf(s.incoming, device), From(inbound, device))
    decreases |inbound|
  {
    if inbound != [] {
      var k := |inbound| - 1;
      var before, last := HandledAll(s, inbound[..k]), inbound[k];
      EntriesDoNotMix(s, inbound[..k], device);
      HandleIsPerDevice(before, last.from, last.arrival.record, last.arrival.applies, device);
      EnteredAfterLast(EntryOf(s.incoming, device), From(inbound[..k], device), last.arrival);
      hide Handle, Receive, Entered, EntryOf;
    }
  }

  /**
   Completeness among any traffic: after an offer of a device, with records of other devices in between, that
   device's closing record marks its transfer complete exactly when its own applied items are the sent ones.
   */
  lemma CompleteAmongOtherTraffic(s: State, device: DeviceId, offer: Record, inbound: seq<Inbound>,
                                  transfer: Transfer, sent: seq<Raw>)
    requires offer.Offer? && sent != []
    requires forall i :: 0 <= i < |From(inbound, device)| ==> !IsOffer(From(inbound, device)[i])
    ensures var offered := Handle(s, device, offer, true);
            var closed := Handle(HandledAll(offered, inbound), device,
                                 Complete(transfer, |sent|, Some(ChainOf(transfer, sent))), true);
            EntryOf(closed.incoming, device).complete == Some(true) <==>
              AsSent(Applied(From(inbound, device)), sent) && Applied(From(inbound, device))[0].transfer == transfer
  {
    EntriesDoNotMix(Handle(s, device, offer, true), inbound, device);
    CompleteExactlyWhenAllApplied(EntryOf(s.incoming, device), offer, From(inbound, device), transfer, sent);
  }
}
