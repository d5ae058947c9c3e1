/**
 Device sync (noknowledge/core/sync.py over noknowledge/core/device_channel.py): approvals, the
 back-fill transfer and its running digest, and mirroring to approved devices.
 */
module DeviceSync {
  import opened Wrappers

  type DeviceId = string
  type Transfer = string
  type Raw = string

  const MAX_SEEN := 200
  const SEQ_LIMIT := 0x1_0000_0000

  /** The running digest, with the hash as a free constructor: seeds and steps never collide. */
  datatype Digest = Seed(transfer: Transfer) | Step(previous: Digest, seqNo: nat, item: Raw)

  class HashChain {
    var digest: Digest

    /** Starts from the seed, or resumes from a digest kept in the store. */
    constructor (seed: Transfer, resumed: Option<Digest>)
      ensures digest == Started(seed, resumed)
    {
      digest := Started(seed, resumed);
    }

    /** The sequence number is encoded in four bytes, so a larger one is refused. */
    method Add(item: Raw, seqNo: int) returns (ok: bool)
      modifies this
      ensures ok == (0 <= seqNo < 4294967296)
      ensures digest == if ok then Step(old(digest), seqNo, item) else old(digest)
    {
      if 0 <= seqNo < SEQ_LIMIT {
        digest := Step(digest, seqNo, item);
        return true;
      }
      return false;
    }
  }

  function Started(seed: Transfer, resumed: Option<Digest>): Digest {
    resumed.GetOr(Seed(seed))
  }

  /** Device records once opened. `ranged` tells whether an approval's range reads as numbers. */
  datatype Record =
    | Request(transfer: Transfer)
    | Approval(transfer: Transfer, ranged: bool)
    | Offer(transfer: Transfer, count: int)
    | Item(transfer: Transfer, seqNo: int, raw: Raw)
    | Complete(transfer: Transfer, count: int, chain: Option<Digest>)
    | Mirror(raw: Raw)

  /** A record handed to the relay, with the devices approved at that moment. */
  datatype Write = Write(to: DeviceId, record: Record, approved: set<DeviceId>)

  /** What the receiver keeps about a sender's transfer; `complete` is set by a COMPLETE record. */
  datatype Entry = Entry(
    transfer: Option<Transfer>, received: nat, expected: int, chain: Option<Digest>, done: bool, complete: Option<bool>)

  const NoEntry := Entry(None, 0, 0, None, false, None)

  datatype State = State(
    approvals: map<DeviceId, Transfer>,
    seen: seq<Transfer>,
    pending: map<DeviceId, Transfer>,
    incoming: map<DeviceId, Entry>,
    written: seq<Write>)

  const Initial := State(map[], [], map[], map[], [])

  // -- approvals ---------------------------------------------------------------

  function LastFew(ids: seq<Transfer>): seq<Transfer> {
    if |ids| > MAX_SEEN then ids[|ids| - MAX_SEEN..] else ids
  }

  function MarkSeen(s: State, transfer: Transfer): State {
    if transfer in s.seen then s else s.(seen := LastFew(s.seen + [transfer]))
  }

  function MarkApproved(s: State, device: DeviceId, transfer: Transfer): State {
    s.(approvals := s.approvals[device := transfer])
  }

  function Revoke(s: State, device: DeviceId): State {
    s.(approvals := s.approvals - {device})
  }

  function Deny(s: State, device: DeviceId): State {
    s.(pending := s.pending - {device})
  }

  // -- sending -----------------------------------------------------------------

  /** The sender's chain over its first items. */
  function ChainOf(transfer: Transfer, items: seq<Raw>): Digest
    decreases |items|
  {
    if items == [] then Seed(transfer)
    else Step(ChainOf(transfer, items[..|items| - 1]), |items|, items[|items| - 1])
  }

  function ItemRecords(transfer: Transfer, items: seq<Raw>): (records: seq<Record>)
    ensures |records| == |items|
    ensures forall i :: 0 <= i < |items| ==> records[i] == Item(transfer, i + 1, items[i])
  {
    seq(|items|, (i: nat) requires i < |items| => Item(transfer, i + 1, items[i]))
  }

  /** A whole back-fill: the offer, the items numbered from one, and the closing digest. */
  function Backfill(transfer: Transfer, items: seq<Raw>): seq<Record> {
    [Offer(transfer, |items|)] + ItemRecords(transfer, items)
    + [Complete(transfer, |items|, Some(ChainOf(transfer, items)))]
  }

  /** How many of a back-fill's records are sealed when `healthy` relay writes succeed before one fails. */
  function Reach(items: seq<Raw>, healthy: nat): nat {
    var total := if |items| < SEQ_LIMIT then |items| + 2 else SEQ_LIMIT;
    if healthy < total then healthy else total
  }

  function WritesTo(to: DeviceId, records: seq<Record>, approved: set<DeviceId>): (writes: seq<Write>)
    ensures |writes| == |records|
    ensures forall i :: 0 <= i < |records| ==> writes[i] == Write(to, records[i], approved)
  {
    seq(|records|, (i: nat) requires i < |records| => Write(to, records[i], approved))
  }

  function SendHistory(s: State, device: DeviceId, transfer: Transfer, items: seq<Raw>, healthy: nat): State {
    s.(written := s.written + WritesTo(device, Backfill(transfer, items)[..Reach(items, healthy)], s.approvals.Keys))
  }

  /** The human's decision: announce it, remember it, send the history; only then forget the request. */
  function Approve(s: State, device: DeviceId, known: bool, transfer: Transfer, items: seq<Raw>, healthy: nat): State {
    if !known || healthy == 0 then s
    else
      var announced := s.(written := s.written + [Write(device, Approval(transfer, true), s.approvals.Keys)]);
      var sent := SendHistory(MarkApproved(announced, device, transfer), device, transfer, items, healthy - 1);
      if |items| < SEQ_LIMIT && healthy - 1 >= |items| + 2 then Deny(sent, device) else sent
  }

  /** One record to each target that can be reached. */
  function Broadcast(targets: seq<DeviceId>, record: Record, approved: set<DeviceId>, unreachable: set<DeviceId>): seq<Write>
    decreases |targets|
  {
    if targets == [] then []
    else
      var before := Broadcast(targets[..|targets| - 1], record, approved, unreachable);
      var last := targets[|targets| - 1];
      if last in unreachable then before else before + [Write(last, record, approved)]
  }

  /** The siblings that are approved, in listing order. */
  function Targets(siblings: seq<DeviceId>, approved: set<DeviceId>): (targets: seq<DeviceId>)
    ensures forall d :: d in targets <==> d in siblings && d in approved
    decreases |siblings|
  {
    if siblings == [] then []
    else
      var before := Targets(siblings[..|siblings| - 1], approved);
      var last := siblings[|siblings| - 1];
      if last in approved then before + [last] else before
  }

  function MirrorOut(s: State, siblings: seq<DeviceId>, raw: Raw, unreachable: set<DeviceId>): State {
    var approved := s.approvals.Keys;
    s.(written := s.written + Broadcast(Targets(siblings, approved), Mirror(raw), approved, unreachable))
  }

  function Ask(s: State, siblings: seq<DeviceId>, transfer: Transfer, unreachable: set<DeviceId>): State {
    s.(written := s.written + Broadcast(siblings, Request(transfer), s.approvals.Keys, unreachable))
  }

  // -- receiving ---------------------------------------------------------------

  function EntryOf(incoming: map<DeviceId, Entry>, device: DeviceId): Entry {
    if device in incoming then incoming[device] else NoEntry
  }

  /** What a transfer record does to the sender's entry; `applies` tells whether an item merged without error. */
  function Receive(entry: Entry, record: Record, applies: bool): Entry {
    match record
    case Offer(transfer, count) => Entry(Some(transfer), 0, count, None, false, None)
    case Item(transfer, seqNo, raw) =>
      if applies && 0 <= seqNo < SEQ_LIMIT then
        entry.(transfer := Some(transfer), received := entry.received + 1,
               chain := Some(Step(Started(transfer, entry.chain), seqNo, raw)), done := false)
      else entry
    case Complete(_, count, chain) =>
      entry.(done := true, expected := count,
             complete := Some(entry.received >= count && entry.chain == chain))
    case _ => entry
  }

  /** Whether the record rewrites the sender's stored entry. */
  predicate Recorded(record: Record, applies: bool) {
    record.Offer? || record.Complete? || (record.Item? && applies && 0 <= record.seqNo < SEQ_LIMIT)
  }

  /** `handle_record`, once the record is opened and its payload parsed. */
  function Handle(s: State, from: DeviceId, record: Record, applies: bool): State {
    match record
    case Request(transfer) => s.(pending := s.pending[from := transfer])
    case Approval(transfer, ranged) =>
      if transfer in s.seen then s
      else if ranged then MarkApproved(MarkSeen(s, transfer), from, transfer)
      else MarkSeen(s, transfer)
    case Mirror(_) => s
    case _ =>
      if Recorded(record, applies)
      then s.(incoming := s.incoming[from := Receive(EntryOf(s.incoming, from), record, applies)])
      else s
  }

  class Device {
    var approvals: map<DeviceId, Transfer>
    var seen: seq<Transfer>
    var pending: map<DeviceId, Transfer>
    var incoming: map<DeviceId, Entry>
    ghost var written: seq<Write>

    ghost function Now(): State
      reads this
    {
      State(approvals, seen, pending, incoming, written)
    }

    constructor ()
      ensures Now() == Initial
    {
      approvals, seen, pending, incoming, written := map[], [], map[], map[], [];
    }

    method NoteSeen(transfer: Transfer) returns (isNew: bool)
      modifies this
      ensures isNew == (transfer !in old(seen))
      ensures Now() == MarkSeen(old(Now()), transfer)
    {
      if transfer in seen {
        return false;
      }
      seen := LastFew(seen + [transfer]);
      return true;
    }

    /** Streams offer, items and closing digest; the first relay failure aborts the rest. */
    method Stream(device: DeviceId, transfer: Transfer, items: seq<Raw>, healthy: nat) returns (finished: bool)
      modifies this
      ensures Now() == SendHistory(old(Now()), device, transfer, items, healthy)
      ensures finished == (|items| < SEQ_LIMIT && healthy >= |items| + 2)
    {
      ghost var all := Backfill(transfer, items);
      ghost var start := written;
      ghost var approved := approvals.Keys;
      assert all[..0] == [];
      if healthy == 0 {
        assert written == start + WritesTo(device, all[..0], approved);
        return false;
      }
      written := written + [Write(device, Offer(transfer, |items|), approved)];
      var left: nat := healthy - 1;
      var chain := new HashChain(transfer, None);
      assert items[..0] == [];
      for index := 0 to |items|
        invariant fresh(chain) && chain.digest == ChainOf(transfer, items[..index])
        invariant left == healthy - 1 - index
        invariant index < SEQ_LIMIT
        invariant written == start + WritesTo(device, all[..index + 1], approved)
        invariant unchanged(this`approvals) && unchanged(this`seen) && unchanged(this`pending) && unchanged(this`incoming)
      {
        assert all[index + 1] == Item(transfer, index + 1, items[index]);
        if index + 1 >= SEQ_LIMIT || left == 0 {
          assert Reach(items, healthy) == index + 1;
          return false;
        }
        written := written + [Write(device, Item(transfer, index + 1, items[index]), approved)];
        assert all[..index + 2] == all[..index + 1] + [all[index + 1]];
        left := left - 1;
        var _ := chain.Add(items[index], index + 1);
        assert items[..index + 1][..index] == items[..index];
      }
      assert items[..|items|] == items;
      if left == 0 {
        assert Reach(items, healthy) == |items| + 1;
        return false;
      }
      written := written + [Write(device, Complete(transfer, |items|, Some(chain.digest)), approved)];
      assert all[..|items| + 2] == all[..|items| + 1] + [all[|items| + 1]];
      assert Reach(items, healthy) == |items| + 2;
      return true;
    }

    method ApproveDevice(device: DeviceId, known: bool, transfer: Transfer, items: seq<Raw>, healthy: nat)
      returns (finished: bool)
      modifies this
      ensures Now() == Approve(old(Now()), device, known, transfer, items, healthy)
    {
      if !known || healthy == 0 {
        return false;
      }
      written := written + [Write(device, Approval(transfer, true), approvals.Keys)];
      approvals := approvals[device := transfer];
      finished := Stream(device, transfer, items, healthy - 1);
      if finished {
        pending := pending - {device};
      }
    }

    method RevokeApproval(device: DeviceId)
      modifies this`approvals
      ensures Now() == Revoke(old(Now()), device)
    {
      approvals := approvals - {device};
    }

    /** Copies one of our changes to every approved sibling; an unreachable one is skipped. */
    method MirrorChange(siblings: seq<DeviceId>, raw: Raw, unreachable: set<DeviceId>) returns (sent: nat)
      modifies this`written
      ensures Now() == MirrorOut(old(Now()), siblings, raw, unreachable)
      ensures |written| == |old(written)| + sent
    {
      var targets := Targets(siblings, approvals.Keys);
      sent := 0;
      ghost var approved := approvals.Keys;
      assert written + [] == written;
      for i := 0 to |targets|
        invariant written == old(written) + Broadcast(targets[..i], Mirror(raw), approved, unreachable)
        invariant |written| == |old(written)| + sent
      {
        assert targets[..i + 1][..i] == targets[..i];
        if targets[i] !in unreachable {
          written := written + [Write(targets[i], Mirror(raw), approved)];
          sent := sent + 1;
        }
      }
      assert targets[..|targets|] == targets;
    }

    method HandleRecord(from: DeviceId, record: Record, applies: bool)
      modifies this
      ensures Now() == Handle(old(Now()), from, record, applies)
    {
      match record
      case Request(transfer) =>
        pending := pending[from := transfer];
      case Approval(transfer, ranged) =>
        var isNew := NoteSeen(transfer);
        if isNew && ranged {
          approvals := approvals[from := transfer];
        }
      case Offer(transfer, count) =>
        incoming := incoming[from := Entry(Some(transfer), 0, count, None, false, None)];
      case Item(transfer, seqNo, raw) =>
        if applies {
          var entry := EntryOf(incoming, from);
          var chain := new HashChain(transfer, entry.chain);
          var ok := chain.Add(raw, seqNo);
          if ok {
            incoming := incoming[from :=
              entry.(transfer := Some(transfer), received := entry.received + 1, chain := Some(chain.digest), done := false)];
          }
        }
      case Complete(_, count, chain) =>
        var entry := EntryOf(incoming, from);
        var complete := entry.received >= count && entry.chain == chain;
        incoming := incoming[from := entry.(done := true, expected := count, complete := Some(complete))];
      case Mirror(_) =>
    }
  }
}
