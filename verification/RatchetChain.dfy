/**
 One receiving chain: messages arrive in any order, any number of times, with any header
 `pn`. A delivery opens exactly when its number is new and not too far ahead.
 */
module RatchetChain {
  import opened Wrappers
  import opened SymbolicCrypto
  import opened RatchetModel

  /**
   The receiver stands on the chain that started at `origin` under ratchet key `dh`, and
   `got` is the set of numbers already opened on it.
   */
  ghost predicate OnChain(s: RatchetState, dh: PublicKey, origin: Term, got: set<nat>) {
    && OnCurrentChain(s, dh)
    && s.receivingChain.value == Advance(origin, s.recvCount)
    && (forall n :: n in got ==> n < s.recvCount)
    && (forall n: nat :: Slot(Some(dh), n) in s.skipped <==> n < s.recvCount && n !in got)
    && (forall n: nat :: Slot(Some(dh), n) in s.skipped ==> s.skipped[Slot(Some(dh), n)] == KeyAt(origin, n))
    && (forall n: int :: Slot(Some(dh), n) in s.skipped ==> n >= 0)
  }

  /** Nothing but the slots of `dh` differs. */
  ghost predicate SameOtherSlots(s: RatchetState, t: RatchetState, dh: PublicKey) {
    forall slot: Slot :: slot.dh != Some(dh) ==>
      (slot in s.skipped <==> slot in t.skipped) && (slot in s.skipped ==> t.skipped[slot] == s.skipped[slot])
  }

  function Max(a: nat, b: nat): nat { if a < b then b else a }

  /** Message `n` of the chain, as its sender built it. */
  ghost predicate Genuine<P>(packet: Packet<P>, dh: PublicKey, origin: Term, n: nat, plaintext: P) {
    && packet.header.Header? && packet.header.dh == dh && packet.header.n == n
    && packet.box == Sealed(KeyAt(origin, n), packet.nonce, AssociatedData(packet.context, packet.header), plaintext)
  }

  lemma SkipOnChain(s: RatchetState, dh: PublicKey, origin: Term, got: set<nat>, until: nat)
    requires OnChain(s, dh, origin, got)
    requires s.recvCount < until
    ensures OnChain(SkippedTo(s, until), dh, origin, got)
    ensures SameOtherSlots(s, SkippedTo(s, until), dh)
  {
    var after := SkippedTo(s, until);
    var chain := s.receivingChain.value;
    var range := SkippedRange(s.remote, chain, s.recvCount, until);
    AdvanceAdds(origin, s.recvCount, until - s.recvCount);
    forall n: nat
      ensures Slot(Some(dh), n) in range <==> s.recvCount <= n < until
      ensures Slot(Some(dh), n) in range ==> range[Slot(Some(dh), n)] == KeyAt(origin, n)
    {
      if s.recvCount <= n < until {
        AdvanceAdds(origin, s.recvCount, n - s.recvCount);
      }
    }
  }

  /** Taking a key from the cache. */
  lemma TakeCached(s: RatchetState, dh: PublicKey, origin: Term, got: set<nat>, n: nat, after: RatchetState)
    requires OnChain(s, dh, origin, got)
    requires n < s.recvCount && n !in got
    requires after == s.(skipped := s.skipped - {Slot(Some(dh), n)})
    ensures TakeKey(s, dh, n) == Success((after, KeyAt(origin, n)))
    ensures OnChain(after, dh, origin, got + {n}) && SameOtherSlots(s, after, dh)
  {
  }

  /** Taking a key from the chain, the gap before it cached. */
  lemma TakeFresh(s: RatchetState, dh: PublicKey, origin: Term, got: set<nat>, n: nat)
    returns (after: RatchetState)
    requires OnChain(s, dh, origin, got)
    requires s.recvCount <= n <= s.recvCount + MAX_SKIP
    ensures TakeKey(s, dh, n) == Success((after, KeyAt(origin, n)))
    ensures OnChain(after, dh, origin, got + {n}) && SameOtherSlots(s, after, dh)
    ensures after.recvCount == n + 1
    ensures after == s.(receivingChain := after.receivingChain, recvCount := n + 1, skipped := after.skipped)
  {
    var ready := s;
    if s.recvCount < n {
      SkipOnChain(s, dh, origin, got, n);
      ready := SkippedTo(s, n);
    }
    assert SkipKeys(s, n) == Success(ready);
    after := ready.(receivingChain := Some(NextChain(ready.receivingChain.value)), recvCount := n + 1);
    StepOnChain(ready, dh, origin, got, after);
  }

  lemma StepOnChain(s: RatchetState, dh: PublicKey, origin: Term, got: set<nat>, after: RatchetState)
    requires OnChain(s, dh, origin, got)
    requires after == s.(receivingChain := Some(NextChain(s.receivingChain.value)), recvCount := s.recvCount + 1)
    ensures OnChain(after, dh, origin, got + {s.recvCount})
  {
    assert forall n: nat :: Slot(Some(dh), n) in after.skipped <==> Slot(Some(dh), n) in s.skipped;
  }

  /**
   Taking key `n` on a chain succeeds exactly when `n` was not opened before and is at most
   MAX_SKIP ahead; it yields the sender's key and moves the chain past `n`.
   */
  lemma TakeOnChain(s: RatchetState, dh: PublicKey, origin: Term, got: set<nat>, n: nat)
    requires OnChain(s, dh, origin, got)
    ensures TakeKey(s, dh, n).Success? <==> n !in got && n <= s.recvCount + 1000
    ensures TakeKey(s, dh, n).Success? ==>
              var taken := TakeKey(s, dh, n).value;
              && taken.1 == KeyAt(origin, n)
              && OnChain(taken.0, dh, origin, got + {n})
              && SameOtherSlots(s, taken.0, dh)
              && taken.0.recvCount == Max(s.recvCount, n + 1)
              && taken.0 == s.(receivingChain := taken.0.receivingChain, recvCount := taken.0.recvCount,
                               skipped := taken.0.skipped)
  {
    if n < s.recvCount && n !in got {
      TakeCached(s, dh, origin, got, n, s.(skipped := s.skipped - {Slot(Some(dh), n)}));
    } else if s.recvCount <= n <= s.recvCount + MAX_SKIP {
      var _ := TakeFresh(s, dh, origin, got, n);
    }
  }

  /**
   Delivering message `n` of the chain: it opens exactly when it is new and within reach,
   with its own text, and the receiver is still on the chain.
   */
  lemma DeliverOnChain<P>(s: RatchetState, dh: PublicKey, origin: Term, got: set<nat>,
                          packet: Packet<P>, n: nat, plaintext: P, newKey: nat)
    requires OnChain(s, dh, origin, got)
    requires Genuine(packet, dh, origin, n, plaintext)
    ensures Attempt(s, packet, newKey).Success? <==> n !in got && n <= s.recvCount + 1000
    ensures n in got ==> Attempt(s, packet, newKey) == Failure(DuplicateMessage)
    ensures Attempt(s, packet, newKey).Success? ==>
              var opening := Attempt(s, packet, newKey).value;
              && opening.plaintext == plaintext
              && OnChain(opening.state, dh, origin, got + {n})
              && SameOtherSlots(s, opening.state, dh)
              && opening.state.recvCount == Max(s.recvCount, n + 1)
              && opening.state == s.(receivingChain := opening.state.receivingChain,
                                     recvCount := opening.state.recvCount, skipped := opening.state.skipped)
  {
    TakeOnChain(s, dh, origin, got, n);
  }

  // -- any order of arrival ------------------------------------------------

  /** `recvCount` after the numbers of `order` arrived. */
  function Reached(recv: nat, order: seq<nat>): nat
    decreases |order|
  {
    if order == [] then recv else Reached(Max(recv, order[0] + 1), order[1..])
  }

  /** No arrival is more than MAX_SKIP ahead of the receiver's counter at that time. */
  predicate WithinReach(recv: nat, order: seq<nat>)
    decreases |order|
  {
    order == [] || (order[0] <= recv + MAX_SKIP && WithinReach(Max(recv, order[0] + 1), order[1..]))
  }

  /** What `decrypt` returns. */
  function Outcome<P>(s: RatchetState, packet: Packet<P>, newKey: nat): Result<P, RatchetError> {
    match Attempt(s, packet, newKey)
    case Success(opening) => Success(opening.plaintext)
    case Failure(e) => Failure(e)
  }

  predicate Below(order: seq<nat>, k: nat) {
    forall i :: 0 <= i < |order| ==> order[i] < k
  }

  /** Decrypts `packets[order[0]], packets[order[1]], ...` one after the other. */
  function Receive<P>(s: RatchetState, packets: seq<Packet<P>>, order: seq<nat>, newKey: nat)
    : (RatchetState, seq<Result<P, RatchetError>>)
    requires Below(order, |packets|)
    decreases |order|
  {
    if order == [] then
      (s, [])
    else
      var result := Outcome(s, packets[order[0]], newKey);
      var rest := Receive(AfterDecrypt(s, packets[order[0]], newKey), packets, order[1..], newKey);
      (rest.0, [result] + rest.1)
  }

  ghost predicate GenuineAll<P>(packets: seq<Packet<P>>, dh: PublicKey, origin: Term, texts: seq<P>) {
    |packets| == |texts| && forall n :: 0 <= n < |packets| ==> Genuine(packets[n], dh, origin, n, texts[n])
  }

  /** The set of numbers in a list of arrivals. */
  function Numbers(order: seq<nat>): set<nat> {
    set n | n in order
  }

  /** The first copy of each number yields its text, every other copy is a duplicate. */
  ghost predicate FirstCopiesOnly<P(!new)>(results: seq<Result<P, RatchetError>>, order: seq<nat>, got: set<nat>, texts: seq<P>)
    requires Below(order, |texts|)
  {
    && |results| == |order|
    && forall i :: 0 <= i < |order| ==>
         results[i] == if order[i] in got || order[i] in order[..i] then Failure(DuplicateMessage)
                       else Success(texts[order[i]])
  }

  lemma FirstCopiesPrepend<P(!new)>(n: nat, rest: seq<nat>, got: set<nat>, texts: seq<P>,
                                    result: Result<P, RatchetError>, later: seq<Result<P, RatchetError>>)
    requires n < |texts| && Below(rest, |texts|)
    requires FirstCopiesOnly(later, rest, got + {n}, texts)
    requires result == if n in got then Failure(DuplicateMessage) else Success(texts[n])
    ensures Below([n] + rest, |texts|)
    ensures FirstCopiesOnly([result] + later, [n] + rest, got, texts)
  {
    var order := [n] + rest;
    forall i | 1 <= i < |order|
      ensures order[i] in got || order[i] in order[..i] <==> rest[i - 1] in got + {n} || rest[i - 1] in rest[..i - 1]
    {
      assert order[..i] == [n] + rest[..i - 1];
    }
  }

  /** Arrivals in any order, with any repetition, leave the receiver on the chain. */
  lemma {:induction false} ArrivalsStayOnChain<P>(s: RatchetState, dh: PublicKey, origin: Term, got: set<nat>,
                                            packets: seq<Packet<P>>, texts: seq<P>, order: seq<nat>, newKey: nat)
    requires OnChain(s, dh, origin, got)
    requires GenuineAll(packets, dh, origin, texts)
    requires Below(order, |packets|)
    requires WithinReach(s.recvCount, order)
    ensures var after := Receive(s, packets, order, newKey).0;
            && OnChain(after, dh, origin, got + Numbers(order))
            && SameOtherSlots(s, after, dh)
            && after.recvCount == Reached(s.recvCount, order)
    decreases |order|
  {
    if order == [] {
      assert got + Numbers(order) == got;
    } else {
      var n, rest := order[0], order[1..];
      assert order == [n] + rest && Below(rest, |packets|);
      assert Genuine(packets[n], dh, origin, n, texts[n]);
      hide OnChain, SameOtherSlots, AfterDecrypt, Outcome, Genuine, Numbers, GenuineAll, Below;
      ArriveOnChain(s, dh, origin, got, packets[n], n, texts[n], newKey);
      var next := AfterDecrypt(s, packets[n], newKey);
      ArrivalsStayOnChain(next, dh, origin, got + {n}, packets, texts, rest, newKey);
      NumbersPrepend(n, rest, got);
      SameOtherSlotsChains(s, next, Receive(next, packets, rest, newKey).0, dh);
    }
  }

  /**
   Arrivals in any order, with any repetition: the first copy of each message opens to its
   own text, every later copy is refused.
   */
  lemma {:induction false} FirstCopiesOpen<P(!new)>(s: RatchetState, dh: PublicKey, origin: Term, got: set<nat>,
                                              packets: seq<Packet<P>>, texts: seq<P>, order: seq<nat>, newKey: nat)
    requires OnChain(s, dh, origin, got)
    requires GenuineAll(packets, dh, origin, texts)
    requires Below(order, |packets|)
    requires WithinReach(s.recvCount, order)
    ensures FirstCopiesOnly(Receive(s, packets, order, newKey).1, order, got, texts)
    decreases |order|
  {
    if order != [] {
      var n, rest := order[0], order[1..];
      assert order == [n] + rest;
      ArriveOnChain(s, dh, origin, got, packets[n], n, texts[n], newKey);
      var next := AfterDecrypt(s, packets[n], newKey);
      FirstCopiesOpen(next, dh, origin, got + {n}, packets, texts, rest, newKey);
      FirstCopiesPrepend(n, rest, got, texts, Outcome(s, packets[n], newKey), Receive(next, packets, rest, newKey).1);
    }
  }

  lemma NumbersPrepend(n: nat, rest: seq<nat>, got: set<nat>)
    ensures got + {n} + Numbers(rest) == got + Numbers([n] + rest)
  {
    assert forall m :: m in [n] + rest <==> m == n || m in rest;
  }

  lemma SameOtherSlotsChains(s: RatchetState, t: RatchetState, u: RatchetState, dh: PublicKey)
    requires SameOtherSlots(s, t, dh) && SameOtherSlots(t, u, dh)
    ensures SameOtherSlots(s, u, dh)
  {
  }

  /** One arrival within reach, new or repeated. */
  lemma ArriveOnChain<P>(s: RatchetState, dh: PublicKey, origin: Term, got: set<nat>,
                         packet: Packet<P>, n: nat, plaintext: P, newKey: nat)
    requires OnChain(s, dh, origin, got)
    requires Genuine(packet, dh, origin, n, plaintext)
    requires n <= s.recvCount + MAX_SKIP
    ensures var next := AfterDecrypt(s, packet, newKey);
            && OnChain(next, dh, origin, got + {n})
            && SameOtherSlots(s, next, dh)
            && next.recvCount == Max(s.recvCount, n + 1)
    ensures n in got ==> Outcome(s, packet, newKey) == Failure(DuplicateMessage)
    ensures n !in got ==> Outcome(s, packet, newKey) == Success(plaintext)
  {
    DeliverOnChain(s, dh, origin, got, packet, n, plaintext, newKey);
    assert n in got ==> got + {n} == got;
  }

  lemma {:induction false} ReachedIsPastTheLast(recv: nat, order: seq<nat>, k: nat)
    requires recv <= k && Below(order, k)
    ensures recv <= Reached(recv, order) <= k
    ensures forall i :: 0 <= i < |order| ==> order[i] < Reached(recv, order)
    decreases |order|
  {
    if order != [] {
      ReachedIsPastTheLast(Max(recv, order[0] + 1), order[1..], k);
      forall i | 0 <= i < |order|
        ensures order[i] < Reached(recv, order)
      {
        if i > 0 {
          assert order[i] == order[1..][i - 1];
        }
      }
    }
  }

  lemma {:induction false} AllNumbersBelow(order: seq<nat>, k: nat)
    requires |order| == k
    requires forall i, j :: 0 <= i < j < |order| ==> order[i] != order[j]
    requires Below(order, k)
    ensures forall n: nat :: n < k ==> n in order
  {
    var all := NatsBelow(k);
    DistinctSize(order);
    assert Numbers(order) <= all;
    if Numbers(order) != all {
      var missing :| missing in all && missing !in Numbers(order);
      RatchetModel.SubsetSize(Numbers(order), all - {missing});
      assert false;
    }
    forall n: nat | n < k
      ensures n in order
    {
      assert n in all;
      assert n in Numbers(order);
    }
  }

  function NatsBelow(k: nat): (r: set<nat>)
    ensures forall n: nat :: n in r <==> n < k
    ensures |r| == k
  {
    if k == 0 then {} else NatsBelow(k - 1) + {k - 1}
  }

  lemma {:induction false} DistinctSize(order: seq<nat>)
    requires forall i, j :: 0 <= i < j < |order| ==> order[i] != order[j]
    ensures |Numbers(order)| == |order|
  {
    if order != [] {
      DistinctSize(order[1..]);
      assert Numbers(order) == Numbers(order[1..]) + {order[0]};
    }
  }

  /**
   Messages 0..k-1 of one chain in any order, none too far ahead: every call returns that
   message's own text, and at the end the counter is k and no key of the chain is left over.
   */
  lemma AnyPermutationOpens<P(!new)>(s: RatchetState, dh: PublicKey, origin: Term,
                                     packets: seq<Packet<P>>, texts: seq<P>, order: seq<nat>, newKey: nat)
    requires OnChain(s, dh, origin, {}) && s.recvCount == 0
    requires GenuineAll(packets, dh, origin, texts)
    requires |order| == |packets|
    requires forall i, j :: 0 <= i < j < |order| ==> order[i] != order[j]
    requires Below(order, |packets|)
    requires WithinReach(0, order)
    ensures var (after, results) := Receive(s, packets, order, newKey);
            && |results| == |order|
            && (forall i :: 0 <= i < |order| ==> results[i] == Success(texts[order[i]]))
            && after.recvCount == |packets|
            && forall n: int :: Slot(Some(dh), n) !in after.skipped
  {
    ArrivalsStayOnChain(s, dh, origin, {}, packets, texts, order, newKey);
    FirstCopiesOpen(s, dh, origin, {}, packets, texts, order, newKey);
    var k := |packets|;
    AllNumbersBelow(order, k);
    ReachedIsPastTheLast(0, order, k);
    assert k > 0 ==> k - 1 in order;
  }

  /** The responder's first message puts it at the start of the initiator's first chain. */
  lemma FirstEpoch(sessionKey: Term, own: nat, dh: PublicKey, pn: int, newKey: nat)
    requires dh.Point?
    ensures var s := Responder(sessionKey, own);
            var origin := ChainKey(sessionKey, Dh(own, dh).value);
            EnterEpoch(s, dh, pn, newKey).Success?
            && OnChain(EnterEpoch(s, dh, pn, newKey).value, dh, origin, {})
            && EnterEpoch(s, dh, pn, newKey).value.recvCount == 0
  {
  }
}
