/** The observable history of the interrupt pipeline: queue registrations,
    the "more work" notifications delivered to queues, link reports, and the
    two atomic operations on the coalesced status word (the handler's OR and
    the deferred processor's exchange with zero). The guarantees of the
    pipeline are stated as properties of this history. */
module EventLog {
  import opened Wrappers
  import opened LinkState

  /** A non-null packet-queue handle. */
  type QueueHandle = nat

  /** The two queue directions that receive notifications. */
  datatype Direction = Rx | Tx

  datatype Event =
    | Registered(dir: Direction, queue: Option<QueueHandle>)
    | Notified(dir: Direction, handle: QueueHandle)
    | StatusOred(bits: bv32)
    | StatusTaken(bits: bv32)
    | LinkReported(report: LinkReport)

  /** The queue armed for notification in direction `dir` after history `ev`:
      the one most recently registered, unless it was cleared or notified
      since. */
  function Armed(ev: seq<Event>, dir: Direction): Option<QueueHandle>
  {
    if |ev| == 0 then None
    else
      var e := ev[|ev| - 1];
      if e.Registered? && e.dir == dir then e.queue
      else if e.Notified? && e.dir == dir then None
      else Armed(ev[..|ev| - 1], dir)
  }

  /** Every notification went to the queue armed in its direction at that
      moment. */
  predicate NotificationsArmed(ev: seq<Event>)
  {
    forall j :: 0 <= j < |ev| && ev[j].Notified? ==> Armed(ev[..j], ev[j].dir) == Some(ev[j].handle)
  }

  /** The bits ORed into the status word since its last exchange. */
  function Pending(ev: seq<Event>): bv32
  {
    if |ev| == 0 then 0
    else
      var e := ev[|ev| - 1];
      if e.StatusOred? then Pending(ev[..|ev| - 1]) | e.bits
      else if e.StatusTaken? then 0
      else Pending(ev[..|ev| - 1])
  }

  /** Every exchange took exactly the bits ORed since the previous one. */
  predicate TakesDrainPending(ev: seq<Event>)
  {
    forall j :: 0 <= j < |ev| && ev[j].StatusTaken? ==> ev[j].bits == Pending(ev[..j])
  }

  lemma PrefixOfAppend(ev: seq<Event>, e: Event)
    ensures (ev + [e])[..|ev|] == ev
  {
  }

  /** How one more event moves the armed queue of a direction. */
  lemma ArmedAppend(ev: seq<Event>, e: Event, dir: Direction)
    ensures Armed(ev + [e], dir) ==
              if e.Registered? && e.dir == dir then e.queue
              else if e.Notified? && e.dir == dir then None
              else Armed(ev, dir)
  {
    PrefixOfAppend(ev, e);
  }

  /** How one more event moves the pending bits. */
  lemma PendingAppend(ev: seq<Event>, e: Event)
    ensures Pending(ev + [e]) ==
              if e.StatusOred? then Pending(ev) | e.bits
              else if e.StatusTaken? then 0
              else Pending(ev)
  {
    PrefixOfAppend(ev, e);
  }

  /** Extending a well-formed history by one event keeps it well formed when
      a notification goes to the armed queue and an exchange takes what is
      pending. */
  lemma {:induction false} AppendKeepsHistory(ev: seq<Event>, e: Event)
    requires NotificationsArmed(ev) && TakesDrainPending(ev)
    requires e.Notified? ==> Armed(ev, e.dir) == Some(e.handle)
    requires e.StatusTaken? ==> e.bits == Pending(ev)
    ensures NotificationsArmed(ev + [e]) && TakesDrainPending(ev + [e])
  {
    var ev' := ev + [e];
    forall j | 0 <= j < |ev'|
      ensures ev'[j].Notified? ==> Armed(ev'[..j], ev'[j].dir) == Some(ev'[j].handle)
      ensures ev'[j].StatusTaken? ==> ev'[j].bits == Pending(ev'[..j])
    {
      if j < |ev| {
        assert ev'[..j] == ev[..j];
      } else {
        PrefixOfAppend(ev, e);
      }
    }
  }

  // ----------------------------------------------------------- notifications

  /** If a queue is armed at `n` and there was a notification in the same
      direction at `i`, a registration of a queue happened in between. */
  lemma {:induction false} ArmedAfterNotificationNeedsRegistration(ev: seq<Event>, i: nat, n: nat)
    requires i < n <= |ev|
    requires ev[i].Notified?
    requires Armed(ev[..n], ev[i].dir).Some?
    ensures exists k :: i < k < n && ev[k].Registered? && ev[k].dir == ev[i].dir && ev[k].queue.Some?
    decreases n
  {
    var dir := ev[i].dir;
    assert ev[..n][..n - 1] == ev[..n - 1];
    var e := ev[n - 1];
    if e.Registered? && e.dir == dir {
      assert e.queue.Some?;
    } else {
      assert n - 1 != i;
      ArmedAfterNotificationNeedsRegistration(ev, i, n - 1);
    }
  }

  /** At most one notification per registration: between two notifications
      in the same direction, some queue was registered in that direction. */
  lemma NotificationNeedsRegistration(ev: seq<Event>, i: nat, j: nat)
    requires NotificationsArmed(ev)
    requires i < j < |ev|
    requires ev[i].Notified? && ev[j].Notified? && ev[i].dir == ev[j].dir
    ensures exists k :: i < k < j && ev[k].Registered? && ev[k].dir == ev[i].dir && ev[k].queue.Some?
  {
    ArmedAfterNotificationNeedsRegistration(ev, i, j);
  }

  // ------------------------------------------------------------- status word

  /** Bits ORed at `i` stay pending until the next exchange. */
  lemma {:induction false} OredBitsStayPending(ev: seq<Event>, i: nat, n: nat)
    requires i < n <= |ev|
    requires ev[i].StatusOred?
    requires forall k :: i < k < n ==> !ev[k].StatusTaken?
    ensures Pending(ev[..n]) & ev[i].bits == ev[i].bits
    decreases n
  {
    assert ev[..n][..n - 1] == ev[..n - 1];
    if n - 1 > i {
      OredBitsStayPending(ev, i, n - 1);
    }
  }

  /** Every bit ORed into the status word is taken by the first exchange that
      follows the OR. */
  lemma OredBitsTakenByNextExchange(ev: seq<Event>, i: nat, j: nat)
    requires TakesDrainPending(ev)
    requires i < j < |ev|
    requires ev[i].StatusOred? && ev[j].StatusTaken?
    requires forall k :: i < k < j ==> !ev[k].StatusTaken?
    ensures ev[j].bits & ev[i].bits == ev[i].bits
  {
    OredBitsStayPending(ev, i, j);
  }

  /** Whether two status words share a bit. */
  predicate Overlaps(bits: bv32, mask: bv32)
  {
    bits & mask != 0
  }

  lemma OverlapsOrSplit(p: bv32, b: bv32, m: bv32)
    requires Overlaps(p | b, m) && !Overlaps(b, m)
    ensures Overlaps(p, m)
  {
  }

  lemma ZeroOverlapsNothing(m: bv32)
    ensures !Overlaps(0, m)
  {
  }

  /** Every pending bit was ORed by an event after the last exchange. */
  lemma {:induction false} PendingBitsWereOred(ev: seq<Event>, n: nat, m: bv32)
    requires n <= |ev|
    requires Overlaps(Pending(ev[..n]), m)
    ensures exists i :: 0 <= i < n && ev[i].StatusOred? && Overlaps(ev[i].bits, m)
                        && forall k :: i < k < n ==> !ev[k].StatusTaken?
    decreases n
  {
    if n == 0 {
      assert false;
    }
    var e := ev[n - 1];
    if !(e.StatusOred? && Overlaps(e.bits, m)) {
      assert ev[..n] == ev[..n - 1] + [e];
      PendingAppend(ev[..n - 1], e);
      if e.StatusTaken? {
        ZeroOverlapsNothing(m);
        assert false;
      } else if e.StatusOred? {
        OverlapsOrSplit(Pending(ev[..n - 1]), e.bits, m);
      }
      PendingBitsWereOred(ev, n - 1, m);
      var i :| 0 <= i < n - 1 && ev[i].StatusOred? && Overlaps(ev[i].bits, m)
               && forall k :: i < k < n - 1 ==> !ev[k].StatusTaken?;
      assert forall k :: i < k < n ==> !ev[k].StatusTaken?;
    }
  }

  /** The converse of `OredBitsTakenByNextExchange`: an exchange takes
      nothing but bits ORed since the exchange before it, so no bit is
      invented and none is taken twice. */
  lemma TakenBitsWereOredSincePreviousExchange(ev: seq<Event>, j: nat, m: bv32)
    requires TakesDrainPending(ev)
    requires j < |ev| && ev[j].StatusTaken? && Overlaps(ev[j].bits, m)
    ensures exists i :: 0 <= i < j && ev[i].StatusOred? && Overlaps(ev[i].bits, m)
                        && forall k :: i < k < j ==> !ev[k].StatusTaken?
  {
    PendingBitsWereOred(ev, j, m);
  }

  /** When nothing is pending, every nonzero OR has been followed by an
      exchange: no ORed bit is left behind. */
  lemma {:induction false} NothingPendingMeansTaken(ev: seq<Event>, i: nat)
    requires i < |ev|
    requires ev[i].StatusOred? && ev[i].bits != 0
    requires Pending(ev) == 0
    ensures exists k :: i < k < |ev| && ev[k].StatusTaken?
  {
    if forall k :: i < k < |ev| ==> !ev[k].StatusTaken? {
      assert ev[..|ev|] == ev;
      OredBitsStayPending(ev, i, |ev|);
      assert false;
    }
  }
}
