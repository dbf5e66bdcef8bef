/**
 The in-process event bus: shared maps and counters behind locks, changed in place by the atomic
 steps of concurrent `publish` and `subscribe` calls.

 `Bus` is the value of the shared state; the functions on it are the effects of one critical
 section each. The class performs the same critical sections on its fields. EventBusRuns
 interleaves them.
 */
module EventBus {

  import opened Options

  /** Timestamps in nanoseconds. */
  type Time = int

  const DEDUP_TTL: Time := 3600 * 1_000_000_000
  const WORD: int := 0x1_0000_0000_0000_0000
  const DLQ_CAPACITY: nat := 10_000

  datatype Envelope = Envelope(eventType: string, eventId: string, payload: int)

  function DedupKey(event: Envelope): string { event.eventType + ":" + event.eventId }

  /** Channels are named by the order of their creation. */
  datatype Bus = Bus(
    channels: map<string, nat>,
    created: nat,
    seen: map<string, Time>,
    published: nat,
    duplicates: nat)

  const EMPTY: Bus := Bus(map[], 0, map[], 0, 0)

  /** `fetch_add(1)` on a 64-bit counter wraps around. */
  function Bumped(n: nat): nat { (n + 1) % WORD }

  function Swept(bus: Bus, now: Time): Bus {
    bus.(seen := map k | k in bus.seen && bus.seen[k] > now - DEDUP_TTL :: bus.seen[k])
  }

  function Claimed(bus: Bus, key: string, now: Time): Bus { bus.(seen := bus.seen[key := now]) }

  function Looked(bus: Bus, eventType: string): Option<nat> {
    if eventType in bus.channels then Some(bus.channels[eventType]) else None
  }

  /** `entry(event_type).or_insert_with(channel)`. */
  function Opened(bus: Bus, eventType: string): Bus {
    if eventType in bus.channels then bus
    else bus.(channels := bus.channels[eventType := bus.created], created := bus.created + 1)
  }

  /** A whole uninterrupted `publish`: the clock is read once for the sweep and once for the claim. */
  function Published(bus: Bus, event: Envelope, sweepTime: Time, claimTime: Time): Bus {
    var swept := Swept(bus, sweepTime);
    if DedupKey(event) in swept.seen then swept.(duplicates := Bumped(swept.duplicates))
    else
      var open := Opened(Claimed(swept, DedupKey(event), claimTime), event.eventType);
      open.(published := Bumped(open.published))
  }

  function LastN<T>(s: seq<T>, n: nat): seq<T> { if |s| <= n then s else s[|s| - n..] }

  class InProcessEventBus {
    var channels: map<string, nat>
    var created: nat
    var dedupSeen: map<string, Time>
    var published: nat
    var duplicates: nat
    var dlq: seq<Envelope>
    var sent: seq<(nat, Envelope)>

    function View(): Bus
      reads this
    {
      Bus(channels, created, dedupSeen, published, duplicates)
    }

    constructor ()
      ensures View() == EMPTY && dlq == [] && sent == []
    {
      channels, created, dedupSeen := map[], 0, map[];
      published, duplicates := 0, 0;
      dlq, sent := [], [];
    }

    method CleanupSeen(now: Time)
      modifies `dedupSeen
      ensures View() == Swept(old(View()), now)
    {
      var threshold := now - DEDUP_TTL;
      dedupSeen := map k | k in dedupSeen && dedupSeen[k] > threshold :: dedupSeen[k];
    }

    method SenderFor(eventType: string) returns (channel: nat)
      modifies `channels, `created
      ensures View() == Opened(old(View()), eventType)
      ensures eventType in channels && channel == channels[eventType]
    {
      if eventType in channels {
        return channels[eventType];
      }
      channels := channels[eventType := created];
      created := created + 1;
      channel := channels[eventType];
    }

    method Publish(event: Envelope, sweepTime: Time, claimTime: Time)
      modifies this
      ensures View() == Published(old(View()), event, sweepTime, claimTime)
      ensures dlq == old(dlq)
      ensures sent == if DedupKey(event) in Swept(old(View()), sweepTime).seen then old(sent)
                      else old(sent) + [(channels[event.eventType], event)]
    {
      CleanupSeen(sweepTime);
      var key := DedupKey(event);
      if key in dedupSeen {
        duplicates := (duplicates + 1) % WORD;
        return;
      }
      dedupSeen := dedupSeen[key := claimTime];
      var tx := SenderFor(event.eventType);
      sent := sent + [(tx, event)];
      published := (published + 1) % WORD;
    }

    method PushDlq(event: Envelope)
      modifies `dlq
      ensures dlq == LastN(old(dlq) + [event], DLQ_CAPACITY)
    {
      dlq := dlq + [event];
      ghost var all, dropped := dlq, 0;
      while |dlq| > DLQ_CAPACITY
        invariant 0 <= dropped <= |all| && dlq == all[dropped..]
        invariant dropped > 0 ==> |dlq| >= DLQ_CAPACITY
      {
        dlq := dlq[1..];
        dropped := dropped + 1;
      }
    }
  }

  /** After any pushes the dead-letter queue holds the last ten thousand events, in order. */
  lemma {:induction false} DlqKeepsTheLast(events: seq<Envelope>)
    ensures Pushed(events) == LastN(events, DLQ_CAPACITY)
  {
    if events != [] {
      DlqKeepsTheLast(events[..|events| - 1]);
      var before := events[..|events| - 1];
      assert events == before + [events[|events| - 1]];
    }
  }

  /** The queue after pushing `events` one by one, each push dropping from the front. */
  function Pushed(events: seq<Envelope>): seq<Envelope> {
    if events == [] then []
    else LastN(Pushed(events[..|events| - 1]) + [events[|events| - 1]], DLQ_CAPACITY)
  }

  predicate ColonFree(s: string) { forall i :: 0 <= i < |s| ==> s[i] != ':' }

  /** The longer type of `b` runs on into the id of `a` across a colon. */
  ghost predicate Overlap(a: Envelope, b: Envelope) {
    exists w: string :: b.eventType == a.eventType + ":" + w && a.eventId == w + ":" + b.eventId
  }

  /** Exactly which two different events the key cannot tell apart. */
  lemma KeysCollide(a: Envelope, b: Envelope)
    ensures (DedupKey(a) == DedupKey(b) && (a.eventType != b.eventType || a.eventId != b.eventId))
            <==> (Overlap(a, b) || Overlap(b, a))
  {
    if DedupKey(a) == DedupKey(b) {
      if |a.eventType| < |b.eventType| {
        LongerType(a, b);
      } else if |b.eventType| < |a.eventType| {
        LongerType(b, a);
      } else {
        assert a.eventType == DedupKey(a)[..|a.eventType|] == b.eventType;
        assert a.eventId == DedupKey(a)[|a.eventType| + 1..] == b.eventId;
      }
    }
    if Overlap(a, b) {
      OverlapSharesKey(a, b);
    }
    if Overlap(b, a) {
      OverlapSharesKey(b, a);
    }
  }

  lemma OverlapSharesKey(a: Envelope, b: Envelope)
    requires Overlap(a, b)
    ensures DedupKey(a) == DedupKey(b) && a.eventType != b.eventType
  {
    var w: string :| b.eventType == a.eventType + ":" + w && a.eventId == w + ":" + b.eventId;
    assert a.eventType + ":" + (w + ":" + b.eventId) == (a.eventType + ":" + w) + ":" + b.eventId;
  }

  lemma LongerType(a: Envelope, b: Envelope)
    requires DedupKey(a) == DedupKey(b) && |a.eventType| < |b.eventType|
    ensures Overlap(a, b)
  {
    var n := |a.eventType|;
    var w := b.eventType[n + 1..];
    var key := DedupKey(a);
    assert b.eventType == key[..|b.eventType|];
    assert a.eventType == key[..n] == b.eventType[..n];
    assert b.eventType[n] == key[n] == ':';
    assert b.eventType == a.eventType + ":" + w;
    assert a.eventId == key[n + 1..];
    assert w + ":" + b.eventId == key[n + 1..];
  }

  /** With colon-free types the key identifies type and id. */
  lemma KeyIdentifies(a: Envelope, b: Envelope)
    requires ColonFree(a.eventType) && ColonFree(b.eventType)
    ensures DedupKey(a) == DedupKey(b) <==> a.eventType == b.eventType && a.eventId == b.eventId
  {
    KeysCollide(a, b);
    forall w: string
      ensures b.eventType != a.eventType + ":" + w && a.eventType != b.eventType + ":" + w
    {
      assert (a.eventType + ":" + w)[|a.eventType|] == ':';
      assert (b.eventType + ":" + w)[|b.eventType|] == ':';
    }
  }

  /** So it does with colon-free identifiers, such as those the envelope constructor draws, whatever the types. */
  lemma IdsIdentify(a: Envelope, b: Envelope)
    requires ColonFree(a.eventId) && ColonFree(b.eventId)
    ensures DedupKey(a) == DedupKey(b) <==> a.eventType == b.eventType && a.eventId == b.eventId
  {
    KeysCollide(a, b);
    forall w: string
      ensures a.eventId != w + ":" + b.eventId && b.eventId != w + ":" + a.eventId
    {
      assert (w + ":" + b.eventId)[|w|] == ':';
      assert (w + ":" + a.eventId)[|w|] == ':';
    }
  }

  /** Two different events with one key. */
  lemma CollidingPair()
    ensures DedupKey(Envelope("a", "b:c", 0)) == DedupKey(Envelope("a:b", "c", 0))
  {
    assert Envelope("a:b", "c", 0).eventType == "a" + ":" + "b";
    assert Overlap(Envelope("a", "b:c", 0), Envelope("a:b", "c", 0)) by {
      assert "b:c" == "b" + ":" + "c";
    }
    OverlapSharesKey(Envelope("a", "b:c", 0), Envelope("a:b", "c", 0));
  }

  /** The queue after any pushes, one by one: the last ten thousand events, oldest first. */
  lemma QueueHolds(events: seq<Envelope>)
    ensures |Pushed(events)| == if |events| <= 10_000 then |events| else 10_000
    ensures forall k :: 0 <= k < |Pushed(events)| ==> Pushed(events)[k] == events[|events| - |Pushed(events)| + k]
  {
    DlqKeepsTheLast(events);
  }
}
