/**
 Every interleaving of concurrent `publish` and `subscribe` calls on one event bus.

 A run is any list of actions: the clock moves forward, a new call arrives, or one call takes its
 next atomic step. A call takes and releases each lock separately, so other calls may run between
 the clock read and the sweep, between the sweep and the claim, and between the lookup under the
 read lock and the insertion under the write lock.
 */
module EventBusRuns {
  import opened Options
  import opened EventBus

  /** Where a `publish` call stands; `now` is the clock it read for its sweep. */
  datatype PublishPhase =
    | Called
    | Timed(now: Time)
    | SweptAt(now: Time)
    | Refused(now: Time, since: Time)
    | RefusalCounted(now: Time, since: Time)
    | Accepted(at: Time)
    | LookupMissed(at: Time)
    | Holding(at: Time, channel: nat)
    | Sent(at: Time, channel: nat)
    | PublishCounted(at: Time, channel: nat)

  datatype SubscribePhase =
    | Asked
    | NotFound
    | Subscribed(channel: nat)

  datatype Call =
    | Publish(event: Envelope, pub: PublishPhase)
    | Subscribe(eventType: string, sub: SubscribePhase)

  /** One message handed to a broadcast channel, and one claim of a dedup key. */
  datatype Delivery = Delivery(call: nat, channel: nat)
  datatype Claim = Claim(call: nat, key: string, at: Time)

  datatype System = System(
    clock: Time,
    bus: Bus,
    calls: seq<Call>,
    claims: seq<Claim>,
    sent: seq<Delivery>)

  datatype Action =
    | Tick(elapsed: nat)
    | ArrivePublish(event: Envelope)
    | ArriveSubscribe(eventType: string)
    | Step(call: nat)

  function Start(clock: Time): System { System(clock, EMPTY, [], [], []) }

  function WithPhase(s: System, i: nat, phase: PublishPhase): System
    requires i < |s.calls| && s.calls[i].Publish?
  {
    s.(calls := s.calls[i := s.calls[i].(pub := phase)])
  }

  /** The next atomic step of publish call `i`. */
  function PublishStep(s: System, i: nat): System
    requires i < |s.calls| && s.calls[i].Publish?
  {
    var event := s.calls[i].event;
    var key := DedupKey(event);
    match s.calls[i].pub
    case Called => WithPhase(s, i, Timed(s.clock))
    case Timed(now) => WithPhase(s, i, SweptAt(now)).(bus := Swept(s.bus, now))
    case SweptAt(now) =>
      if key in s.bus.seen then WithPhase(s, i, Refused(now, s.bus.seen[key]))
      else WithPhase(s, i, Accepted(s.clock)).(
        bus := Claimed(s.bus, key, s.clock),
        claims := s.claims + [Claim(i, key, s.clock)])
    case Refused(now, since) =>
      WithPhase(s, i, RefusalCounted(now, since)).(bus := s.bus.(duplicates := Bumped(s.bus.duplicates)))
    case Accepted(at) =>
      var found := Looked(s.bus, event.eventType);
      if found.Some? then WithPhase(s, i, Holding(at, found.value)) else WithPhase(s, i, LookupMissed(at))
    case LookupMissed(at) =>
      var grown := Opened(s.bus, event.eventType);
      WithPhase(s, i, Holding(at, grown.channels[event.eventType])).(bus := grown)
    case Holding(at, channel) => WithPhase(s, i, Sent(at, channel)).(sent := s.sent + [Delivery(i, channel)])
    case Sent(at, channel) =>
      WithPhase(s, i, PublishCounted(at, channel)).(bus := s.bus.(published := Bumped(s.bus.published)))
    case RefusalCounted(_, _) => s
    case PublishCounted(_, _) => s
  }

  /** The next atomic step of subscribe call `i`. */
  function SubscribeStep(s: System, i: nat): System
    requires i < |s.calls| && s.calls[i].Subscribe?
  {
    var eventType := s.calls[i].eventType;
    match s.calls[i].sub
    case Asked =>
      var found := Looked(s.bus, eventType);
      var phase := if found.Some? then Subscribed(found.value) else NotFound;
      s.(calls := s.calls[i := Subscribe(eventType, phase)])
    case NotFound =>
      var grown := Opened(s.bus, eventType);
      s.(calls := s.calls[i := Subscribe(eventType, Subscribed(grown.channels[eventType]))], bus := grown)
    case Subscribed(_) => s
  }

  function Act(s: System, a: Action): System {
    match a
    case Tick(elapsed) => s.(clock := s.clock + elapsed)
    case ArrivePublish(event) => s.(calls := s.calls + [Publish(event, Called)])
    case ArriveSubscribe(eventType) => s.(calls := s.calls + [Subscribe(eventType, Asked)])
    case Step(i) =>
      if i >= |s.calls| then s
      else if s.calls[i].Publish? then PublishStep(s, i)
      else SubscribeStep(s, i)
  }

  /** The state a run reaches from an empty bus whose clock shows `clock`. */
  function Run(clock: Time, acts: seq<Action>): System {
    if acts == [] then Start(clock) else Act(Run(clock, acts[..|acts| - 1]), acts[|acts| - 1])
  }

  predicate ClaimedKey(p: PublishPhase) {
    p.Accepted? || p.LookupMissed? || p.Holding? || p.Sent? || p.PublishCounted?
  }

  predicate HandedOver(p: PublishPhase) { p.Sent? || p.PublishCounted? }

  predicate Finished(c: Call) {
    match c
    case Publish(_, p) => p.RefusalCounted? || p.PublishCounted?
    case Subscribe(_, p) => p.Subscribed?
  }

  predicate Quiescent(s: System) { forall i :: 0 <= i < |s.calls| ==> Finished(s.calls[i]) }

  predicate SameStanding(p: PublishPhase, q: PublishPhase) {
    && HandedOver(p) == HandedOver(q) && ClaimedKey(p) == ClaimedKey(q)
    && (HandedOver(p) ==> p.channel == q.channel)
    && (ClaimedKey(p) ==> p.at == q.at)
  }

  /** The steps that neither sweep, claim nor send: they leave map and logs alone. */
  lemma QuietStep(s: System, i: nat)
    requires i < |s.calls| && s.calls[i].Publish?
    requires !s.calls[i].pub.Timed? && !s.calls[i].pub.SweptAt? && !s.calls[i].pub.Holding?
    ensures var t := PublishStep(s, i);
            && t.claims == s.claims && t.sent == s.sent && t.bus.seen == s.bus.seen && t.clock == s.clock
            && t.calls == s.calls[i := Publish(s.calls[i].event, t.calls[i].pub)]
            && SameStanding(s.calls[i].pub, t.calls[i].pub)
            && (s.calls[i].pub.Refused? || s.calls[i].pub.RefusalCounted? ==>
                  t.calls[i].pub == RefusalCounted(s.calls[i].pub.now, s.calls[i].pub.since))
            && (s.calls[i].pub.Called? ==> t.calls[i].pub == Timed(s.clock))
            && (!s.calls[i].pub.Refused? && !s.calls[i].pub.RefusalCounted? && !s.calls[i].pub.Called? ==>
                  ClaimedKey(t.calls[i].pub))
  {
  }

  // ---------------------------------------------------------------------------------------
  // Deduplication
  // ---------------------------------------------------------------------------------------

  /** A claim of the key is either still in the map or a full TTL old. */
  predicate Remembered(s: System, c: Claim) {
    (c.key in s.bus.seen && s.bus.seen[c.key] >= c.at) || c.at + DEDUP_TTL <= s.clock
  }

  predicate Recorded(s: System, key: string, at: Time) {
    exists j :: 0 <= j < |s.claims| && s.claims[j].key == key && s.claims[j].at == at
  }

  predicate ClaimsSpaced(s: System) {
    forall j, k :: 0 <= j < k < |s.claims| && s.claims[j].key == s.claims[k].key ==>
      s.claims[j].at + DEDUP_TTL <= s.claims[k].at
  }

  predicate PublishTimed(s: System, c: Call) {
    c.Publish? ==>
      match c.pub
      case Timed(now) => now <= s.clock
      case SweptAt(now) => now <= s.clock && forall k :: k in s.bus.seen ==> s.bus.seen[k] > now - DEDUP_TTL
      case Refused(now, since) => since > now - DEDUP_TTL && Recorded(s, DedupKey(c.event), since)
      case RefusalCounted(now, since) => since > now - DEDUP_TTL && Recorded(s, DedupKey(c.event), since)
      case _ => true
  }

  ghost predicate DedupInv(s: System) {
    && (forall j :: 0 <= j < |s.claims| ==> Remembered(s, s.claims[j]))
    && (forall k :: k in s.bus.seen ==> s.bus.seen[k] <= s.clock && Recorded(s, k, s.bus.seen[k]))
    && ClaimsSpaced(s)
    && (forall i :: 0 <= i < |s.calls| ==> PublishTimed(s, s.calls[i]))
  }

  lemma RecordedStays(s: System, t: System)
    requires s.claims <= t.claims
    ensures forall key, at :: Recorded(s, key, at) ==> Recorded(t, key, at)
  {
    forall key, at | Recorded(s, key, at)
      ensures Recorded(t, key, at)
    {
      var j :| 0 <= j < |s.claims| && s.claims[j].key == key && s.claims[j].at == at;
      assert t.claims[j] == s.claims[j];
    }
  }

  /** A step that leaves claims and map alone only has to justify the calls it changes. */
  lemma DedupFrame(s: System, t: System)
    requires DedupInv(s) && t.claims == s.claims && t.bus.seen == s.bus.seen && t.clock >= s.clock
    requires forall i :: 0 <= i < |t.calls| ==>
               (i < |s.calls| && t.calls[i] == s.calls[i]) || PublishTimed(t, t.calls[i])
    ensures DedupInv(t)
  {
    RecordedStays(s, t);
    forall j | 0 <= j < |t.claims|
      ensures Remembered(t, t.claims[j])
    {
      assert Remembered(s, s.claims[j]);
    }
    forall i | 0 <= i < |t.calls|
      ensures PublishTimed(t, t.calls[i])
    {
      if i < |s.calls| {
        assert PublishTimed(s, s.calls[i]);
      }
    }
  }

  lemma SweepKept(s: System, i: nat, now: Time)
    requires DedupInv(s) && i < |s.calls| && s.calls[i].Publish? && s.calls[i].pub == Timed(now)
    ensures DedupInv(PublishStep(s, i))
  {
    var t := PublishStep(s, i);
    RecordedStays(s, t);
    assert PublishTimed(s, s.calls[i]);
    forall j | 0 <= j < |t.claims|
      ensures Remembered(t, t.claims[j])
    {
      assert Remembered(s, s.claims[j]);
    }
    forall c | 0 <= c < |t.calls|
      ensures PublishTimed(t, t.calls[c])
    {
      if c != i {
        assert t.calls[c] == s.calls[c] && PublishTimed(s, s.calls[c]);
      }
    }
  }

  /** `t` is `s` after a claim of `key`, seen from the other calls. */
  lemma TimedAfterClaim(s: System, t: System, key: string, c: Call)
    requires PublishTimed(s, c) && s.claims <= t.claims && t.clock == s.clock
    requires t.bus.seen == s.bus.seen[key := s.clock]
    ensures PublishTimed(t, c)
  {
    RecordedStays(s, t);
  }

  lemma RememberedAfterClaim(s: System, t: System, key: string, c: Claim)
    requires Remembered(s, c) && key !in s.bus.seen && t.clock == s.clock
    requires t.bus.seen == s.bus.seen[key := s.clock]
    ensures Remembered(t, c) && (c.key == key ==> c.at + DEDUP_TTL <= s.clock)
  {
  }

  lemma SeenAfterClaim(s: System, t: System, i: nat, key: string)
    requires DedupInv(s) && t.clock == s.clock
    requires t.bus.seen == s.bus.seen[key := s.clock] && t.claims == s.claims + [Claim(i, key, s.clock)]
    ensures forall k :: k in t.bus.seen ==> t.bus.seen[k] <= t.clock && Recorded(t, k, t.bus.seen[k])
  {
    RecordedStays(s, t);
    assert t.claims[|s.claims|] == Claim(i, key, s.clock);
    assert Recorded(t, key, s.clock);
  }

  lemma ClaimKept(s: System, i: nat, now: Time)
    requires DedupInv(s) && i < |s.calls| && s.calls[i].Publish? && s.calls[i].pub == SweptAt(now)
    requires DedupKey(s.calls[i].event) !in s.bus.seen
    ensures DedupInv(PublishStep(s, i))
  {
    var t := PublishStep(s, i);
    var key := DedupKey(s.calls[i].event);
    SeenAfterClaim(s, t, i, key);
    forall j | 0 <= j < |s.claims|
      ensures Remembered(t, s.claims[j])
      ensures s.claims[j].key == key ==> s.claims[j].at + DEDUP_TTL <= s.clock
    {
      RememberedAfterClaim(s, t, key, s.claims[j]);
    }
    forall c | 0 <= c < |t.calls|
      ensures PublishTimed(t, t.calls[c])
    {
      if c != i {
        TimedAfterClaim(s, t, key, s.calls[c]);
      }
    }
  }

  lemma QuietKept(s: System, i: nat)
    requires DedupInv(s) && i < |s.calls| && s.calls[i].Publish?
    requires !s.calls[i].pub.Timed? && !s.calls[i].pub.SweptAt?
    ensures DedupInv(PublishStep(s, i))
  {
    assert PublishTimed(s, s.calls[i]);
    RecordedStays(s, PublishStep(s, i));
    if !s.calls[i].pub.Holding? {
      QuietStep(s, i);
    }
    DedupFrame(s, PublishStep(s, i));
  }

  lemma DedupPublish(s: System, i: nat)
    requires DedupInv(s) && i < |s.calls| && s.calls[i].Publish?
    ensures DedupInv(PublishStep(s, i))
  {
    var p := s.calls[i].pub;
    if p.Timed? {
      SweepKept(s, i, p.now);
    } else if !p.SweptAt? {
      QuietKept(s, i);
    } else if DedupKey(s.calls[i].event) in s.bus.seen {
      RefusalKept(s, i, p.now);
    } else {
      ClaimKept(s, i, p.now);
    }
  }

  lemma DedupKept(s: System, a: Action)
    requires DedupInv(s)
    ensures DedupInv(Act(s, a))
  {
    if a.Step? && a.call < |s.calls| && s.calls[a.call].Publish? {
      DedupPublish(s, a.call);
    } else {
      DedupFrame(s, Act(s, a));
    }
  }

  lemma RefusalKept(s: System, i: nat, now: Time)
    requires DedupInv(s) && i < |s.calls| && s.calls[i].Publish? && s.calls[i].pub == SweptAt(now)
    requires DedupKey(s.calls[i].event) in s.bus.seen
    ensures DedupInv(PublishStep(s, i))
  {
    assert PublishTimed(s, s.calls[i]);
    var t := PublishStep(s, i);
    RecordedStays(s, t);
    DedupFrame(s, t);
  }

  lemma {:induction false} DedupAlways(clock: Time, acts: seq<Action>)
    ensures DedupInv(Run(clock, acts))
  {
    if acts != [] {
      DedupAlways(clock, acts[..|acts| - 1]);
      DedupKept(Run(clock, acts[..|acts| - 1]), acts[|acts| - 1]);
    }
  }

  /** In every run, a publish is refused only for a claim of its key less than 3600 s before the call. */
  lemma RefusedOnlyWithinTtl(clock: Time, acts: seq<Action>, i: nat)
    requires var s := Run(clock, acts);
             i < |s.calls| && s.calls[i].Publish? && (s.calls[i].pub.Refused? || s.calls[i].pub.RefusalCounted?)
    ensures var s := Run(clock, acts);
            exists j :: 0 <= j < |s.claims| && s.claims[j].key == DedupKey(s.calls[i].event)
                        && s.claims[j].at > s.calls[i].pub.now - 3600 * 1_000_000_000
  {
    var s := Run(clock, acts);
    DedupAlways(clock, acts);
    assert PublishTimed(s, s.calls[i]);
    assert Recorded(s, DedupKey(s.calls[i].event), s.calls[i].pub.since);
  }

  // ---------------------------------------------------------------------------------------
  // Channels
  // ---------------------------------------------------------------------------------------

  predicate Bound(bus: Bus, eventType: string, channel: nat) {
    eventType in bus.channels && bus.channels[eventType] == channel
  }

  /** A call that got hold of a channel holds the one channel of its type. */
  predicate HoldsItsChannel(bus: Bus, c: Call) {
    match c
    case Publish(event, p) => (p.Holding? || p.Sent? || p.PublishCounted?) ==> Bound(bus, event.eventType, p.channel)
    case Subscribe(eventType, p) => p.Subscribed? ==> Bound(bus, eventType, p.channel)
  }

  predicate ChannelsNamed(bus: Bus) {
    && (forall t :: t in bus.channels ==> bus.channels[t] < bus.created)
    && (forall t, u :: t in bus.channels && u in bus.channels && bus.channels[t] == bus.channels[u] ==> t == u)
  }

  predicate ChannelInv(s: System) {
    ChannelsNamed(s.bus) && forall i :: 0 <= i < |s.calls| ==> HoldsItsChannel(s.bus, s.calls[i])
  }

  predicate Extends(before: map<string, nat>, after: map<string, nat>) {
    forall t :: t in before ==> t in after && after[t] == before[t]
  }

  lemma OpenedKeepsNames(bus: Bus, eventType: string)
    requires ChannelsNamed(bus)
    ensures ChannelsNamed(Opened(bus, eventType)) && Extends(bus.channels, Opened(bus, eventType).channels)
    ensures eventType in Opened(bus, eventType).channels
  {
  }

  lemma HoldingKept(before: Bus, after: Bus, c: Call)
    requires HoldsItsChannel(before, c) && Extends(before.channels, after.channels)
    ensures HoldsItsChannel(after, c)
  {
  }

  lemma PublishKeepsChannels(s: System, i: nat)
    requires ChannelInv(s) && i < |s.calls| && s.calls[i].Publish?
    ensures var t := PublishStep(s, i);
            && ChannelsNamed(t.bus) && Extends(s.bus.channels, t.bus.channels)
            && t.calls == s.calls[i := t.calls[i]] && HoldsItsChannel(t.bus, t.calls[i])
  {
    assert HoldsItsChannel(s.bus, s.calls[i]);
    match s.calls[i].pub
    case LookupMissed(_) => OpenedKeepsNames(s.bus, s.calls[i].event.eventType);
    case _ => assert PublishStep(s, i).bus.channels == s.bus.channels;
  }

  lemma SubscribeKeepsChannels(s: System, i: nat)
    requires ChannelInv(s) && i < |s.calls| && s.calls[i].Subscribe?
    ensures var t := SubscribeStep(s, i);
            && ChannelsNamed(t.bus) && Extends(s.bus.channels, t.bus.channels)
            && t.calls == s.calls[i := t.calls[i]] && HoldsItsChannel(t.bus, t.calls[i])
  {
    assert HoldsItsChannel(s.bus, s.calls[i]);
    OpenedKeepsNames(s.bus, s.calls[i].eventType);
  }

  /** No step replaces a channel, whichever of two racing calls inserts it. */
  lemma ChannelKept(s: System, a: Action)
    requires ChannelInv(s)
    ensures ChannelInv(Act(s, a)) && Extends(s.bus.channels, Act(s, a).bus.channels)
  {
    if a.Step? && a.call < |s.calls| {
      var t := Act(s, a);
      if s.calls[a.call].Publish? {
        PublishKeepsChannels(s, a.call);
      } else {
        SubscribeKeepsChannels(s, a.call);
      }
      forall i | 0 <= i < |t.calls|
        ensures HoldsItsChannel(t.bus, t.calls[i])
      {
        if i != a.call {
          HoldingKept(s.bus, t.bus, s.calls[i]);
        }
      }
    }
  }

  lemma {:induction false} ChannelAlways(clock: Time, acts: seq<Action>)
    ensures ChannelInv(Run(clock, acts))
  {
    if acts != [] {
      ChannelAlways(clock, acts[..|acts| - 1]);
      ChannelKept(Run(clock, acts[..|acts| - 1]), acts[|acts| - 1]);
    }
  }

  /** A channel, once there, is the channel of its type in every later state. */
  lemma {:induction false} ChannelsNeverReplaced(clock: Time, acts: seq<Action>, later: seq<Action>)
    ensures Extends(Run(clock, acts).bus.channels, Run(clock, acts + later).bus.channels)
  {
    if later == [] {
      assert acts + later == acts;
    } else {
      var n := |later| - 1;
      ChannelsNeverReplaced(clock, acts, later[..n]);
      ChannelAlways(clock, acts + later[..n]);
      ChannelKept(Run(clock, acts + later[..n]), later[n]);
      assert (acts + later)[..|acts + later| - 1] == acts + later[..n];
    }
  }

  /** A subscriber shares the channel of a delivery exactly when it asked for the type delivered. */
  lemma SubscribersShareTheChannel(clock: Time, acts: seq<Action>, i: nat, j: nat)
    requires var s := Run(clock, acts);
             && i < |s.calls| && s.calls[i].Subscribe? && s.calls[i].sub.Subscribed?
             && j < |s.calls| && s.calls[j].Publish? && HandedOver(s.calls[j].pub)
    ensures var s := Run(clock, acts);
            s.calls[i].sub.channel == s.calls[j].pub.channel <==> s.calls[i].eventType == s.calls[j].event.eventType
  {
    var s := Run(clock, acts);
    ChannelAlways(clock, acts);
    assert HoldsItsChannel(s.bus, s.calls[i]) && HoldsItsChannel(s.bus, s.calls[j]);
  }

  // ---------------------------------------------------------------------------------------
  // Every accepted event is sent once
  // ---------------------------------------------------------------------------------------

  predicate DeliveryFits(s: System, d: Delivery) {
    && d.call < |s.calls| && s.calls[d.call].Publish?
    && HandedOver(s.calls[d.call].pub) && s.calls[d.call].pub.channel == d.channel
  }

  predicate ClaimFits(s: System, c: Claim) {
    && c.call < |s.calls| && s.calls[c.call].Publish?
    && ClaimedKey(s.calls[c.call].pub) && s.calls[c.call].pub.at == c.at
  }

  predicate IsSent(s: System, i: nat) { exists j :: 0 <= j < |s.sent| && s.sent[j].call == i }

  predicate IsClaimed(s: System, i: nat) { exists j :: 0 <= j < |s.claims| && s.claims[j].call == i }

  ghost predicate LogInv(s: System) {
    && (forall j :: 0 <= j < |s.sent| ==> DeliveryFits(s, s.sent[j]))
    && (forall j, k :: 0 <= j < k < |s.sent| ==> s.sent[j].call != s.sent[k].call)
    && (forall j :: 0 <= j < |s.claims| ==> ClaimFits(s, s.claims[j]))
    && (forall j, k :: 0 <= j < k < |s.claims| ==> s.claims[j].call != s.claims[k].call)
    && (forall i :: 0 <= i < |s.calls| && s.calls[i].Publish? ==>
          && (HandedOver(s.calls[i].pub) ==> IsSent(s, i))
          && (ClaimedKey(s.calls[i].pub) ==> IsClaimed(s, i)))
  }

  lemma LogsStay(s: System, t: System)
    requires s.sent <= t.sent && s.claims <= t.claims
    ensures forall i :: IsSent(s, i) ==> IsSent(t, i)
    ensures forall i :: IsClaimed(s, i) ==> IsClaimed(t, i)
  {
    forall i | IsSent(s, i)
      ensures IsSent(t, i)
    {
      var j :| 0 <= j < |s.sent| && s.sent[j].call == i;
      assert t.sent[j].call == i;
    }
    forall i | IsClaimed(s, i)
      ensures IsClaimed(t, i)
    {
      var j :| 0 <= j < |s.claims| && s.claims[j].call == i;
      assert t.claims[j].call == i;
    }
  }

  /** Every entry of the logs still fits when no call's standing changes for the worse. */
  lemma EntriesFit(s: System, t: System)
    requires |s.calls| <= |t.calls|
    requires forall i :: 0 <= i < |s.calls| ==>
               || t.calls[i] == s.calls[i]
               || (s.calls[i].Publish? && t.calls[i].Publish? && t.calls[i].event == s.calls[i].event
                   && (HandedOver(s.calls[i].pub) ==> SameStanding(s.calls[i].pub, t.calls[i].pub))
                   && (ClaimedKey(s.calls[i].pub) ==>
                         ClaimedKey(t.calls[i].pub) && t.calls[i].pub.at == s.calls[i].pub.at))
    ensures forall d :: DeliveryFits(s, d) ==> DeliveryFits(t, d)
    ensures forall c :: ClaimFits(s, c) ==> ClaimFits(t, c)
  {
  }

  /** A step that logs nothing and changes nobody's standing. */
  lemma LogFrame(s: System, t: System)
    requires LogInv(s) && t.sent == s.sent && t.claims == s.claims && |s.calls| <= |t.calls|
    requires forall i :: 0 <= i < |s.calls| ==>
               || t.calls[i] == s.calls[i]
               || (s.calls[i].Publish? && t.calls[i].Publish? && t.calls[i].event == s.calls[i].event
                   && SameStanding(s.calls[i].pub, t.calls[i].pub))
               || (s.calls[i].Subscribe? && t.calls[i].Subscribe?)
    requires forall i :: |s.calls| <= i < |t.calls| && t.calls[i].Publish? ==> t.calls[i].pub == Called
    ensures LogInv(t)
  {
    LogsStay(s, t);
    forall j | 0 <= j < |t.sent|
      ensures DeliveryFits(t, t.sent[j])
    {
      assert DeliveryFits(s, s.sent[j]);
    }
    forall j | 0 <= j < |t.claims|
      ensures ClaimFits(t, t.claims[j])
    {
      assert ClaimFits(s, s.claims[j]);
    }
  }

  lemma ClaimLogged(s: System, i: nat, now: Time)
    requires LogInv(s) && i < |s.calls| && s.calls[i].Publish? && s.calls[i].pub == SweptAt(now)
    requires DedupKey(s.calls[i].event) !in s.bus.seen
    ensures LogInv(PublishStep(s, i))
  {
    var t := PublishStep(s, i);
    LogsStay(s, t);
    EntriesFit(s, t);
    assert t.claims[|s.claims|].call == i;
    assert forall j :: 0 <= j < |s.claims| ==> ClaimFits(s, s.claims[j]) && s.claims[j].call != i;
  }

  lemma SendLogged(s: System, i: nat)
    requires LogInv(s) && i < |s.calls| && s.calls[i].Publish? && s.calls[i].pub.Holding?
    ensures LogInv(PublishStep(s, i))
  {
    var t := PublishStep(s, i);
    LogsStay(s, t);
    EntriesFit(s, t);
    assert t.sent[|s.sent|].call == i && IsSent(t, i);
    forall j | 0 <= j < |s.sent|
      ensures DeliveryFits(t, t.sent[j]) && t.sent[j].call != i
    {
      assert DeliveryFits(s, s.sent[j]);
    }
    forall j | 0 <= j < |t.claims|
      ensures ClaimFits(t, t.claims[j])
    {
      assert ClaimFits(s, s.claims[j]);
    }
  }

  lemma QuietLogged(s: System, i: nat)
    requires LogInv(s) && i < |s.calls| && s.calls[i].Publish? && !s.calls[i].pub.Holding?
    requires s.calls[i].pub.SweptAt? ==> DedupKey(s.calls[i].event) in s.bus.seen
    ensures LogInv(PublishStep(s, i))
  {
    if !s.calls[i].pub.Timed? && !s.calls[i].pub.SweptAt? {
      QuietStep(s, i);
    }
    LogFrame(s, PublishStep(s, i));
  }

  lemma LogPublish(s: System, i: nat)
    requires LogInv(s) && i < |s.calls| && s.calls[i].Publish?
    ensures LogInv(PublishStep(s, i))
  {
    var p := s.calls[i].pub;
    if p.Holding? {
      SendLogged(s, i);
    } else if p.SweptAt? && DedupKey(s.calls[i].event) !in s.bus.seen {
      ClaimLogged(s, i, p.now);
    } else {
      QuietLogged(s, i);
    }
  }

  lemma LogKept(s: System, a: Action)
    requires LogInv(s)
    ensures LogInv(Act(s, a))
  {
    if a.Step? && a.call < |s.calls| && s.calls[a.call].Publish? {
      LogPublish(s, a.call);
    } else {
      LogFrame(s, Act(s, a));
    }
  }

  lemma {:induction false} LogAlways(clock: Time, acts: seq<Action>)
    ensures LogInv(Run(clock, acts))
  {
    if acts != [] {
      LogAlways(clock, acts[..|acts| - 1]);
      LogKept(Run(clock, acts[..|acts| - 1]), acts[|acts| - 1]);
    }
  }

  /** A claim is for the key of the event its call publishes. */
  predicate KeyInv(s: System) {
    forall j :: 0 <= j < |s.claims| ==>
      var c := s.claims[j];
      c.call < |s.calls| && s.calls[c.call].Publish? && c.key == DedupKey(s.calls[c.call].event)
  }

  lemma {:induction false} KeyAlways(clock: Time, acts: seq<Action>)
    ensures KeyInv(Run(clock, acts))
  {
    if acts != [] {
      KeyAlways(clock, acts[..|acts| - 1]);
      KeyKept(Run(clock, acts[..|acts| - 1]), acts[|acts| - 1]);
    }
  }

  lemma KeyKept(s: System, a: Action)
    requires KeyInv(s)
    ensures KeyInv(Act(s, a))
  {
  }

  /**
   In every run no call is delivered or claims twice, and only a call that claimed its key is
   delivered; at quiescence every claim has been delivered, on the channel of its type.
   */
  lemma AcceptedSentOnce(clock: Time, acts: seq<Action>)
    ensures var s := Run(clock, acts);
            && (forall j, k :: 0 <= j < k < |s.sent| ==> s.sent[j].call != s.sent[k].call)
            && (forall j, k :: 0 <= j < k < |s.claims| ==> s.claims[j].call != s.claims[k].call)
            && (forall j :: 0 <= j < |s.sent| ==> IsClaimed(s, s.sent[j].call))
            && (forall j :: 0 <= j < |s.sent| ==>
                  (DeliveryFits(s, s.sent[j])
                   && Bound(s.bus, s.calls[s.sent[j].call].event.eventType, s.sent[j].channel)))
            && (Quiescent(s) ==> forall j :: 0 <= j < |s.claims| ==> IsSent(s, s.claims[j].call))
  {
    var s := Run(clock, acts);
    LogAlways(clock, acts);
    ChannelAlways(clock, acts);
    forall j | 0 <= j < |s.sent|
      ensures IsClaimed(s, s.sent[j].call) && DeliveryFits(s, s.sent[j])
      ensures Bound(s.bus, s.calls[s.sent[j].call].event.eventType, s.sent[j].channel)
    {
      assert DeliveryFits(s, s.sent[j]);
      assert HoldsItsChannel(s.bus, s.calls[s.sent[j].call]);
    }
    if Quiescent(s) {
      forall j | 0 <= j < |s.claims|
        ensures IsSent(s, s.claims[j].call)
      {
        assert ClaimFits(s, s.claims[j]);
        assert Finished(s.calls[s.claims[j].call]);
      }
    }
  }

  /** In every run, two accepted publishes of one key claimed it at least 3600 s apart. */
  lemma AcceptedApart(clock: Time, acts: seq<Action>, i: nat, j: nat)
    requires var s := Run(clock, acts);
             && i < |s.calls| && s.calls[i].Publish? && ClaimedKey(s.calls[i].pub)
             && j < |s.calls| && s.calls[j].Publish? && ClaimedKey(s.calls[j].pub)
             && i != j && DedupKey(s.calls[i].event) == DedupKey(s.calls[j].event)
    ensures var s := Run(clock, acts);
            var gap := s.calls[i].pub.at - s.calls[j].pub.at;
            gap >= 3600 * 1_000_000_000 || gap <= -3600 * 1_000_000_000
  {
    var s := Run(clock, acts);
    KeyAlways(clock, acts);
    var a := ClaimOf(clock, acts, i);
    var b := ClaimOf(clock, acts, j);
    SpacedAlways(clock, acts, a, b);
  }

  lemma SpacedAlways(clock: Time, acts: seq<Action>, a: nat, b: nat)
    requires var s := Run(clock, acts); a < |s.claims| && b < |s.claims| && a != b && s.claims[a].key == s.claims[b].key
    ensures var s := Run(clock, acts);
            s.claims[a].at + DEDUP_TTL <= s.claims[b].at || s.claims[b].at + DEDUP_TTL <= s.claims[a].at
  {
    DedupAlways(clock, acts);
  }

  lemma ClaimOf(clock: Time, acts: seq<Action>, i: nat) returns (a: nat)
    requires var s := Run(clock, acts); i < |s.calls| && s.calls[i].Publish? && ClaimedKey(s.calls[i].pub)
    ensures var s := Run(clock, acts);
            a < |s.claims| && s.claims[a].call == i && s.claims[a].at == s.calls[i].pub.at
  {
    var s := Run(clock, acts);
    LogAlways(clock, acts);
    assert IsClaimed(s, i);
    a :| 0 <= a < |s.claims| && s.claims[a].call == i;
    assert ClaimFits(s, s.claims[a]);
  }

  // ---------------------------------------------------------------------------------------
  // Counters
  // ---------------------------------------------------------------------------------------

  /** How many of the calls satisfy `p`. */
  function Count(calls: seq<Call>, p: Call -> bool): nat {
    if calls == [] then 0
    else Count(calls[..|calls| - 1], p) + if p(calls[|calls| - 1]) then 1 else 0
  }

  function One(b: bool): nat { if b then 1 else 0 }

  lemma {:induction false} CountUpdated(calls: seq<Call>, i: nat, c: Call, p: Call -> bool)
    requires i < |calls|
    ensures Count(calls[i := c], p) + One(p(calls[i])) == Count(calls, p) + One(p(c))
  {
    var n := |calls| - 1;
    if i == n {
      assert calls[i := c][..n] == calls[..n];
    } else {
      CountUpdated(calls[..n], i, c, p);
      assert calls[i := c][..n] == calls[..n][i := c];
    }
  }

  const IS_PUBLISH: Call -> bool := (c: Call) => c.Publish?
  const WAS_PUBLISHED: Call -> bool := (c: Call) => c.Publish? && c.pub.PublishCounted?
  const WAS_REFUSED: Call -> bool := (c: Call) => c.Publish? && c.pub.RefusalCounted?

  predicate CountInv(s: System) {
    && s.bus.published == Count(s.calls, WAS_PUBLISHED) % WORD
    && s.bus.duplicates == Count(s.calls, WAS_REFUSED) % WORD
  }

  lemma BumpWraps(n: nat)
    ensures Bumped(n % WORD) == (n + 1) % WORD
  {
  }

  lemma PublishCounts(s: System, i: nat)
    requires i < |s.calls| && s.calls[i].Publish?
    ensures var t := PublishStep(s, i);
            && t.calls == s.calls[i := t.calls[i]]
            && (if s.calls[i].pub.Sent? then t.bus.published == Bumped(s.bus.published) && WAS_PUBLISHED(t.calls[i])
                else t.bus.published == s.bus.published && WAS_PUBLISHED(t.calls[i]) == WAS_PUBLISHED(s.calls[i]))
            && (if s.calls[i].pub.Refused? then t.bus.duplicates == Bumped(s.bus.duplicates) && WAS_REFUSED(t.calls[i])
                else t.bus.duplicates == s.bus.duplicates && WAS_REFUSED(t.calls[i]) == WAS_REFUSED(s.calls[i]))
  {
  }

  lemma CountStep(s: System, i: nat)
    requires CountInv(s) && i < |s.calls| && s.calls[i].Publish?
    ensures CountInv(PublishStep(s, i))
  {
    var t := PublishStep(s, i);
    PublishCounts(s, i);
    BumpWraps(Count(s.calls, WAS_PUBLISHED));
    BumpWraps(Count(s.calls, WAS_REFUSED));
    CountUpdated(s.calls, i, t.calls[i], WAS_PUBLISHED);
    CountUpdated(s.calls, i, t.calls[i], WAS_REFUSED);
  }

  lemma CountUntouched(s: System, i: nat)
    requires CountInv(s) && i < |s.calls| && s.calls[i].Subscribe?
    ensures CountInv(SubscribeStep(s, i))
  {
    var t := SubscribeStep(s, i);
    assert t.calls == s.calls[i := t.calls[i]];
    CountUpdated(s.calls, i, t.calls[i], WAS_PUBLISHED);
    CountUpdated(s.calls, i, t.calls[i], WAS_REFUSED);
  }

  lemma CountArrival(s: System, c: Call)
    requires CountInv(s) && !WAS_PUBLISHED(c) && !WAS_REFUSED(c)
    ensures CountInv(s.(calls := s.calls + [c]))
  {
    assert (s.calls + [c])[..|s.calls|] == s.calls;
  }

  lemma CountKept(s: System, a: Action)
    requires CountInv(s)
    ensures CountInv(Act(s, a))
  {
    match a
    case Tick(_) =>
    case ArrivePublish(event) => CountArrival(s, Publish(event, Called));
    case ArriveSubscribe(eventType) => CountArrival(s, Subscribe(eventType, Asked));
    case Step(i) =>
      if i >= |s.calls| {
        assert Act(s, a) == s;
      } else if s.calls[i].Publish? {
        CountStep(s, i);
        assert Act(s, a) == PublishStep(s, i);
      } else {
        CountUntouched(s, i);
        assert Act(s, a) == SubscribeStep(s, i);
      }
  }

  lemma {:induction false} CountAlways(clock: Time, acts: seq<Action>)
    ensures CountInv(Run(clock, acts))
  {
    if acts != [] {
      CountAlways(clock, acts[..|acts| - 1]);
      CountKept(Run(clock, acts[..|acts| - 1]), acts[|acts| - 1]);
    }
  }

  lemma {:induction false} FinishedPartition(calls: seq<Call>)
    requires forall i :: 0 <= i < |calls| ==> Finished(calls[i])
    ensures Count(calls, IS_PUBLISH) == Count(calls, WAS_PUBLISHED) + Count(calls, WAS_REFUSED)
  {
    if calls != [] {
      assert Finished(calls[|calls| - 1]);
      FinishedPartition(calls[..|calls| - 1]);
    }
  }

  /** The two counters add up to the publish calls, as 64-bit words and while those suffice exactly. */
  predicate CountersFit(s: System) {
    && (s.bus.published + s.bus.duplicates) % WORD == Count(s.calls, IS_PUBLISH) % WORD
    && (Count(s.calls, IS_PUBLISH) < WORD ==>
          s.bus.published + s.bus.duplicates == Count(s.calls, IS_PUBLISH))
  }

  lemma BalanceAtRest(s: System)
    requires CountInv(s) && Quiescent(s)
    ensures CountersFit(s)
  {
    FinishedPartition(s.calls);
    WordsAdd(Count(s.calls, WAS_PUBLISHED), Count(s.calls, WAS_REFUSED));
  }

  /** Every publish is counted once: when all calls have returned, the counters account for them all. */
  lemma CountersBalance(clock: Time, acts: seq<Action>)
    requires Quiescent(Run(clock, acts))
    ensures CountersFit(Run(clock, acts))
  {
    CountAlways(clock, acts);
    BalanceAtRest(Run(clock, acts));
  }

  lemma WordsAdd(a: nat, b: nat)
    ensures (a % WORD + b % WORD) % WORD == (a + b) % WORD
    ensures a + b < WORD ==> a % WORD + b % WORD == a + b
  {
  }

  // ---------------------------------------------------------------------------------------
  // One call without interference
  // ---------------------------------------------------------------------------------------

  function Steps(s: System, i: nat, n: nat): System
    decreases n, i
  {
    if n == 0 then s else Steps(Act(s, Step(i)), i, n - 1)
  }

  lemma AfterOpening(s: System, i: nat, n: nat)
    requires i < |s.calls| && s.calls[i].Publish? && s.calls[i].pub.Holding? && 2 <= n <= 3
    ensures Steps(s, i, n).bus == s.bus.(published := Bumped(s.bus.published))
  {
    var s1 := PublishStep(s, i);
    var s2 := PublishStep(s1, i);
    assert Steps(s, i, n) == Steps(s1, i, n - 1) == Steps(s2, i, n - 2) == s2;
  }

  lemma AfterClaim(s: System, i: nat)
    requires i < |s.calls| && s.calls[i].Publish? && s.calls[i].pub.Accepted?
    ensures var open := Opened(s.bus, s.calls[i].event.eventType);
            Steps(s, i, 4).bus == open.(published := Bumped(open.published))
  {
    var s1 := PublishStep(s, i);
    assert Steps(s, i, 4) == Steps(s1, i, 3);
    if s1.calls[i].pub.Holding? {
      AfterOpening(s1, i, 3);
    } else {
      assert Steps(s1, i, 3) == Steps(PublishStep(s1, i), i, 2);
      AfterOpening(PublishStep(s1, i), i, 2);
    }
  }

  lemma UntilClaim(s: System, i: nat)
    requires i < |s.calls| && s.calls[i].Publish? && s.calls[i].pub.Called?
    ensures var t := Steps(s, i, 3);
            var swept := Swept(s.bus, s.clock);
            && i < |t.calls| && t.calls[i].Publish? && t.calls[i].event == s.calls[i].event
            && if DedupKey(s.calls[i].event) in swept.seen
               then t.calls[i].pub.Refused? && t.bus == swept
               else t.calls[i].pub.Accepted? && t.bus == Claimed(swept, DedupKey(s.calls[i].event), s.clock)
  {
    var s1 := PublishStep(s, i);
    var s2 := PublishStep(s1, i);
    var s3 := PublishStep(s2, i);
    assert Steps(s, i, 3) == Steps(s1, i, 2) == Steps(s2, i, 1) == Steps(s3, i, 0) == s3;
  }

  /** A publish that nobody interrupts has the effect of the whole method. */
  lemma AloneIsWhole(s: System, i: nat)
    requires i < |s.calls| && s.calls[i].Publish? && s.calls[i].pub.Called?
    ensures Steps(Steps(s, i, 3), i, 4).bus == Published(s.bus, s.calls[i].event, s.clock, s.clock)
  {
    UntilClaim(s, i);
    var t := Steps(s, i, 3);
    if t.calls[i].pub.Accepted? {
      AfterClaim(t, i);
    } else {
      var t1 := PublishStep(t, i);
      assert Steps(t, i, 4) == Steps(t1, i, 3) == Steps(t1, i, 2) == Steps(t1, i, 1) == t1;
    }
  }
}
