/**
 * The player-status poll loop (vlc_my_web_interface.py:65-136): at every cycle
 * it compares the fetched status with the last broadcast one, and broadcasts
 * at most once, for the first applicable reason in a fixed order: a
 * significant field changed, the position jumped, or noisy fields changed and
 * have not been refreshed for more than a minute.
 */
module StatusPolling {
  import opened Wrappers
  import opened Snapshots
  import opened Broadcasting

  /** What the loop keeps from one cycle to the next. */
  datatype PollState = PollState(
    cache: Option<Snapshot>,          // the status last broadcast
    lastUpdateTime: int,              // seconds; when noisy fields were last broadcast
    lastRoundedPosition: Option<int>) // hundredths; the previous cycle's position

  /** The state when the loop starts. */
  const Initial: PollState := PollState(None, 0, None)

  /** A successful fetch: the status and its position, rounded to hundredths. */
  datatype Reading = Reading(status: Snapshot, roundedPosition: int)

  /** The outcome of the branch logic of one cycle. */
  datatype Decision =
    | Immediate(keys: set<string>)     // significant fields changed
    | PositionJump(from: int, to: int) // the position moved by more than the threshold
    | DelayedNoisy(keys: set<string>)  // only noisy fields changed, and they are stale
    | Suppress

  /** Seconds after which changed noisy fields are broadcast. */
  const StaleAfter: int := 60

  /** Hundredths of position beyond which a change counts as a jump. */
  const JumpThreshold: int := 2

  function Abs(x: int): nat {
    if x < 0 then -x else x
  }

  /** There is a previous position, and the new one is strictly more than the
      threshold away from it. */
  predicate PositionMoved(last: Option<int>, rounded: int): (moved: bool)
    ensures moved <==> last.Some? && (rounded > last.value + JumpThreshold || rounded < last.value - JumpThreshold)
  {
    last.Some? && Abs(rounded - last.value) > JumpThreshold
  }

  /** The branch logic of one cycle (lines 89-131), in priority order. */
  function Classify(st: PollState, r: Reading, now: int, canon: Canonicaliser): (d: Decision)
    ensures d.Immediate? <==> !(ChangedKeys(r.status, st.cache, canon) <= NoisyKeys)
    ensures d.Immediate? ==> d.keys == ChangedKeys(r.status, st.cache, canon) - NoisyKeys
    ensures d.PositionJump? <==>
      ChangedKeys(r.status, st.cache, canon) <= NoisyKeys
      && PositionMoved(st.lastRoundedPosition, r.roundedPosition)
    ensures d.PositionJump? ==>
      d.from == st.lastRoundedPosition.value && d.to == r.roundedPosition
    ensures d.DelayedNoisy? <==>
      ChangedKeys(r.status, st.cache, canon) <= NoisyKeys
      && !PositionMoved(st.lastRoundedPosition, r.roundedPosition)
      && ChangedKeys(r.status, st.cache, canon) != {}
      && now - st.lastUpdateTime > StaleAfter
    ensures d.DelayedNoisy? ==> d.keys == ChangedKeys(r.status, st.cache, canon)
  {
    var (ignored, immediate) := Partition(ChangedKeys(r.status, st.cache, canon));
    var moved := PositionMoved(st.lastRoundedPosition, r.roundedPosition);
    var ignoredDue := ignored != {} && now - st.lastUpdateTime > StaleAfter;
    if immediate != {} then Immediate(immediate)
    else if moved then PositionJump(st.lastRoundedPosition.value, r.roundedPosition)
    else if ignoredDue then DelayedNoisy(ignored)
    else Suppress
  }

  /** A significant field that changed is broadcast at once, whatever the
      position and the clock say. */
  lemma SignificantChangeIsImmediate(st: PollState, r: Reading, now: int, canon: Canonicaliser, k: string)
    requires k in r.status && k !in NoisyKeys
    requires st.cache.Some? && k in st.cache.value
    requires NormalizeValue(r.status[k], canon) != NormalizeValue(st.cache.value[k], canon)
    ensures Classify(st, r, now, canon).Immediate?
    ensures k in Classify(st, r, now, canon).keys
  {
  }

  /** Changed noisy fields alone, without a jump, stay quiet for sixty seconds
      after the last noisy broadcast. */
  lemma NoisyChangeWaits(st: PollState, r: Reading, now: int, canon: Canonicaliser)
    requires ChangedKeys(r.status, st.cache, canon) <= NoisyKeys
    requires !PositionMoved(st.lastRoundedPosition, r.roundedPosition)
    requires now - st.lastUpdateTime <= StaleAfter
    ensures Classify(st, r, now, canon) == Suppress
  {
  }

  /** Re-reading the status last broadcast can still broadcast, by a position
      jump against the previous cycle, never for a changed field. */
  lemma SameStatusOnlyJumps(st: PollState, r: Reading, now: int, canon: Canonicaliser)
    requires st.cache == Some(r.status)
    ensures Classify(st, r, now, canon) ==
      if PositionMoved(st.lastRoundedPosition, r.roundedPosition)
      then PositionJump(st.lastRoundedPosition.value, r.roundedPosition)
      else Suppress
  {
    NothingChangedSinceBroadcast(r.status, canon);
  }

  /** The effect of one cycle: the new state and what is broadcast. */
  datatype Outcome = Outcome(next: PollState, broadcast: Option<Snapshot>)

  /** `not vlc_status`: the fetch failed or gave an empty status. */
  predicate Skipped(fetched: Option<Reading>): (skip: bool)
    ensures !skip <==> fetched.Some? && |fetched.value.status| > 0
  {
    fetched.None? || fetched.value.status == map[]
  }

  /** One cycle of the loop (lines 72-134). */
  function Poll(st: PollState, fetched: Option<Reading>, now: int, canon: Canonicaliser): (o: Outcome)
    // a failed or empty fetch changes nothing
    ensures Skipped(fetched) ==> o == Outcome(st, None)
    // otherwise the position is remembered, broadcast or not
    ensures !Skipped(fetched) ==> o.next.lastRoundedPosition == Some(fetched.value.roundedPosition)
    // the cache changes exactly when a broadcast is made, and then holds it
    ensures o.broadcast.Some? ==>
      !Skipped(fetched) && o.broadcast == Some(fetched.value.status) && o.next.cache == o.broadcast
    ensures o.broadcast.None? ==> o.next.cache == st.cache
    ensures !Skipped(fetched) ==>
      (o.broadcast.Some? <==> !Classify(st, fetched.value, now, canon).Suppress?)
    // only a delayed noisy broadcast moves the noisy clock, and to now
    ensures o.next.lastUpdateTime != st.lastUpdateTime ==>
      !Skipped(fetched) && o.next.lastUpdateTime == now
      && Classify(st, fetched.value, now, canon).DelayedNoisy?
    ensures !Skipped(fetched) && Classify(st, fetched.value, now, canon).DelayedNoisy? ==>
      o.next.lastUpdateTime == now
  {
    if Skipped(fetched) then Outcome(st, None)
    else
      var r := fetched.value;
      var d := Classify(st, r, now, canon);
      var position := Some(r.roundedPosition);
      match d
      case Suppress => Outcome(st.(lastRoundedPosition := position), None)
      case DelayedNoisy(_) => Outcome(PollState(Some(r.status), now, position), Some(r.status))
      case _ => Outcome(PollState(Some(r.status), st.lastUpdateTime, position), Some(r.status))
  }

  /** One cycle: a fetch result and the clock reading, in seconds. */
  type Cycle = (Option<Reading>, int)

  /** The cycle fetched `status`. */
  predicate Fetched(c: Cycle, status: Snapshot) {
    c.0.Some? && c.0.value.status == status
  }

  /** The loop run over a sequence of cycles: the final state and the statuses
      broadcast, in order. */
  function Run(st: PollState, cycles: seq<Cycle>, canon: Canonicaliser): (r: (PollState, seq<Snapshot>))
    // at most one broadcast per cycle
    ensures |r.1| <= |cycles|
    // only non-empty fetched statuses are ever broadcast
    ensures forall x :: x in r.1 ==> x != map[] && exists j :: 0 <= j < |cycles| && Fetched(cycles[j], x)
    decreases |cycles|
  {
    if cycles == [] then (st, [])
    else
      var o := Poll(st, cycles[0].0, cycles[0].1, canon);
      var rest := Run(o.next, cycles[1..], canon);
      (rest.0, (if o.broadcast.Some? then [o.broadcast.value] else []) + rest.1)
  }

  /** After any number of cycles the cache holds the status broadcast last, or
      is as it was when nothing was broadcast. */
  lemma {:induction false} CacheIsLastBroadcast(st: PollState, cycles: seq<Cycle>, canon: Canonicaliser)
    ensures var (last, sent) := Run(st, cycles, canon);
      (sent == [] ==> last.cache == st.cache) && (sent != [] ==> last.cache == Some(sent[|sent| - 1]))
    decreases |cycles|
  {
    if cycles != [] {
      var o := Poll(st, cycles[0].0, cycles[0].1, canon);
      CacheIsLastBroadcast(o.next, cycles[1..], canon);
    }
  }

  /** A position that creeps by the threshold at every cycle is never
      broadcast while the noisy window is open, although the total drift
      exceeds the threshold: the previous position is updated every cycle,
      the cache only on a broadcast. */
  lemma CreepingPositionUnnoticed(st: PollState, p: int, r1: Reading, t1: int, r2: Reading, t2: int,
                                  canon: Canonicaliser)
    requires st.lastRoundedPosition == Some(p)
    requires r1.roundedPosition == p + JumpThreshold && r2.roundedPosition == p + 2 * JumpThreshold
    requires r1.status != map[] && r2.status != map[]
    requires ChangedKeys(r1.status, st.cache, canon) <= NoisyKeys
    requires ChangedKeys(r2.status, st.cache, canon) <= NoisyKeys
    requires t1 - st.lastUpdateTime <= StaleAfter && t2 - st.lastUpdateTime <= StaleAfter
    ensures var (last, sent) := Run(st, [(Some(r1), t1), (Some(r2), t2)], canon);
      sent == [] && last == st.(lastRoundedPosition := Some(p + 2 * JumpThreshold))
  {
    var cycles: seq<Cycle> := [(Some(r1), t1), (Some(r2), t2)];
    var o1 := Poll(st, Some(r1), t1, canon);
    assert o1 == Outcome(st.(lastRoundedPosition := Some(p + JumpThreshold)), None);
    var o2 := Poll(o1.next, Some(r2), t2, canon);
    assert o2 == Outcome(st.(lastRoundedPosition := Some(p + 2 * JumpThreshold)), None);
    assert cycles[1..] == [(Some(r2), t2)];
    assert Run(o2.next, [], canon) == (o2.next, []);
    assert Run(o1.next, [(Some(r2), t2)], canon) == (o2.next, []);
    assert Run(st, cycles, canon) == (o2.next, []);
  }

  /** The status poll loop's state, and the registry it broadcasts to. */
  class StatusMonitor {
    var cache: Option<Snapshot>
    var lastUpdateTime: int
    var lastRoundedPosition: Option<int>
    const hub: Hub<Snapshot>
    const canon: Canonicaliser

    ghost predicate Valid()
      reads this, hub
    {
      hub.Valid()
    }

    function State(): PollState
      reads this
    {
      PollState(cache, lastUpdateTime, lastRoundedPosition)
    }

    constructor (hub: Hub<Snapshot>, canon: Canonicaliser)
      requires hub.Valid()
      ensures Valid() && State() == Initial
      ensures this.hub == hub && this.canon == canon
    {
      this.hub := hub;
      this.canon := canon;
      cache := None;
      lastUpdateTime := 0;
      lastRoundedPosition := None;
    }

    /** One pass of the loop body; `broken` are the subscribers whose `put`
        fails if a broadcast is made. */
    method Step(fetched: Option<Reading>, now: int, broken: set<SubscriberId>)
      requires Valid()
      modifies this, hub
      ensures Valid()
      ensures State() == Poll(old(State()), fetched, now, canon).next
      ensures var o := Poll(old(State()), fetched, now, canon);
        hub.queues == if o.broadcast.Some? then Delivered(old(hub.queues), o.broadcast.value, broken)
                      else old(hub.queues)
    {
      if fetched.None? || fetched.value.status == map[] {
        return;
      }
      var status, rounded := fetched.value.status, fetched.value.roundedPosition;
      var changed := ChangedKeys(status, cache, canon);
      var (ignored, immediate) := Partition(changed);
      var moved := lastRoundedPosition.Some? && Abs(rounded - lastRoundedPosition.value) > JumpThreshold;
      var broadcastIgnored := ignored != {} && now - lastUpdateTime > StaleAfter;
      var broadcastImmediate := immediate != {};
      if broadcastImmediate {
        cache := Some(status);
        hub.Broadcast(status, broken);
      } else if moved {
        lastRoundedPosition := Some(rounded);
        cache := Some(status);
        hub.Broadcast(status, broken);
      } else if broadcastIgnored {
        lastUpdateTime := now;
        cache := Some(status);
        hub.Broadcast(status, broken);
      }
      lastRoundedPosition := Some(rounded);
    }
  }
}
