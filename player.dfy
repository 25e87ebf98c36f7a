/**
 * `LogPlayer`: replays one fight against the clock. `Start` announces the
 * fight's zone and remembers when playback began; every `Tick` sends, as one
 * batch, the lines whose timestamps the elapsed time has reached, and when the
 * last line has gone out the player sends the synthetic wipe line and stops.
 *
 * The clock (`+new Date()`) becomes a `now` parameter and the dispatched
 * events are appended to `emitted`. Each method is proved against a function
 * on `PlayerState`; the lemmas about those functions state that a replay sends
 * every line once, in order, and then exactly one wipe line.
 */
module Player {
  import opened Wrappers
  import opened LogPatterns
  import opened LogTime
  import opened Collector

  /** `onLogEvent` with a batch of lines, or `onZoneChangedEvent` with a zone name. */
  datatype Event = LogEvent(logs: seq<string>) | ZoneChanged(zoneName: Option<string>)

  /** The player's fields and the events it has sent. `logIdx` is 0 where the source stores `null`. */
  datatype PlayerState = PlayerState(
    fight: Option<Fight>,
    localStartMs: int,
    logStartMs: int,
    logIdx: nat,
    emitted: seq<Event>)

  /** The timestamp of each line, in order: `dateFromLogLine` applied line by line. */
  function Stamps(logs: seq<string>): (r: seq<Option<int>>)
    ensures |r| == |logs|
    decreases |logs|
  {
    if logs == [] then [] else Stamps(logs[..|logs| - 1]) + [DateFromLogLine(logs[|logs| - 1])]
  }

  lemma {:induction false} StampsAt(logs: seq<string>, k: nat)
    requires k < |logs|
    ensures Stamps(logs)[k] == DateFromLogLine(logs[k])
    decreases |logs|
  {
    if k < |logs| - 1 {
      StampsAt(logs[..|logs| - 1], k);
    }
  }

  /** Every line carries a timestamp, so the drain loop can read the time of each. */
  predicate AllStamped(logs: seq<string>) {
    forall k :: 0 <= k < |logs| ==> Stamps(logs)[k].Some?
  }

  /**
   * A fight `Start` and `Tick` can replay without failing: a `startDate`
   * (`getTime()` is called on it), at least one line, each with a timestamp.
   */
  predicate Playable(f: Fight) {
    f.startDate.Some? && |f.logs| > 0 && AllStamped(f.logs)
  }

  /** The time `dateFromLogLine` reads from line `k`. */
  function LineTime(logs: seq<string>, k: nat): int
    requires AllStamped(logs) && k < |logs|
  {
    Stamps(logs)[k].value
  }

  /** How many lines from `from` on are due by `cutOff`: the longest run whose times are all at most `cutOff`. */
  function DueCount(logs: seq<string>, from: nat, cutOff: int): (n: nat)
    requires AllStamped(logs) && from <= |logs|
    ensures from + n <= |logs|
    decreases |logs| - from
  {
    if from == |logs| || LineTime(logs, from) > cutOff then 0 else 1 + DueCount(logs, from + 1, cutOff)
  }

  /** The due run is the longest one: every line in it is due, and the line after it is not. */
  lemma {:induction false} DueCountMeaning(logs: seq<string>, from: nat, cutOff: int)
    requires AllStamped(logs) && from <= |logs|
    ensures var n := DueCount(logs, from, cutOff);
            (forall k :: from <= k < from + n ==> LineTime(logs, k) <= cutOff)
            && (from + n < |logs| ==> LineTime(logs, from + n) > cutOff)
    decreases |logs| - from
  {
    if from < |logs| && LineTime(logs, from) <= cutOff {
      DueCountMeaning(logs, from + 1, cutOff);
    }
  }

  ghost predicate PlayerInv(p: PlayerState) {
    p.fight.Some? ==> Playable(p.fight.value) && p.logIdx < |p.fight.value.logs|
  }

  /** The log time the replay has reached at local time `now`. */
  function CutOff(p: PlayerState, now: int): int {
    p.logStartMs + (now - p.localStartMs)
  }

  /** `Reset`: the source clears `fight` and `logIdx` (and a field `localStartTime` nothing reads). */
  function ResetSpec(p: PlayerState): PlayerState {
    p.(fight := None, logIdx := 0)
  }

  /** `Stop`: the synthetic wipe line goes out, then `Reset`. */
  function StopSpec(p: PlayerState): PlayerState {
    ResetSpec(p.(emitted := p.emitted + [LogEvent([WipeMarker])]))
  }

  /** `Tick` at local time `now`. */
  function TickSpec(p: PlayerState, now: int): PlayerState
    requires PlayerInv(p)
  {
    if p.fight.None? then p
    else
      var logs := p.fight.value.logs;
      var n := DueCount(logs, p.logIdx, CutOff(p, now));
      var sent := p.(logIdx := p.logIdx + n, emitted := p.emitted + [LogEvent(logs[p.logIdx .. p.logIdx + n])]);
      if p.logIdx + n == |logs| then StopSpec(sent) else sent
  }

  /** `Start(fight)` reading the clock as `startNow`, then ticking at `tickNow`; whatever was playing is dropped. */
  function StartSpec(p: PlayerState, f: Fight, startNow: int, tickNow: int): PlayerState
    requires Playable(f)
  {
    TickSpec(PlayerState(Some(f), startNow, f.startDate.value, 0, p.emitted + [ZoneChanged(f.zoneName)]), tickNow)
  }

  // ---------------------------------------------------------------------------
  // What a replay sends

  /** The lines the log events carry, in order. */
  function Lines(events: seq<Event>): seq<string>
    decreases |events|
  {
    if events == [] then []
    else
      var last := events[|events| - 1];
      Lines(events[..|events| - 1]) + (if last.LogEvent? then last.logs else [])
  }

  predicate OnlyLogEvents(events: seq<Event>) {
    forall k :: 0 <= k < |events| ==> events[k].LogEvent?
  }

  /**
   * A replay of `f` started after the events `base`: the zone event came
   * first; while playing, the batches since hold exactly the lines before the
   * cursor; once stopped, they hold every line of the fight, in order, and
   * are followed by one synthetic wipe line.
   */
  ghost predicate Replaying(p: PlayerState, base: seq<Event>, f: Fight) {
    Playable(f)
    && |base| < |p.emitted| && p.emitted[..|base|] == base
    && p.emitted[|base|] == ZoneChanged(f.zoneName)
    && var rest := p.emitted[|base| + 1..];
       OnlyLogEvents(rest)
       && if p.fight.Some? then
            p.fight == Some(f) && p.logIdx < |f.logs| && Lines(rest) == f.logs[..p.logIdx]
          else
            |rest| > 0 && rest[|rest| - 1] == LogEvent([WipeMarker]) && Lines(rest[..|rest| - 1]) == f.logs
  }

  lemma ReplayingInv(p: PlayerState, base: seq<Event>, f: Fight)
    requires Replaying(p, base, f)
    ensures PlayerInv(p)
  {
  }

  /** `Tick` leaves an idle player exactly as it was. */
  lemma IdleTick(p: PlayerState, now: int)
    requires p.fight.None?
    ensures TickSpec(p, now) == p
  {
  }

  /** A tick before the next line is due sends an empty batch and leaves the cursor where it was. */
  lemma EarlyTick(p: PlayerState, now: int)
    requires PlayerInv(p) && p.fight.Some?
    requires LineTime(p.fight.value.logs, p.logIdx) > CutOff(p, now)
    ensures TickSpec(p, now) == p.(emitted := p.emitted + [LogEvent([])])
  {
    assert p.fight.value.logs[p.logIdx..p.logIdx] == [];
  }

  /**
   * A tick sends exactly the lines from the cursor that are due: each batch
   * line is due, the line after the batch is not, and the cursor moves past
   * the batch; reaching the end sends the batch, then the wipe line, and stops.
   */
  lemma TickBatch(p: PlayerState, now: int)
    requires PlayerInv(p) && p.fight.Some?
    ensures var r := TickSpec(p, now);
            var logs := p.fight.value.logs;
            var n := DueCount(logs, p.logIdx, CutOff(p, now));
            p.logIdx + n <= |logs|
            && (forall k :: p.logIdx <= k < p.logIdx + n ==> LineTime(logs, k) <= CutOff(p, now))
            && (p.logIdx + n < |logs| ==>
                  LineTime(logs, p.logIdx + n) > CutOff(p, now)
                  && r == p.(logIdx := p.logIdx + n, emitted := p.emitted + [LogEvent(logs[p.logIdx..p.logIdx + n])]))
            && (p.logIdx + n == |logs| ==>
                  r.fight.None?
                  && r.emitted == p.emitted + [LogEvent(logs[p.logIdx..]), LogEvent([WipeMarker])])
  {
    var logs := p.fight.value.logs;
    var n := DueCount(logs, p.logIdx, CutOff(p, now));
    DueCountMeaning(logs, p.logIdx, CutOff(p, now));
    assert p.logIdx + n == |logs| ==> logs[p.logIdx..p.logIdx + n] == logs[p.logIdx..];
  }

  lemma SliceSnoc(s: seq<string>, i: nat, j: nat)
    requires i <= j < |s|
    ensures s[i..j + 1] == s[i..j] + [s[j]]
  {
  }

  /** A due line extends the run of due lines by one. */
  lemma DueStep(logs: seq<string>, from: nat, cutOff: int)
    requires AllStamped(logs) && from < |logs| && LineTime(logs, from) <= cutOff
    ensures DueCount(logs, from, cutOff) == 1 + DueCount(logs, from + 1, cutOff)
  {
  }

  /** A tick whose due run reaches the last line sends the rest of the fight and stops. */
  lemma TickStops(p: PlayerState, now: int)
    requires PlayerInv(p) && p.fight.Some?
    requires p.logIdx + DueCount(p.fight.value.logs, p.logIdx, CutOff(p, now)) == |p.fight.value.logs|
    ensures var logs := p.fight.value.logs;
            TickSpec(p, now) == StopSpec(p.(logIdx := |logs|, emitted := p.emitted + [LogEvent(logs[p.logIdx..|logs|])]))
  {
  }

  /** A tick whose due run ends before the last line sends that run and moves the cursor past it. */
  lemma TickContinues(p: PlayerState, now: int, i: nat)
    requires PlayerInv(p) && p.fight.Some? && i < |p.fight.value.logs|
    requires p.logIdx + DueCount(p.fight.value.logs, p.logIdx, CutOff(p, now)) == i
    ensures var logs := p.fight.value.logs;
            TickSpec(p, now) == p.(logIdx := i, emitted := p.emitted + [LogEvent(logs[p.logIdx..i])])
  {
  }

  /** `Start` sends the zone event, then the first batch, and leaves a replay in progress or finished. */
  lemma {:induction false} StartReplays(p: PlayerState, f: Fight, startNow: int, tickNow: int)
    requires Playable(f)
    ensures Replaying(StartSpec(p, f, startNow, tickNow), p.emitted, f)
  {
    var q := PlayerState(Some(f), startNow, f.startDate.value, 0, p.emitted + [ZoneChanged(f.zoneName)]);
    assert q.emitted[|p.emitted| + 1..] == [];
    assert Replaying(q, p.emitted, f);
    TickReplays(q, p.emitted, f, tickNow);
  }

  lemma LinesSnoc(events: seq<Event>, e: Event)
    ensures Lines(events + [e]) == Lines(events) + (if e.LogEvent? then e.logs else [])
  {
    assert (events + [e])[..|events|] == events;
  }

  /** Sending one more event keeps what came before the replay and appends to what came after. */
  lemma SendAfter(emitted: seq<Event>, base: seq<Event>, e: Event)
    requires |base| < |emitted|
    ensures (emitted + [e])[..|base|] == emitted[..|base|]
    ensures (emitted + [e])[|base|] == emitted[|base|]
    ensures (emitted + [e])[|base| + 1..] == emitted[|base| + 1..] + [e]
  {
  }

  /** Sending the next `n` lines as one batch, without reaching the end, keeps a replay in order. */
  lemma BatchReplays(p: PlayerState, base: seq<Event>, f: Fight, n: nat)
    requires Replaying(p, base, f) && p.fight.Some? && p.logIdx + n < |f.logs|
    ensures Replaying(p.(logIdx := p.logIdx + n, emitted := p.emitted + [LogEvent(f.logs[p.logIdx..p.logIdx + n])]), base, f)
  {
    var batch := f.logs[p.logIdx..p.logIdx + n];
    var rest := p.emitted[|base| + 1..];
    SendAfter(p.emitted, base, LogEvent(batch));
    LinesSnoc(rest, LogEvent(batch));
    assert f.logs[..p.logIdx] + batch == f.logs[..p.logIdx + n];
  }

  /** Sending the remaining lines as one batch, then the wipe line, and stopping, completes a replay. */
  lemma LastBatchReplays(p: PlayerState, base: seq<Event>, f: Fight)
    requires Replaying(p, base, f) && p.fight.Some?
    ensures Replaying(StopSpec(p.(logIdx := |f.logs|, emitted := p.emitted + [LogEvent(f.logs[p.logIdx..|f.logs|])])), base, f)
  {
    var batch := f.logs[p.logIdx..|f.logs|];
    var rest := p.emitted[|base| + 1..];
    SendAfter(p.emitted, base, LogEvent(batch));
    LinesSnoc(rest, LogEvent(batch));
    assert f.logs[..p.logIdx] + batch == f.logs;
    var sent := p.emitted + [LogEvent(batch)];
    SendAfter(sent, base, LogEvent([WipeMarker]));
    assert (rest + [LogEvent(batch)] + [LogEvent([WipeMarker])])[..|rest| + 1] == rest + [LogEvent(batch)];
  }

  /** One tick keeps a replay in order: no line is skipped, repeated or reordered. */
  lemma {:induction false} TickReplays(p: PlayerState, base: seq<Event>, f: Fight, now: int)
    requires Replaying(p, base, f)
    ensures Replaying(TickSpec(p, now), base, f)
  {
    if p.fight.Some? {
      var n := DueCount(f.logs, p.logIdx, CutOff(p, now));
      if p.logIdx + n == |f.logs| {
        TickStops(p, now);
        LastBatchReplays(p, base, f);
      } else {
        TickContinues(p, now, p.logIdx + n);
        BatchReplays(p, base, f, n);
      }
    }
  }

  /** The events after the next `ticks` ticks, at the given local times. */
  function TickAll(p: PlayerState, nows: seq<int>): PlayerState
    requires PlayerInv(p)
    decreases |nows|
  {
    if nows == [] then p
    else
      TickInv(p, nows[0]);
      TickAll(TickSpec(p, nows[0]), nows[1..])
  }

  lemma TickInv(p: PlayerState, now: int)
    requires PlayerInv(p)
    ensures PlayerInv(TickSpec(p, now))
  {
  }

  /** Any run of ticks, at any local times, keeps a replay in order. */
  lemma {:induction false} TicksReplay(p: PlayerState, base: seq<Event>, f: Fight, nows: seq<int>)
    requires Replaying(p, base, f)
    ensures PlayerInv(p) && Replaying(TickAll(p, nows), base, f)
    decreases |nows|
  {
    if nows != [] {
      TickReplays(p, base, f, nows[0]);
      TicksReplay(TickSpec(p, nows[0]), base, f, nows[1..]);
    }
  }

  /**
   * Once the elapsed time reaches every remaining line, the next tick ends
   * the replay: all the fight's lines have then been sent, in order, followed
   * by one wipe line.
   */
  lemma LateTickFinishes(p: PlayerState, base: seq<Event>, f: Fight, now: int)
    requires Replaying(p, base, f) && p.fight.Some?
    requires forall k :: p.logIdx <= k < |f.logs| ==> LineTime(f.logs, k) <= CutOff(p, now)
    ensures var r := TickSpec(p, now);
            var rest := r.emitted[|base| + 1..];
            r.fight.None? && Lines(rest[..|rest| - 1]) == f.logs && rest[|rest| - 1] == LogEvent([WipeMarker])
  {
    DueCountMeaning(f.logs, p.logIdx, CutOff(p, now));
    TickReplays(p, base, f, now);
  }

  // ---------------------------------------------------------------------------
  // The player

  class LogPlayer {
    var fight: Option<Fight>
    var localStartMs: int
    var logStartMs: int
    var logIdx: nat
    /** The events dispatched on `document`, in order. */
    var emitted: seq<Event>

    function State(): PlayerState
      reads this
    {
      PlayerState(fight, localStartMs, logStartMs, logIdx, emitted)
    }

    ghost predicate Valid()
      reads this
    {
      PlayerInv(State())
    }

    /** A new player holds no fight; the source never runs `Reset` on construction, which leaves the same. */
    constructor()
      ensures Valid() && fight.None? && emitted == []
    {
      fight := None;
      localStartMs := 0;
      logStartMs := 0;
      logIdx := 0;
      emitted := [];
    }

    method Reset()
      modifies this
      ensures State() == ResetSpec(old(State()))
    {
      fight := None;
      logIdx := 0;
    }

    method SendLogEvent(logs: seq<string>)
      modifies this
      ensures State() == old(State()).(emitted := old(emitted) + [LogEvent(logs)])
    {
      emitted := emitted + [LogEvent(logs)];
    }

    method SendZoneEvent(zoneName: Option<string>)
      modifies this
      ensures State() == old(State()).(emitted := old(emitted) + [ZoneChanged(zoneName)])
    {
      emitted := emitted + [ZoneChanged(zoneName)];
    }

    method Start(fight: Fight, startNow: int, tickNow: int)
      requires Playable(fight)
      modifies this
      ensures Valid()
      ensures State() == StartSpec(old(State()), fight, startNow, tickNow)
    {
      localStartMs := startNow;
      logStartMs := fight.startDate.value;
      this.fight := Some(fight);
      logIdx := 0;

      SendZoneEvent(fight.zoneName);
      Tick(tickNow);
    }

    method IsPlaying() returns (playing: bool)
      ensures playing <==> fight.Some?
    {
      playing := fight.Some?;
    }

    method Tick(now: int)
      requires Valid()
      modifies this
      ensures Valid()
      ensures State() == TickSpec(old(State()), now)
    {
      if fight.None? {
        return;
      }

      var timeMs := now;
      var elapsedMs := timeMs - localStartMs;
      var cutOffTimeMs := logStartMs + elapsedMs;

      ghost var p0 := State();
      // The fight does not change while its lines are walked.
      var lines := fight.value.logs;
      ghost var start := logIdx;
      assert cutOffTimeMs == CutOff(p0, now);
      ghost var due := DueCount(lines, start, cutOffTimeMs);
      var logs: seq<string> := [];
      StampsAt(lines, logIdx);
      while DateFromLogLine(lines[logIdx]).value <= cutOffTimeMs
        invariant fight == p0.fight && localStartMs == p0.localStartMs && logStartMs == p0.logStartMs && emitted == p0.emitted
        invariant fight.Some? && fight.value.logs == lines && AllStamped(lines) && start <= logIdx < |lines|
        invariant DateFromLogLine(lines[logIdx]) == Stamps(lines)[logIdx]
        invariant logs == lines[start..logIdx]
        invariant due == (logIdx - start) + DueCount(lines, logIdx, cutOffTimeMs)
        decreases |lines| - logIdx
      {
        DueStep(lines, logIdx, cutOffTimeMs);
        SliceSnoc(lines, start, logIdx);
        logs := logs + [lines[logIdx]];
        logIdx := logIdx + 1;

        if logIdx >= |lines| {
          assert DueCount(lines, logIdx, cutOffTimeMs) == 0;
          TickStops(p0, now);
          SendLogEvent(logs);
          Stop();
          return;
        }
        StampsAt(lines, logIdx);
      }
      TickContinues(p0, now, logIdx);
      SendLogEvent(logs);
    }

    method Stop()
      modifies this
      ensures State() == StopSpec(old(State()))
    {
      SendLogEvent([WipeMarker]);
      Reset();
    }
  }
}
