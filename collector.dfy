/**
 * `LogCollector`: splits a stream of imported network log lines into fights.
 * A countdown line opens a fight, and every later line is appended to it,
 * except a change to a different non-empty zone: that line closes the fight
 * without being appended, and may itself open the next fight. A wipe line is
 * appended and then closes the fight. A closed fight is kept unless a kept
 * fight already starts with the same line.
 *
 * The effect of one line on the collector's state is the function `Step`; the
 * class `LogCollector` below does the same work in place and is proved to
 * agree with it, and the lemmas state what `Step` promises.
 */
module Collector {
  import opened Wrappers
  import opened LogPatterns
  import opened LogTime

  /**
   * A fight record `{ key, zoneName, startDate, endDate, durationMs, logs, info }`.
   * `startDate` is `None` (`undefined`) when the countdown line that opened
   * the fight has no timestamp; `endDate` and `durationMs` stay `None` while
   * the fight is open; `info` is the summary cached by the fight list view.
   */
  datatype Fight = Fight(
    key: nat,
    zoneName: Option<string>,
    startDate: Option<int>,
    endDate: Option<int>,
    durationMs: Option<int>,
    logs: seq<string>,
    info: Option<string>)

  /** The collector's fields; `notified` lists the fights handed to `addFightCallback`, in call order. */
  datatype CollectorState = CollectorState(
    currentZone: Option<string>,
    currentFight: Option<Fight>,
    fights: seq<Fight>,
    notified: seq<Fight>)

  const Initial: CollectorState := CollectorState(None, None, [], [])

  /** The zone a line switches to, when `ParseZoneChange` gives a truthy (non-empty) name. */
  function ZoneChange(log: string): (r: Option<string>)
    ensures r.Some? <==> ParseZoneChange(log).Some? && ParseZoneChange(log).value != ""
    ensures r.Some? ==> r == ParseZoneChange(log)
  {
    var z := ParseZoneChange(log);
    if z.Some? && z.value != "" then z else None
  }

  /** The line makes `AppendImportLogs` call `EndFight`: it changes to another zone, or it is a wipe appended to the open fight. */
  predicate EndsFight(st: CollectorState, log: string) {
    st.currentFight.Some? && ((ZoneChange(log).Some? && ZoneChange(log) != st.currentZone) || IsWipe(log))
  }

  /**
   * The line does not make `AppendImportLogs` throw. Only `EndFight` calls
   * `getTime()`, on the time of the line that ends the fight and on the
   * `startDate` the opening countdown gave it; `undefined` there throws.
   */
  predicate CanStep(st: CollectorState, log: string) {
    EndsFight(st, log) ==> DateFromLogLine(log).Some? && st.currentFight.value.startDate.Some?
  }

  /** `fight.logs[0]`, `None` standing for `undefined` on an empty list. */
  function FirstLine(f: Fight): Option<string> {
    if |f.logs| > 0 then Some(f.logs[0]) else None
  }

  /**
   * The duplicate test of `EndFight`. The source also compares the field
   * `currentZone` of both fights, which no fight has, so that half of the test
   * always holds and only the first lines decide.
   */
  predicate IsDuplicate(fights: seq<Fight>, f: Fight) {
    exists k :: 0 <= k < |fights| && FirstLine(fights[k]) == FirstLine(f)
  }

  /** The open fight closed by the line whose time is `endDate`. */
  function Close(open: Fight, endDate: int): Fight
    requires open.startDate.Some?
  {
    open.(durationMs := Some(endDate - open.startDate.value), endDate := Some(endDate))
  }

  /** `EndFight(log)` on a collector with an open fight. */
  function EndFightSpec(st: CollectorState, log: string, hasCallback: bool): (r: CollectorState)
    requires st.currentFight.Some? && st.currentFight.value.startDate.Some? && DateFromLogLine(log).Some?
  {
    var fight := Close(st.currentFight.value, DateFromLogLine(log).value);
    if IsDuplicate(st.fights, fight) then st.(currentFight := None)
    else st.(currentFight := None,
             fights := st.fights + [fight],
             notified := if hasCallback then st.notified + [fight] else st.notified)
  }

  /** The fight a countdown line opens; its `startDate` is the line's time, `undefined` when it has none. */
  function Open(st: CollectorState, log: string): Fight {
    Fight(|st.fights|, st.currentZone, DateFromLogLine(log), None, None, [log], None)
  }

  /** The zone-change half of one iteration of `AppendImportLogs`. */
  function ZoneStep(st: CollectorState, log: string, hasCallback: bool): (r: CollectorState)
    requires CanStep(st, log)
    ensures r.currentFight.Some? ==> r.currentFight == st.currentFight
  {
    var zone := ZoneChange(log);
    if zone.Some? && zone != st.currentZone then
      (if st.currentFight.Some? then EndFightSpec(st, log, hasCallback) else st).(currentZone := zone)
    else st
  }

  /** One iteration of the loop of `AppendImportLogs`. */
  function Step(st: CollectorState, log: string, isCountdown: string -> bool, hasCallback: bool): CollectorState
    requires CanStep(st, log)
  {
    var st1 := ZoneStep(st, log, hasCallback);
    if st1.currentFight.Some? then
      var open := st1.currentFight.value;
      var st2 := st1.(currentFight := Some(open.(logs := open.logs + [log])));
      if IsWipe(log) then EndFightSpec(st2, log, hasCallback) else st2
    else if isCountdown(log) then
      st1.(currentFight := Some(Open(st1, log)))
    else st1
  }

  /**
   * `AppendImportLogs(logs)` runs from `st` to the end without throwing:
   * each line can be taken in the state the lines before it leave.
   */
  predicate Importable(st: CollectorState, logs: seq<string>, isCountdown: string -> bool, hasCallback: bool)
    decreases |logs|, 0
  {
    logs == []
    || (Importable(st, logs[..|logs| - 1], isCountdown, hasCallback)
        && CanStep(Run(st, logs[..|logs| - 1], isCountdown, hasCallback), logs[|logs| - 1]))
  }

  /** `AppendImportLogs(logs)`: the lines applied in order. */
  function Run(st: CollectorState, logs: seq<string>, isCountdown: string -> bool, hasCallback: bool): CollectorState
    requires Importable(st, logs, isCountdown, hasCallback)
    decreases |logs|, 1
  {
    if logs == [] then st
    else Step(Run(st, logs[..|logs| - 1], isCountdown, hasCallback), logs[|logs| - 1], isCountdown, hasCallback)
  }

  // ---------------------------------------------------------------------------
  // Invariants

  /** A kept fight: started at the time of its first line, closed, with the duration of its two boundary times, and no summary yet. */
  predicate IsClosed(f: Fight) {
    |f.logs| > 0
    && f.startDate.Some?
    && DateFromLogLine(f.logs[0]) == f.startDate
    && f.endDate.Some?
    && f.durationMs == Some(f.endDate.value - f.startDate.value)
    && f.info.None?
  }

  /** The open fight: started by its first line (at its time, if it has one), no end yet. */
  predicate IsOpen(f: Fight) {
    |f.logs| > 0
    && f.startDate == DateFromLogLine(f.logs[0])
    && f.endDate.None?
    && f.durationMs.None?
    && f.info.None?
  }

  /** First lines of the kept fights are pairwise distinct. */
  predicate DistinctFirstLines(fights: seq<Fight>) {
    forall i, j :: 0 <= i < j < |fights| ==> FirstLine(fights[i]) != FirstLine(fights[j])
  }

  ghost predicate Inv(st: CollectorState, hasCallback: bool) {
    (st.currentZone.Some? ==> st.currentZone.value != "")
    && (forall i :: 0 <= i < |st.fights| ==> IsClosed(st.fights[i]) && st.fights[i].key == i)
    && DistinctFirstLines(st.fights)
    && (st.currentFight.Some? ==> IsOpen(st.currentFight.value) && st.currentFight.value.key == |st.fights|)
    && st.notified == (if hasCallback then st.fights else [])
  }

  lemma EndFightInv(st: CollectorState, log: string, hasCallback: bool)
    requires Inv(st, hasCallback) && st.currentFight.Some? && st.currentFight.value.startDate.Some?
    requires DateFromLogLine(log).Some?
    ensures Inv(EndFightSpec(st, log, hasCallback), hasCallback)
  {
    var fight := Close(st.currentFight.value, DateFromLogLine(log).value);
    if !IsDuplicate(st.fights, fight) {
      var fs := st.fights + [fight];
      forall i, j | 0 <= i < j < |fs| ensures FirstLine(fs[i]) != FirstLine(fs[j]) {
        if j == |st.fights| {
          assert FirstLine(fs[i]) != FirstLine(fight);
        }
      }
    }
  }

  /** The zone-change half of a step keeps the invariant. */
  lemma ZoneStepInv(st: CollectorState, log: string, hasCallback: bool)
    requires Inv(st, hasCallback) && CanStep(st, log)
    ensures Inv(ZoneStep(st, log, hasCallback), hasCallback)
  {
    var zone := ZoneChange(log);
    if zone.Some? && zone != st.currentZone && st.currentFight.Some? {
      EndFightInv(st, log, hasCallback);
    }
  }

  /** Appending a line to the open fight keeps the invariant. */
  lemma GrowInv(st: CollectorState, log: string, hasCallback: bool)
    requires Inv(st, hasCallback) && st.currentFight.Some?
    ensures var open := st.currentFight.value;
            Inv(st.(currentFight := Some(open.(logs := open.logs + [log]))), hasCallback)
  {
    var open := st.currentFight.value;
    assert (open.logs + [log])[0] == open.logs[0];
  }

  lemma {:induction false} StepInv(st: CollectorState, log: string, isCountdown: string -> bool, hasCallback: bool)
    requires Inv(st, hasCallback) && CanStep(st, log)
    ensures Inv(Step(st, log, isCountdown, hasCallback), hasCallback)
  {
    var st1 := ZoneStep(st, log, hasCallback);
    ZoneStepInv(st, log, hasCallback);
    if st1.currentFight.Some? {
      GrowInv(st1, log, hasCallback);
      var open := st1.currentFight.value;
      var st2 := st1.(currentFight := Some(open.(logs := open.logs + [log])));
      if IsWipe(log) {
        EndFightInv(st2, log, hasCallback);
      }
    }
  }

  /** Every state `AppendImportLogs` can reach satisfies the invariant. */
  lemma {:induction false} RunInv(st: CollectorState, logs: seq<string>, isCountdown: string -> bool, hasCallback: bool)
    requires Inv(st, hasCallback) && Importable(st, logs, isCountdown, hasCallback)
    ensures Inv(Run(st, logs, isCountdown, hasCallback), hasCallback)
    decreases |logs|
  {
    if logs != [] {
      var init := logs[..|logs| - 1];
      RunInv(st, init, isCountdown, hasCallback);
      StepInv(Run(st, init, isCountdown, hasCallback), logs[|logs| - 1], isCountdown, hasCallback);
    }
  }

  // ---------------------------------------------------------------------------
  // What one line does

  /**
   * With no fight open, no line throws; a line that is no countdown leaves
   * the fights and the open fight as they were, whatever markers it carries;
   * a countdown line opens a fight holding just that line, in the zone then
   * current, starting at the line's time (`undefined` when it has none).
   */
  lemma IdleLine(st: CollectorState, log: string, isCountdown: string -> bool, hasCallback: bool)
    requires st.currentFight.None?
    ensures CanStep(st, log)
    ensures var r := Step(st, log, isCountdown, hasCallback);
            r.fights == st.fights && r.notified == st.notified
            && (r.currentFight.Some? <==> isCountdown(log))
            && (isCountdown(log) ==>
                  r.currentFight == Some(Fight(|st.fights|, r.currentZone, DateFromLogLine(log), None, None, [log], None)))
            && r.currentZone == (if ZoneChange(log).Some? then ZoneChange(log) else st.currentZone)
  {
  }

  /** A line that is no countdown and no change of zone is ignored while no fight is open. */
  lemma IgnoredLine(st: CollectorState, log: string, isCountdown: string -> bool, hasCallback: bool)
    requires st.currentFight.None?
    requires !isCountdown(log) && (ZoneChange(log).None? || ZoneChange(log) == st.currentZone)
    ensures CanStep(st, log) && Step(st, log, isCountdown, hasCallback) == st
  {
  }

  /**
   * A change to a different, non-empty zone closes the open fight without
   * appending the line to it, then makes the new zone current; the same line
   * can open the next fight in that zone.
   */
  lemma ZoneChangeClosesFight(st: CollectorState, log: string, isCountdown: string -> bool, hasCallback: bool)
    requires Inv(st, hasCallback) && st.currentFight.Some? && CanStep(st, log)
    requires ZoneChange(log).Some? && ZoneChange(log) != st.currentZone
    ensures DateFromLogLine(log).Some? && st.currentFight.value.startDate.Some?
    ensures var r := Step(st, log, isCountdown, hasCallback);
            var closed := Close(st.currentFight.value, DateFromLogLine(log).value);
            closed.logs == st.currentFight.value.logs
            && r.currentZone == ZoneChange(log)
            && r.fights == (if IsDuplicate(st.fights, closed) then st.fights else st.fights + [closed])
            && r.currentFight == (if isCountdown(log) then
                                    Some(Fight(|r.fights|, ZoneChange(log), DateFromLogLine(log), None, None, [log], None))
                                  else None)
  {
  }

  /**
   * With a fight open and no change to a different zone (a zone change to the
   * current zone included), the line is appended to the open fight, and a
   * wipe line closes the fight as its last line.
   */
  lemma OpenFightAppends(st: CollectorState, log: string, isCountdown: string -> bool, hasCallback: bool)
    requires CanStep(st, log) && st.currentFight.Some?
    requires ZoneChange(log).None? || ZoneChange(log) == st.currentZone
    ensures var r := Step(st, log, isCountdown, hasCallback);
            var grown := st.currentFight.value.(logs := st.currentFight.value.logs + [log]);
            r.currentZone == st.currentZone
            && (!IsWipe(log) ==> r.fights == st.fights && r.currentFight == Some(grown))
            && (IsWipe(log) ==>
                  (r.currentFight.None?
                   && r == EndFightSpec(st.(currentFight := Some(grown)), log, hasCallback)
                   && grown.logs[|grown.logs| - 1] == log))
  {
  }

  /**
   * `EndFight` always clears the open fight, and keeps the closed fight,
   * reporting it to the callback, exactly when no kept fight starts with the
   * same line.
   */
  lemma EndFightKeeps(st: CollectorState, log: string, hasCallback: bool)
    requires Inv(st, hasCallback) && st.currentFight.Some? && st.currentFight.value.startDate.Some?
    requires DateFromLogLine(log).Some?
    ensures var r := EndFightSpec(st, log, hasCallback);
            var closed := Close(st.currentFight.value, DateFromLogLine(log).value);
            r.currentFight.None? && r.currentZone == st.currentZone
            && (IsDuplicate(st.fights, closed) <==> r.fights == st.fights)
            && (!IsDuplicate(st.fights, closed) <==> r.fights == st.fights + [closed])
            && (hasCallback ==> r.notified == r.fights)
  {
  }

  lemma StepKeepsFights(st: CollectorState, log: string, isCountdown: string -> bool, hasCallback: bool)
    requires CanStep(st, log)
    ensures var r := Step(st, log, isCountdown, hasCallback);
            |st.fights| <= |r.fights| && r.fights[..|st.fights|] == st.fights
  {
    var st1 := ZoneStep(st, log, hasCallback);
    assert |st.fights| <= |st1.fights| && st1.fights[..|st.fights|] == st.fights;
  }

  /** Kept fights are only ever appended to: an import keeps every earlier fight, in place. */
  lemma {:induction false} RunKeepsFights(st: CollectorState, logs: seq<string>, isCountdown: string -> bool, hasCallback: bool)
    requires Importable(st, logs, isCountdown, hasCallback)
    ensures var r := Run(st, logs, isCountdown, hasCallback);
            |st.fights| <= |r.fights| && r.fights[..|st.fights|] == st.fights
    decreases |logs|
  {
    if logs != [] {
      var init := logs[..|logs| - 1];
      RunKeepsFights(st, init, isCountdown, hasCallback);
      var mid := Run(st, init, isCountdown, hasCallback);
      StepKeepsFights(mid, logs[|logs| - 1], isCountdown, hasCallback);
      var r := Run(st, logs, isCountdown, hasCallback);
      assert r.fights[..|st.fights|] == r.fights[..|mid.fights|][..|st.fights|];
    }
  }

  /** An import that runs to the end also runs through each of its prefixes. */
  lemma {:induction false} ImportablePrefix(st: CollectorState, logs: seq<string>, n: nat, isCountdown: string -> bool, hasCallback: bool)
    requires Importable(st, logs, isCountdown, hasCallback) && n <= |logs|
    ensures Importable(st, logs[..n], isCountdown, hasCallback)
    decreases |logs|
  {
    if n == |logs| {
      assert logs[..n] == logs;
    } else {
      var init := logs[..|logs| - 1];
      ImportablePrefix(st, init, n, isCountdown, hasCallback);
      assert init[..n] == logs[..n];
    }
  }

  /**
   * Importing the same lines twice does not always give the fights of one
   * import: when the lines end inside a fight, the second copy of the lines
   * is appended to that fight, which then closes and is kept as a new fight.
   */
  lemma ReimportNotIdempotent(countdownA: string, wipe: string, countdownB: string, isCountdown: string -> bool, hasCallback: bool)
    requires isCountdown(countdownA) && isCountdown(countdownB) && !isCountdown(wipe)
    requires IsWipe(wipe) && !IsWipe(countdownA) && !IsWipe(countdownB)
    requires ZoneChange(countdownA).None? && ZoneChange(wipe).None? && ZoneChange(countdownB).None?
    requires DateFromLogLine(countdownA).Some? && DateFromLogLine(wipe).Some? && DateFromLogLine(countdownB).Some?
    requires countdownA != countdownB
    ensures var logs := [countdownA, wipe, countdownB];
            Importable(Initial, logs, isCountdown, hasCallback)
            && Importable(Initial, logs + logs, isCountdown, hasCallback)
            && |Run(Initial, logs, isCountdown, hasCallback).fights| == 1
            && |Run(Initial, logs + logs, isCountdown, hasCallback).fights| == 2
  {
    var logs := [countdownA, wipe, countdownB];
    ImportOnce(countdownA, wipe, countdownB, isCountdown, hasCallback);
    var once := Run(Initial, logs, isCountdown, hasCallback);
    ImportAgain(once, countdownA, wipe, countdownB, isCountdown, hasCallback);
    RunConcat(Initial, logs, logs, isCountdown, hasCallback);
  }

  /** The first copy of the lines keeps the fight opened by `countdownA` and leaves the one opened by `countdownB` open. */
  lemma ImportOnce(countdownA: string, wipe: string, countdownB: string, isCountdown: string -> bool, hasCallback: bool)
    requires isCountdown(countdownA) && isCountdown(countdownB) && !isCountdown(wipe)
    requires IsWipe(wipe) && !IsWipe(countdownA)
    requires ZoneChange(countdownA).None? && ZoneChange(wipe).None? && ZoneChange(countdownB).None?
    requires DateFromLogLine(countdownA).Some? && DateFromLogLine(wipe).Some? && DateFromLogLine(countdownB).Some?
    ensures var logs := [countdownA, wipe, countdownB];
            Importable(Initial, logs, isCountdown, hasCallback)
            && var r := Run(Initial, logs, isCountdown, hasCallback);
               |r.fights| == 1 && FirstLine(r.fights[0]) == Some(countdownA)
               && r.currentFight.Some? && r.currentFight.value.logs == [countdownB]
               && r.currentFight.value.startDate.Some?
  {
    var s1 := Step(Initial, countdownA, isCountdown, hasCallback);
    IdleLine(Initial, countdownA, isCountdown, hasCallback);
    var s2 := Step(s1, wipe, isCountdown, hasCallback);
    OpenFightAppends(s1, wipe, isCountdown, hasCallback);
    IdleLine(s2, countdownB, isCountdown, hasCallback);
    RunSnoc(Initial, [], countdownA, isCountdown, hasCallback);
    RunSnoc(Initial, [countdownA], wipe, isCountdown, hasCallback);
    RunSnoc(Initial, [countdownA, wipe], countdownB, isCountdown, hasCallback);
    assert [] + [countdownA] == [countdownA] && [countdownA] + [wipe] == [countdownA, wipe];
    assert [countdownA, wipe] + [countdownB] == [countdownA, wipe, countdownB];
  }

  /** The second copy of the lines goes to the open fight, which the wipe closes and keeps. */
  lemma ImportAgain(st: CollectorState, countdownA: string, wipe: string, countdownB: string, isCountdown: string -> bool, hasCallback: bool)
    requires isCountdown(countdownB) && !isCountdown(wipe)
    requires IsWipe(wipe) && !IsWipe(countdownA)
    requires ZoneChange(countdownA).None? && ZoneChange(wipe).None? && ZoneChange(countdownB).None?
    requires DateFromLogLine(wipe).Some?
    requires countdownA != countdownB
    requires |st.fights| == 1 && FirstLine(st.fights[0]) == Some(countdownA)
    requires st.currentFight.Some? && st.currentFight.value.logs == [countdownB] && st.currentFight.value.startDate.Some?
    ensures Importable(st, [countdownA, wipe, countdownB], isCountdown, hasCallback)
    ensures |Run(st, [countdownA, wipe, countdownB], isCountdown, hasCallback).fights| == 2
  {
    var s1 := Step(st, countdownA, isCountdown, hasCallback);
    var s2 := Step(s1, wipe, isCountdown, hasCallback);
    WipeKeepsOpenFight(st, countdownA, wipe, countdownB, isCountdown, hasCallback);
    IdleLine(s2, countdownB, isCountdown, hasCallback);
    RunSnoc(st, [], countdownA, isCountdown, hasCallback);
    RunSnoc(st, [countdownA], wipe, isCountdown, hasCallback);
    RunSnoc(st, [countdownA, wipe], countdownB, isCountdown, hasCallback);
    assert [] + [countdownA] == [countdownA] && [countdownA] + [wipe] == [countdownA, wipe];
    assert [countdownA, wipe] + [countdownB] == [countdownA, wipe, countdownB];
  }

  /** With one kept fight and a different one open, a plain line and then a wipe line keep the open fight as a second one. */
  lemma WipeKeepsOpenFight(st: CollectorState, countdownA: string, wipe: string, countdownB: string, isCountdown: string -> bool, hasCallback: bool)
    requires IsWipe(wipe) && !IsWipe(countdownA)
    requires ZoneChange(countdownA).None? && ZoneChange(wipe).None?
    requires DateFromLogLine(wipe).Some?
    requires countdownA != countdownB
    requires |st.fights| == 1 && FirstLine(st.fights[0]) == Some(countdownA)
    requires st.currentFight.Some? && st.currentFight.value.logs == [countdownB] && st.currentFight.value.startDate.Some?
    ensures CanStep(st, countdownA)
    ensures var s1 := Step(st, countdownA, isCountdown, hasCallback);
            CanStep(s1, wipe)
            && var s2 := Step(s1, wipe, isCountdown, hasCallback);
               |s2.fights| == 2 && s2.currentFight.None?
  {
    var s1 := Step(st, countdownA, isCountdown, hasCallback);
    OpenFightAppends(st, countdownA, isCountdown, hasCallback);
    assert s1.fights == st.fights && s1.currentFight.Some? && s1.currentFight.value.logs == [countdownB, countdownA];
    assert s1.currentFight.value.startDate == st.currentFight.value.startDate;
    OpenFightAppends(s1, wipe, isCountdown, hasCallback);
    var grown := s1.currentFight.value.(logs := [countdownB, countdownA, wipe]);
    var closed := Close(grown, DateFromLogLine(wipe).value);
    assert FirstLine(s1.fights[0]) != FirstLine(closed);
    assert !IsDuplicate(s1.fights, closed);
  }

  /**
   * Importing `a + b` is importing `a`, then `b`: two calls of
   * `AppendImportLogs` act as one, and the one throws exactly when the second
   * of the two does.
   */
  lemma {:induction false} RunConcat(st: CollectorState, a: seq<string>, b: seq<string>, isCountdown: string -> bool, hasCallback: bool)
    requires Importable(st, a, isCountdown, hasCallback)
    ensures Importable(st, a + b, isCountdown, hasCallback) <==> Importable(Run(st, a, isCountdown, hasCallback), b, isCountdown, hasCallback)
    ensures Importable(st, a + b, isCountdown, hasCallback) ==>
              Run(st, a + b, isCountdown, hasCallback) == Run(Run(st, a, isCountdown, hasCallback), b, isCountdown, hasCallback)
    decreases |b|
  {
    var mid := Run(st, a, isCountdown, hasCallback);
    if b == [] {
      assert a + b == a;
    } else {
      var init := b[..|b| - 1];
      var last := b[|b| - 1];
      assert a + b == (a + init) + [last];
      RunConcat(st, a, init, isCountdown, hasCallback);
      RunSnoc(st, a + init, last, isCountdown, hasCallback);
      RunSnoc(mid, init, last, isCountdown, hasCallback);
      assert init + [last] == b;
    }
  }

  /** An import of `logs + [log]` is the import of `logs` followed by one more step. */
  lemma RunSnoc(st: CollectorState, logs: seq<string>, log: string, isCountdown: string -> bool, hasCallback: bool)
    ensures Importable(st, logs + [log], isCountdown, hasCallback)
            <==> Importable(st, logs, isCountdown, hasCallback) && CanStep(Run(st, logs, isCountdown, hasCallback), log)
    ensures Importable(st, logs + [log], isCountdown, hasCallback) ==>
              Run(st, logs + [log], isCountdown, hasCallback)
              == Step(Run(st, logs, isCountdown, hasCallback), log, isCountdown, hasCallback)
  {
    assert (logs + [log])[..|logs|] == logs;
  }

  // ---------------------------------------------------------------------------
  // The collector

  class LogCollector {
    var currentZone: Option<string>
    var currentFight: Option<Fight>
    var fights: seq<Fight>
    /** The fights passed to `addFightCallback`, in call order. */
    var notified: seq<Fight>
    /** `gLang.countdownEngageRegex()` matches the line. */
    const isCountdown: string -> bool
    /** An `addFightCallback` was given. */
    const hasCallback: bool

    function State(): CollectorState
      reads this
    {
      CollectorState(currentZone, currentFight, fights, notified)
    }

    ghost predicate Valid()
      reads this
    {
      Inv(State(), hasCallback)
    }

    constructor(isCountdown: string -> bool, hasCallback: bool)
      ensures Valid() && State() == Initial
      ensures this.isCountdown == isCountdown && this.hasCallback == hasCallback
    {
      this.currentZone := None;
      this.fights := [];
      this.currentFight := None;
      this.notified := [];
      this.isCountdown := isCountdown;
      this.hasCallback := hasCallback;
    }

    method AppendImportLogs(logs: seq<string>)
      requires Valid() && Importable(State(), logs, isCountdown, hasCallback)
      modifies this
      ensures Valid()
      ensures State() == Run(old(State()), logs, isCountdown, hasCallback)
    {
      for i := 0 to |logs|
        invariant Importable(old(State()), logs[..i], isCountdown, hasCallback)
        invariant State() == Run(old(State()), logs[..i], isCountdown, hasCallback)
      {
        ImportablePrefix(old(State()), logs, i + 1, isCountdown, hasCallback);
        assert logs[..i + 1][..i] == logs[..i];
        AppendLine(logs[i]);
      }
      assert logs[..|logs|] == logs;
      RunInv(old(State()), logs, isCountdown, hasCallback);
    }

    /** The body of the loop of `AppendImportLogs`, for one line. */
    method AppendLine(log: string)
      requires CanStep(State(), log)
      modifies this
      ensures State() == Step(old(State()), log, isCountdown, hasCallback)
    {
      var logZoneChange := ParseZoneChange(log);
      if logZoneChange.Some? && logZoneChange.value != "" && logZoneChange != currentZone {
        if currentFight.Some? {
          EndFight(log);
        }
        currentZone := logZoneChange;
      }
      assert State() == ZoneStep(old(State()), log, hasCallback);

      if currentFight.Some? {
        currentFight := Some(currentFight.value.(logs := currentFight.value.logs + [log]));
        if IsWipe(log) {
          EndFight(log);
        }
      } else if isCountdown(log) {
        currentFight := Some(Fight(|fights|, currentZone, DateFromLogLine(log), None, None, [log], None));
      }
    }

    method EndFight(log: string)
      requires currentFight.Some? && currentFight.value.startDate.Some? && DateFromLogLine(log).Some?
      modifies this
      ensures State() == EndFightSpec(old(State()), log, hasCallback)
    {
      var endDate := DateFromLogLine(log).value;
      var fight := currentFight.value;
      fight := fight.(durationMs := Some(endDate - fight.startDate.value), endDate := Some(endDate));

      currentFight := None;
      for i := 0 to |fights|
        invariant forall k :: 0 <= k < i ==> FirstLine(fights[k]) != FirstLine(fight)
      {
        var f := fights[i];
        if FirstLine(f) == FirstLine(fight) {
          return;
        }
      }

      fights := fights + [fight];
      if hasCallback {
        notified := notified + [fight];
      }
    }
  }
}
