/**
 * The fight summary of the emulator view: the zone, the start and end times,
 * whether the fight was cleared, and the sorted list of actors that used an
 * ability. `EmulatorView.ShowFightInfo` computes it once per fight and caches
 * it in the fight's `info` field.
 *
 * `Summary` is the text as a function of the fight; the method
 * `EmulatorView.ShowFightInfo` computes it with the source's loop and is
 * proved to agree with it.
 */
module Summary {
  import opened Wrappers
  import opened LogPatterns
  import opened LogTime
  import opened Collector

  // ---------------------------------------------------------------------------
  // The order of `Array.prototype.sort` without a comparator

  /** `a` sorts before `b`: at the first differing position `a` has the smaller character, or `a` is a proper prefix of `b`. */
  predicate Below(a: string, b: string)
    decreases |a|
  {
    if a == [] then b != []
    else if b == [] then false
    else if a[0] != b[0] then a[0] < b[0]
    else Below(a[1..], b[1..])
  }

  lemma {:induction false} BelowIrreflexive(a: string)
    ensures !Below(a, a)
    decreases |a|
  {
    if a != [] {
      BelowIrreflexive(a[1..]);
    }
  }

  lemma {:induction false} BelowTransitive(a: string, b: string, c: string)
    requires Below(a, b) && Below(b, c)
    ensures Below(a, c)
    decreases |a|
  {
    if a != [] && a[0] == b[0] && b[0] == c[0] {
      BelowTransitive(a[1..], b[1..], c[1..]);
    }
  }

  /** Any two different strings are ordered one way or the other. */
  lemma {:induction false} BelowTotal(a: string, b: string)
    ensures a == b || Below(a, b) || Below(b, a)
    decreases |a|
  {
    if a != [] && b != [] && a[0] == b[0] {
      BelowTotal(a[1..], b[1..]);
      assert a == [a[0]] + a[1..] && b == [b[0]] + b[1..];
    }
  }

  predicate StrictlySorted(xs: seq<string>) {
    forall i, j :: 0 <= i < j < |xs| ==> Below(xs[i], xs[j])
  }

  /** `x` put in its place in a sorted list; nothing happens when it is already there. */
  function InsertSorted(xs: seq<string>, x: string): (r: seq<string>)
    requires StrictlySorted(xs)
    ensures StrictlySorted(r)
    ensures forall y :: y in r <==> y in xs || y == x
    decreases |xs|
  {
    if xs == [] then [x]
    else if x == xs[0] then xs
    else if Below(x, xs[0]) then
      assert forall j :: 0 <= j < |xs| ==> Below(x, xs[j]) by {
        forall j | 0 < j < |xs| ensures Below(x, xs[j]) {
          BelowTransitive(x, xs[0], xs[j]);
        }
      }
      [x] + xs
    else
      BelowTotal(x, xs[0]);
      var tail := InsertSorted(xs[1..], x);
      assert forall y :: y in tail ==> Below(xs[0], y) by {
        forall y | y in tail ensures Below(xs[0], y) {
          if y != x {
            var j :| 1 <= j < |xs| && xs[j] == y;
          }
        }
      }
      assert forall y :: y in xs <==> y == xs[0] || y in xs[1..] by {
        assert xs == [xs[0]] + xs[1..];
      }
      [xs[0]] + tail
  }

  /** Two sorted lists of the same strings are the same list. */
  lemma {:induction false} SortedUnique(a: seq<string>, b: seq<string>)
    requires StrictlySorted(a) && StrictlySorted(b)
    requires forall y :: y in a <==> y in b
    ensures a == b
    decreases |a|
  {
    assert a != [] ==> a[0] in a;
    assert b != [] ==> b[0] in b;
    if a == [] || b == [] {
    } else if a[0] != b[0] {
      assert a[0] in b && b[0] in a;
      var j :| 0 <= j < |b| && b[j] == a[0];
      var i :| 0 <= i < |a| && a[i] == b[0];
      BelowTransitive(a[0], b[0], a[0]);
      BelowIrreflexive(a[0]);
      assert false;
    } else {
      forall y ensures y in a[1..] <==> y in b[1..] {
        BelowIrreflexive(y);
        assert y in a <==> y == a[0] || y in a[1..] by { assert a == [a[0]] + a[1..]; }
        assert y in b <==> y == b[0] || y in b[1..] by { assert b == [b[0]] + b[1..]; }
        if y in a[1..] {
          var k :| 1 <= k < |a| && a[k] == y;
        }
        if y in b[1..] {
          var k :| 1 <= k < |b| && b[k] == y;
        }
      }
      SortedUnique(a[1..], b[1..]);
      assert a == [a[0]] + a[1..] && b == [b[0]] + b[1..];
    }
  }

  /** The strings of `s` in sort order: the one sorted list that holds exactly them. */
  ghost function SortSet(s: set<string>): (r: seq<string>)
    ensures StrictlySorted(r)
    ensures forall y :: y in r <==> y in s
    decreases s
  {
    if s == {} then []
    else
      var x :| x in s;
      InsertSorted(SortSet(s - {x}), x)
  }

  /** `Array.prototype.join(sep)`. */
  function Join(xs: seq<string>, sep: string): string
    decreases |xs|
  {
    if xs == [] then ""
    else if |xs| == 1 then xs[0]
    else xs[0] + sep + Join(xs[1..], sep)
  }

  // ---------------------------------------------------------------------------
  // What the summary is made of

  /** Some line of `logs` reports a clear. */
  predicate HasClear(logs: seq<string>)
    decreases |logs|
  {
    logs != [] && (HasClear(logs[..|logs| - 1]) || IsClear(logs[|logs| - 1]))
  }

  lemma {:induction false} HasClearMeaning(logs: seq<string>)
    ensures HasClear(logs) <==> exists k :: 0 <= k < |logs| && IsClear(logs[k])
    decreases |logs|
  {
    if logs != [] {
      var init := logs[..|logs| - 1];
      HasClearMeaning(init);
      assert forall k :: 0 <= k < |init| ==> init[k] == logs[k];
      assert logs == init + [logs[|logs| - 1]];
    }
  }

  /** Every line that passes the `indexOf(' 15:')` / `indexOf(' 16:')` test matches the actor expression, so `m[1]` is defined. */
  predicate ActorsNamed(logs: seq<string>) {
    forall k :: 0 <= k < |logs| && MentionsActor(logs[k]) ==> ActorName(logs[k]).Some?
  }

  /** What one line adds to `actorMap`: `m[1]` when the line names an actor. */
  function Capture(log: string): Option<string> {
    if MentionsActor(log) then ActorName(log) else None
  }

  /** `Capture` of each line, in order. */
  function Captures(logs: seq<string>): (r: seq<Option<string>>)
    ensures |r| == |logs|
    decreases |logs|
  {
    if logs == [] then [] else Captures(logs[..|logs| - 1]) + [Capture(logs[|logs| - 1])]
  }

  lemma {:induction false} CapturesAt(logs: seq<string>, k: nat)
    requires k < |logs|
    ensures Captures(logs)[k] == Capture(logs[k])
    decreases |logs|
  {
    if k < |logs| - 1 {
      CapturesAt(logs[..|logs| - 1], k);
    }
  }

  /** The names among `caps`, as the keys of an object that each is stored in. */
  function Gather(caps: seq<Option<string>>): set<string>
    decreases |caps|
  {
    if caps == [] then {}
    else
      var last := caps[|caps| - 1];
      Gather(caps[..|caps| - 1]) + (if last.Some? then {last.value} else {})
  }

  lemma {:induction false} GatherMeaning(caps: seq<Option<string>>, name: string)
    ensures name in Gather(caps) <==> Some(name) in caps
    decreases |caps|
  {
    if caps != [] {
      var init := caps[..|caps| - 1];
      GatherMeaning(init, name);
      assert caps == init + [caps[|caps| - 1]];
    }
  }

  /** The keys stored in `actorMap`: the captured name of every line naming an actor. */
  function Captured(logs: seq<string>): set<string> {
    Gather(Captures(logs))
  }

  /**
   * The names the summary lists: `Object.keys(actorMap)` never holds
   * "__proto__" (assigning it on a plain object only tries to replace the
   * prototype), and the filter drops the falsy "".
   */
  function Listed(names: set<string>): set<string> {
    names - {"__proto__", ""}
  }

  /** The actors of a fight: every name some line of it captures, except "" and "__proto__". */
  lemma ActorsOfFight(logs: seq<string>, name: string)
    ensures name in Listed(Captured(logs)) <==>
            name != "" && name != "__proto__"
            && exists k :: 0 <= k < |logs| && MentionsActor(logs[k]) && ActorName(logs[k]) == Some(name)
  {
    GatherMeaning(Captures(logs), name);
    if Some(name) in Captures(logs) {
      var k :| 0 <= k < |logs| && Captures(logs)[k] == Some(name);
      CapturesAt(logs, k);
    }
    if exists k :: 0 <= k < |logs| && MentionsActor(logs[k]) && ActorName(logs[k]) == Some(name) {
      var k :| 0 <= k < |logs| && MentionsActor(logs[k]) && ActorName(logs[k]) == Some(name);
      CapturesAt(logs, k);
    }
  }

  /** `fight.zoneName` as string concatenation shows it: `null` for a fight that started before any zone change. */
  function ZoneText(zoneName: Option<string>): string {
    if zoneName.Some? then zoneName.value else "null"
  }

  /**
   * A fight the summary can be computed for: it has a start and an end date
   * (`DateToTimeStr` calls `getHours()` on both), and every actor line names
   * an actor.
   */
  predicate Summarizable(f: Fight) {
    f.startDate.Some? && f.endDate.Some? && ActorsNamed(f.logs)
  }

  /** `fight.info` is truthy. */
  predicate Cached(f: Fight) {
    f.info.Some? && f.info.value != ""
  }

  /** The summary of a fight. */
  ghost function Summary(f: Fight): (r: string)
    requires Summarizable(f)
  {
    ZoneText(f.zoneName) + "\n"
    + "From " + DateToTimeStr(f.startDate.value) + " to " + DateToTimeStr(f.endDate.value)
    + (if HasClear(f.logs) then " (Clear)" else " (Wipe?)") + "\n"
    + Join(SortSet(Listed(Captured(f.logs))), ", ")
  }

  /**
   * Once computed, the summary is cached: showing the same fight again
   * shows the same text without walking its lines.
   */
  lemma SummaryCached(f: Fight)
    requires Summarizable(f)
    ensures Cached(f.(info := Some(Summary(f))))
  {
    assert Summary(f)[|ZoneText(f.zoneName)|] == '\n';
  }

  /**
   * The walk over the fight's lines: whether one reports a clear, and the
   * set of actor names the lines mention.
   */
  method ScanLines(logs: seq<string>) returns (isClear: bool, actorMap: set<string>)
    requires ActorsNamed(logs)
    ensures isClear == HasClear(logs)
    ensures actorMap == Captured(logs)
  {
    isClear := false;
    actorMap := {};
    for i := 0 to |logs|
      invariant isClear == HasClear(logs[..i])
      invariant actorMap == Captured(logs[..i])
    {
      var log := logs[i];
      assert logs[..i + 1][..i] == logs[..i] && logs[..i + 1][i] == log;
      if Contains(log, " 21:") && FindFrom(ClearControl, log, 0).Some? {
        isClear := true;
      }
      if Contains(log, " 15:") || Contains(log, " 16:") {
        var m := ActorName(log);
        actorMap := actorMap + {m.value};
      }
    }
    assert logs[..|logs|] == logs;
  }

  /** `Object.keys(actorMap).sort()`: the names in increasing order, each once. */
  method SortedKeys(keys: set<string>) returns (actors: seq<string>)
    ensures actors == SortSet(keys)
  {
    actors := [];
    var rest := keys;
    while rest != {}
      invariant rest <= keys
      invariant StrictlySorted(actors)
      invariant forall y :: y in actors <==> y in keys && y !in rest
      decreases rest
    {
      var x :| x in rest;
      actors := InsertSorted(actors, x);
      rest := rest - {x};
    }
    SortedUnique(actors, SortSet(keys));
  }

  /** A closed fight the collector keeps can be summarized once its actor lines are well formed. */
  lemma ClosedSummarizable(f: Fight)
    requires IsClosed(f) && ActorsNamed(f.logs)
    ensures Summarizable(f) && !Cached(f)
  {
  }

  // ---------------------------------------------------------------------------
  // The view

  class EmulatorView {
    /** `infoElement.innerText`. */
    var infoText: string

    /** The view takes the info element as the page hands it over; it writes no text of its own until a fight is shown. */
    constructor(pageText: string)
      ensures infoText == pageText
    {
      infoText := pageText;
    }

    /**
     * Shows the summary of `fight` (nothing for no fight). A cached summary is
     * shown as it is; otherwise it is computed, shown, and stored in the
     * returned fight's `info`.
     */
    method ShowFightInfo(fight: Option<Fight>) returns (updated: Option<Fight>)
      requires fight.Some? && !Cached(fight.value) ==> Summarizable(fight.value)
      modifies this
      ensures fight.None? ==> infoText == "" && updated.None?
      ensures fight.Some? && Cached(fight.value) ==> infoText == fight.value.info.value && updated == fight
      ensures fight.Some? && !Cached(fight.value) ==>
                infoText == Summary(fight.value) && updated == Some(fight.value.(info := Some(infoText)))
    {
      if fight.None? {
        infoText := "";
        return None;
      }
      var f := fight.value;
      if f.info.Some? && f.info.value != "" {
        infoText := f.info.value;
        return fight;
      }

      var isClear, actorMap := ScanLines(f.logs);

      var info := ZoneText(f.zoneName) + "\n";
      info := info + "From " + DateToTimeStr(f.startDate.value);
      info := info + " to " + DateToTimeStr(f.endDate.value);
      info := info + (if isClear then " (Clear)" else " (Wipe?)");
      info := info + "\n";
      var actors := SortedKeys(Listed(actorMap));
      info := info + Join(actors, ", ");

      infoText := info;
      updated := Some(f.(info := Some(info)));
    }
  }
}
