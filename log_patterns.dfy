/**
 * The fixed-shape regular expressions and substring tests that the raid
 * emulator applies to network log lines: the wipe and clear actor-control
 * markers, the synthetic wipe line, zone changes and the actor names of
 * ability lines. A pattern without quantifiers is a sequence of atoms; the
 * two patterns with a capture group get their own leftmost, greedy search.
 */
module LogPatterns {
  import opened Wrappers

  /** One position of a quantifier-free JavaScript regular expression. */
  datatype Atom = Lit(c: char) | Dot | Digit | OneOf(a: char, b: char)

  type Pattern = seq<Atom>

  /** The characters JavaScript's `.` refuses to match. */
  predicate IsLineTerminator(c: char) {
    c == '\n' || c == '\r' || c == '\U{2028}' || c == '\U{2029}'
  }

  /** `\d` in JavaScript: the ASCII digits only. */
  predicate IsDigit(c: char) {
    '0' <= c <= '9'
  }

  predicate AtomMatches(a: Atom, c: char) {
    match a
    case Lit(l) => c == l
    case Dot => !IsLineTerminator(c)
    case Digit => IsDigit(c)
    case OneOf(x, y) => c == x || c == y
  }

  /** `p` matches the characters of `s` starting at index `i`. */
  predicate MatchesAt(p: Pattern, s: string, i: nat) {
    i + |p| <= |s| && forall k :: 0 <= k < |p| ==> AtomMatches(p[k], s[i + k])
  }

  /** `s.match(p)` is not null. */
  ghost predicate Occurs(p: Pattern, s: string) {
    exists i: nat :: MatchesAt(p, s, i)
  }

  /** The pattern that matches exactly the text `t`. */
  function Literal(t: string): (p: Pattern)
    ensures |p| == |t|
    ensures forall k :: 0 <= k < |t| ==> p[k] == Lit(t[k])
  {
    seq(|t|, k requires 0 <= k < |t| => Lit(t[k]))
  }

  /** `n` unescaped dots. */
  function Dots(n: nat): (p: Pattern)
    ensures |p| == n
    ensures forall k :: 0 <= k < n ==> p[k] == Dot
  {
    seq(n, _ => Dot)
  }

  /** The text `t` stands in `s` at index `i`. */
  predicate SubstringAt(s: string, t: string, i: nat) {
    i + |t| <= |s| && s[i..i + |t|] == t
  }

  lemma MatchesConcat(p: Pattern, q: Pattern, s: string, i: nat)
    ensures MatchesAt(p + q, s, i) <==> MatchesAt(p, s, i) && MatchesAt(q, s, i + |p|)
  {
    if MatchesAt(p + q, s, i) {
      forall k | 0 <= k < |p| ensures AtomMatches(p[k], s[i + k]) {
        assert (p + q)[k] == p[k];
      }
      forall k | 0 <= k < |q| ensures AtomMatches(q[k], s[i + |p| + k]) {
        assert (p + q)[|p| + k] == q[k];
      }
    }
    if MatchesAt(p, s, i) && MatchesAt(q, s, i + |p|) {
      forall k | 0 <= k < |p + q| ensures AtomMatches((p + q)[k], s[i + k]) {
        if k >= |p| {
          assert (p + q)[k] == q[k - |p|];
          assert AtomMatches(q[k - |p|], s[i + |p| + (k - |p|)]);
        }
      }
    }
  }

  lemma MatchesLiteral(t: string, s: string, i: nat)
    ensures MatchesAt(Literal(t), s, i) <==> SubstringAt(s, t, i)
  {
    if MatchesAt(Literal(t), s, i) {
      assert forall k :: 0 <= k < |t| ==> s[i..i + |t|][k] == s[i + k] == t[k] by {
        forall k | 0 <= k < |t| ensures s[i + k] == t[k] {
          assert AtomMatches(Literal(t)[k], s[i + k]);
        }
      }
    }
    if SubstringAt(s, t, i) {
      forall k | 0 <= k < |t| ensures AtomMatches(Literal(t)[k], s[i + k]) {
        assert s[i..i + |t|][k] == s[i + k];
      }
    }
  }

  /** Leftmost index at or after `from` where `p` matches `s`, the way a regular expression engine scans. */
  function FindFrom(p: Pattern, s: string, from: nat): (r: Option<nat>)
    ensures r.Some? ==> from <= r.value && MatchesAt(p, s, r.value)
    ensures r.Some? ==> forall j: nat :: from <= j < r.value ==> !MatchesAt(p, s, j)
    ensures r.None? ==> forall j: nat :: from <= j ==> !MatchesAt(p, s, j)
    decreases |s| - from
  {
    if from + |p| > |s| then None
    else if MatchesAt(p, s, from) then Some(from)
    else FindFrom(p, s, from + 1)
  }

  /** `s.indexOf(t) != -1`. */
  function Contains(s: string, t: string): (r: bool)
    ensures r <==> exists i: nat :: SubstringAt(s, t, i)
  {
    var found := FindFrom(Literal(t), s, 0);
    if found.Some? then
      MatchesLiteral(t, s, found.value);
      true
    else
      assert forall i: nat :: !SubstringAt(s, t, i) by {
        forall i: nat ensures !SubstringAt(s, t, i) {
          MatchesLiteral(t, s, i);
        }
      }
      false
  }

  // ---------------------------------------------------------------------------
  // Markers

  /** The literal line the emulator injects to signal the end of a replay. */
  const WipeMarker: string := "00:0038:cactbot wipe"

  /** `/ 21:........:40000010:/`: the actor control line that reports a wipe. */
  const WipeControl: Pattern := Literal(" 21:") + Dots(8) + Literal(":40000010:")

  /** `/ 21:........:40000003:/`: the actor control line that reports a clear. */
  const ClearControl: Pattern := Literal(" 21:") + Dots(8) + Literal(":40000003:")

  /** A line that ends the open fight: a wipe actor control line or the synthetic wipe text. */
  predicate IsWipe(log: string) {
    FindFrom(WipeControl, log, 0).Some? || Contains(log, WipeMarker)
  }

  /** The clear test of the fight summary, `indexOf(' 21:')` guarding the regular expression. */
  predicate IsClear(log: string) {
    Contains(log, " 21:") && FindFrom(ClearControl, log, 0).Some?
  }

  /** An actor control line `" 21:" + eight non-terminators + ":" + code + ":"` at index `i`. */
  predicate ControlAt(s: string, code: string, i: nat)
    requires |code| == 8
  {
    SubstringAt(s, " 21:", i)
    && i + 22 <= |s|
    && (forall k :: i + 4 <= k < i + 12 ==> !IsLineTerminator(s[k]))
    && SubstringAt(s, ":" + code + ":", i + 12)
  }

  lemma ControlPatternAt(code: string, s: string, i: nat)
    requires |code| == 8
    ensures MatchesAt(Literal(" 21:") + Dots(8) + Literal(":" + code + ":"), s, i) <==> ControlAt(s, code, i)
  {
    var p := Literal(" 21:") + Dots(8);
    MatchesConcat(p, Literal(":" + code + ":"), s, i);
    MatchesConcat(Literal(" 21:"), Dots(8), s, i);
    MatchesLiteral(" 21:", s, i);
    MatchesLiteral(":" + code + ":", s, i + 12);
    if MatchesAt(Dots(8), s, i + 4) {
      forall k | i + 4 <= k < i + 12 ensures !IsLineTerminator(s[k]) {
        assert AtomMatches(Dots(8)[k - (i + 4)], s[i + 4 + (k - (i + 4))]);
      }
    }
  }

  /** The wipe test, stated without patterns: a wipe actor control line or the synthetic wipe text somewhere in the line. */
  lemma IsWipeMeaning(log: string)
    ensures IsWipe(log) <==>
              (exists i: nat :: ControlAt(log, "40000010", i)) || (exists i: nat :: SubstringAt(log, WipeMarker, i))
  {
    assert WipeControl == Literal(" 21:") + Dots(8) + Literal(":" + "40000010" + ":");
    forall i: nat ensures MatchesAt(WipeControl, log, i) <==> ControlAt(log, "40000010", i) {
      ControlPatternAt("40000010", log, i);
    }
    var found := FindFrom(WipeControl, log, 0);
    if found.Some? {
      assert ControlAt(log, "40000010", found.value);
    }
  }

  /** The `indexOf(' 21:')` guard of the clear test is implied by the regular expression it guards. */
  lemma IsClearMeaning(log: string)
    ensures IsClear(log) <==> exists i: nat :: ControlAt(log, "40000003", i)
  {
    assert ClearControl == Literal(" 21:") + Dots(8) + Literal(":" + "40000003" + ":");
    forall i: nat ensures MatchesAt(ClearControl, log, i) <==> ControlAt(log, "40000003", i) {
      ControlPatternAt("40000003", log, i);
    }
    var found := FindFrom(ClearControl, log, 0);
    if found.Some? {
      assert ControlAt(log, "40000003", found.value);
      assert SubstringAt(log, " 21:", found.value);
    }
  }

  // ---------------------------------------------------------------------------
  // Zone changes: `/ 01:Changed Zone to (.*)\./`

  const ZonePrefix: string := " 01:Changed Zone to "

  /** `s[j]` is a '.' that `(.*)\.` can reach from `start`: no line terminator lies before it. */
  predicate DotEnd(s: string, start: nat, j: nat) {
    start <= j < |s| && s[j] == '.' && forall k :: start <= k < j ==> !IsLineTerminator(s[k])
  }

  /** Where the greedy `(.*)\.` started at `start` ends: the last reachable '.'. */
  function LastDotEnd(s: string, start: nat): (r: Option<nat>)
    ensures r.Some? ==> DotEnd(s, start, r.value)
    ensures r.Some? ==> forall j: nat :: DotEnd(s, start, j) ==> j <= r.value
    ensures r.None? ==> forall j: nat :: !DotEnd(s, start, j)
    decreases |s| - start
  {
    if start >= |s| || IsLineTerminator(s[start]) then None
    else
      var rest := LastDotEnd(s, start + 1);
      assert forall j: nat :: DotEnd(s, start, j) && j != start ==> DotEnd(s, start + 1, j);
      if rest.Some? then rest
      else if s[start] == '.' then Some(start)
      else None
  }

  /** The zone-change expression matches from `i`, its capture ending before the '.' at `j`. */
  predicate ZoneMatch(s: string, i: nat, j: nat) {
    SubstringAt(s, ZonePrefix, i) && DotEnd(s, i + |ZonePrefix|, j)
  }

  /** The span of the zone-change match a regular expression engine reports: the leftmost start, then the longest capture. */
  function ZoneMatchFrom(s: string, from: nat): (r: Option<(nat, nat)>)
    ensures r.Some? ==> from <= r.value.0 && ZoneMatch(s, r.value.0, r.value.1)
    ensures r.Some? ==> forall i: nat, j: nat :: from <= i < r.value.0 ==> !ZoneMatch(s, i, j)
    ensures r.Some? ==> forall j: nat :: ZoneMatch(s, r.value.0, j) ==> j <= r.value.1
    ensures r.None? ==> forall i: nat, j: nat :: from <= i ==> !ZoneMatch(s, i, j)
    decreases |s| - from
  {
    if from + |ZonePrefix| > |s| then None
    else
      var end := LastDotEnd(s, from + |ZonePrefix|);
      if SubstringAt(s, ZonePrefix, from) && end.Some? then Some((from, end.value))
      else ZoneMatchFrom(s, from + 1)
  }

  /** `ParseZoneChange`: the captured zone name, or `None` (`undefined`) when the line is no zone change. */
  function ParseZoneChange(log: string): (r: Option<string>)
    ensures r.Some? <==> exists i: nat, j: nat :: ZoneMatch(log, i, j)
    ensures r.Some? ==> exists i: nat :: SubstringAt(log, ZonePrefix + r.value + ".", i)
    ensures r.Some? ==> forall k :: 0 <= k < |r.value| ==> !IsLineTerminator(r.value[k])
  {
    var span := ZoneMatchFrom(log, 0);
    if span.None? then None
    else
      var (i, j) := span.value;
      var name := log[i + |ZonePrefix| .. j];
      assert log[i..j + 1] == ZonePrefix + name + "." by {
        assert log[i..j + 1] == log[i..i + |ZonePrefix|] + log[i + |ZonePrefix|..j] + [log[j]];
      }
      assert SubstringAt(log, ZonePrefix + name + ".", i);
      Some(name)
  }

  /**
   * The name `ParseZoneChange` returns is `m[1]` of the match a regular
   * expression engine reports: the match starts at the leftmost place the
   * expression matches, and the greedy `(.*)` runs to the last '.' it can
   * reach from there.
   */
  lemma ParseZoneChangeMeaning(log: string)
    ensures ParseZoneChange(log).Some? ==>
              exists i: nat, j: nat ::
                ZoneMatch(log, i, j)
                && (forall i': nat, j': nat :: i' < i ==> !ZoneMatch(log, i', j'))
                && (forall j': nat :: ZoneMatch(log, i, j') ==> j' <= j)
                && ParseZoneChange(log).value == log[i + |ZonePrefix| .. j]
  {
    var span := ZoneMatchFrom(log, 0);
    if span.Some? {
      var (i, j) := span.value;
      assert ZoneMatch(log, i, j);
    }
  }

  // ---------------------------------------------------------------------------
  // Actor names: `/ 1[56]:........:([^:]*):/`

  /** The part of the actor expression before its capture group; it is 13 characters long. */
  const ActorPrefix: Pattern := Literal(" 1") + [OneOf('5', '6')] + Literal(":") + Dots(8) + Literal(":")

  /** `s[j]` is the ':' closing `([^:]*):` started at `start`: the first ':' from there. */
  predicate ColonEnd(s: string, start: nat, j: nat) {
    start <= j < |s| && s[j] == ':' && forall k :: start <= k < j ==> s[k] != ':'
  }

  function FirstColon(s: string, start: nat): (r: Option<nat>)
    ensures r.Some? ==> ColonEnd(s, start, r.value)
    ensures r.None? ==> forall j: nat :: !ColonEnd(s, start, j)
    decreases |s| - start
  {
    if start >= |s| then None
    else if s[start] == ':' then Some(start)
    else
      assert forall j: nat :: ColonEnd(s, start, j) ==> ColonEnd(s, start + 1, j);
      FirstColon(s, start + 1)
  }

  predicate ActorMatch(s: string, i: nat, j: nat) {
    MatchesAt(ActorPrefix, s, i) && ColonEnd(s, i + |ActorPrefix|, j)
  }

  /** The leftmost match of the actor expression at or after `from`. */
  function ActorMatchFrom(s: string, from: nat): (r: Option<(nat, nat)>)
    ensures r.Some? ==> from <= r.value.0 && ActorMatch(s, r.value.0, r.value.1)
    ensures r.Some? ==> forall i: nat, j: nat :: from <= i < r.value.0 ==> !ActorMatch(s, i, j)
    ensures r.None? ==> forall i: nat, j: nat :: from <= i ==> !ActorMatch(s, i, j)
    decreases |s| - from
  {
    if from + |ActorPrefix| > |s| then None
    else
      var end := FirstColon(s, from + |ActorPrefix|);
      if MatchesAt(ActorPrefix, s, from) && end.Some? then Some((from, end.value))
      else ActorMatchFrom(s, from + 1)
  }

  /** The line names an actor the way the summary tests it: `indexOf(' 15:')` or `indexOf(' 16:')`. */
  predicate MentionsActor(log: string) {
    Contains(log, " 15:") || Contains(log, " 16:")
  }

  /**
   * `m[1]` of the actor expression: the text after the prefix `" 1[56]:"`,
   * eight characters and `":"` of the leftmost match, up to the next ':'.
   */
  function ActorName(log: string): (r: Option<string>)
    ensures r.Some? <==> exists i: nat, j: nat :: ActorMatch(log, i, j)
    ensures r.Some? ==> forall k :: 0 <= k < |r.value| ==> r.value[k] != ':'
  {
    var span := ActorMatchFrom(log, 0);
    if span.None? then None
    else Some(log[span.value.0 + |ActorPrefix| .. span.value.1])
  }

  /**
   * The name `ActorName` returns is `m[1]` of the leftmost match of the actor
   * expression: the text from the end of that match's prefix to the first
   * ':' after it.
   */
  lemma ActorNameMeaning(log: string)
    ensures ActorName(log).Some? ==>
              exists i: nat, j: nat ::
                ActorMatch(log, i, j)
                && (forall i': nat, j': nat :: i' < i ==> !ActorMatch(log, i', j'))
                && ActorName(log).value == log[i + |ActorPrefix| .. j]
  {
    var span := ActorMatchFrom(log, 0);
    if span.Some? {
      var (i, j) := span.value;
      assert ActorMatch(log, i, j);
    }
  }
}
