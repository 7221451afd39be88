/** Cron specs: which minutes match, and the search for the next one. Minutes are numbered from the epoch. */
module CronModel {
  import opened Quantum

  const MINUTE := 60000
  /** One year of minutes: how far the search goes, and where an unsatisfiable spec is sent. */
  const SEARCH := 525600

  /** What the calendar says about one minute, each field as a decimal literal. */
  datatype FieldValues = FieldValues(minute: string, hour: string, day: string, month: string, weekday: string)

  type Calendar = int -> FieldValues

  // ---------- Patterns ----------

  function IndexOf(s: string, c: char): (i: nat)
    ensures i <= |s|
    ensures forall j :: 0 <= j < i ==> s[j] != c
    ensures i < |s| ==> s[i] == c
  {
    if s == [] || s[0] == c then 0 else 1 + IndexOf(s[1..], c)
  }

  /** The pieces of a comma-separated list. */
  function Split(s: string): (parts: seq<string>)
    decreases |s|
  {
    var i := IndexOf(s, ',');
    if i == |s| then [s] else [s[..i]] + Split(s[i + 1..])
  }

  predicate Accepts(pattern: string, val: string)
  {
    pattern == "*" || val in Split(pattern)
  }

  /** val stands in s at position i, bounded on both sides by a comma or an end of s. */
  predicate StandsAt(s: string, val: string, i: int)
  {
    && 0 <= i && i + |val| <= |s|
    && s[i..i + |val|] == val
    && (i == 0 || s[i - 1] == ',')
    && (i + |val| == |s| || s[i + |val|] == ',')
  }

  /** Where a text stands in what follows a comma, it stands in the whole list, and the other way round. */
  lemma StandsInRest(s: string, val: string, from: nat, j: nat)
    requires 0 < from <= |s| && s[from - 1] == ','
    ensures StandsAt(s, val, from + j) <==> StandsAt(s[from..], val, j)
  {
    var end := j + |val|;
    if from + end <= |s| {
      SliceOfRest(s, from, j, end);
      if j > 0 {
        CharOfRest(s, from, j - 1);
      }
      if from + end < |s| {
        CharOfRest(s, from, end);
      }
    }
  }

  lemma SliceOfRest(s: string, from: nat, a: nat, b: nat)
    requires a <= b && from + b <= |s|
    ensures s[from..][a..b] == s[from + a..from + b]
  {
  }

  lemma CharOfRest(s: string, from: nat, a: nat)
    requires from + a < |s|
    ensures s[from..][a] == s[from + a]
  {
  }

  lemma FirstPieceStands(s: string)
    ensures StandsAt(s, s[..IndexOf(s, ',')], 0)
  {
    hide IndexOf;
  }

  ghost predicate Listed(s: string, val: string)
  {
    exists i :: StandsAt(s, val, i)
  }

  lemma ListedWhole(s: string, val: string)
    requires ',' !in val && IndexOf(s, ',') == |s|
    ensures Listed(s, val) <==> val == s
  {
    hide IndexOf;
    FirstPieceStands(s);
    assert s[..|s|] == s;
    if i :| StandsAt(s, val, i) {
      StandsInside(s, val, i);
      WithinFirst(s, val, i);
    }
  }

  lemma ListedThere(s: string, val: string, i: int)
    requires StandsAt(s, val, i)
    ensures Listed(s, val)
  {
  }

  lemma ListedFirst(s: string)
    ensures Listed(s, s[..IndexOf(s, ',')])
  {
    FirstPieceStands(s);
    ListedThere(s, s[..IndexOf(s, ',')], 0);
  }

  lemma ListedLater(s: string, val: string)
    requires IndexOf(s, ',') < |s| && Listed(s[IndexOf(s, ',') + 1..], val)
    ensures Listed(s, val)
  {
    hide IndexOf;
    var from := IndexOf(s, ',') + 1;
    var j :| StandsAt(s[from..], val, j);
    StandsInside(s[from..], val, j);
    StandsInRest(s, val, from, j);
  }

  lemma StandsEither(s: string, val: string, i: int)
    requires ',' !in val && IndexOf(s, ',') < |s| && StandsAt(s, val, i)
    ensures val == s[..IndexOf(s, ',')] || StandsAt(s[IndexOf(s, ',') + 1..], val, i - (IndexOf(s, ',') + 1))
  {
    hide StandsAt, IndexOf;
    var from := IndexOf(s, ',') + 1;
    WithinFirst(s, val, i);
    if i >= from {
      StandsInRest(s, val, from, i - from);
    }
  }

  lemma ListedEither(s: string, val: string)
    requires ',' !in val && IndexOf(s, ',') < |s| && Listed(s, val)
    ensures val == s[..IndexOf(s, ',')] || Listed(s[IndexOf(s, ',') + 1..], val)
  {
    hide StandsAt, IndexOf;
    var i :| StandsAt(s, val, i);
    StandsEither(s, val, i);
  }

  /** The pieces of a list are exactly the comma-free texts that stand between commas. */
  lemma {:induction false} SplitFindsListed(s: string, val: string)
    requires ',' !in val
    ensures val in Split(s) <==> Listed(s, val)
    decreases |s|
  {
    hide Listed;
    var k := IndexOf(s, ',');
    if k == |s| {
      ListedWhole(s, val);
    } else {
      SplitFindsListed(s[k + 1..], val);
      ListedFirst(s);
      if Listed(s, val) {
        ListedEither(s, val);
      }
      if Listed(s[k + 1..], val) {
        ListedLater(s, val);
      }
      assert val in Split(s) <==> val == s[..k] || val in Split(s[k + 1..]);
    }
  }

  lemma StandsInside(s: string, val: string, i: int)
    requires StandsAt(s, val, i)
    ensures 0 <= i <= |s|
  {
  }

  /** A text that starts in the first piece is the first piece. */
  lemma WithinFirst(s: string, val: string, i: int)
    requires ',' !in val && StandsAt(s, val, i)
    ensures var k := IndexOf(s, ',');
            i > k || (val == s[..k] && i == 0)
  {
    hide IndexOf;
    var k := IndexOf(s, ',');
    assert forall j :: 0 <= j < |val| ==> val[j] == s[i..i + |val|][j] == s[i + j] && val[j] != ',';
    if i <= k {
      assert i == 0;
      assert |val| <= k;
      assert |val| == k;
      assert s[0..|val|] == s[..k];
    }
  }

  method MatchField(val: string, pattern: string) returns (matches: bool)
    ensures matches <==> Accepts(pattern, val)
  {
    if pattern == "*" {
      return true;
    }
    var parts := Split(pattern);
    var n := 0;
    while n < |parts|
      invariant 0 <= n <= |parts|
      invariant val !in parts[..n]
    {
      if parts[n] == val {
        return true;
      }
      n := n + 1;
    }
    assert parts[..n] == parts;
    return false;
  }

  predicate Matches(v: FieldValues, fields: seq<string>)
    requires |fields| == 5
  {
    && Accepts(fields[0], v.minute)
    && Accepts(fields[1], v.hour)
    && Accepts(fields[2], v.day)
    && Accepts(fields[3], v.month)
    && Accepts(fields[4], v.weekday)
  }

  /** A minute matches when each of the five fields is a star or lists its value, in the order minute, hour, day, month,
      weekday. */
  lemma MatchesFieldByField(v: FieldValues, fields: seq<string>)
    requires |fields| == 5
    requires ',' !in v.minute && ',' !in v.hour && ',' !in v.day && ',' !in v.month && ',' !in v.weekday
    ensures Matches(v, fields) <==>
              && (fields[0] == "*" || Listed(fields[0], v.minute))
              && (fields[1] == "*" || Listed(fields[1], v.hour))
              && (fields[2] == "*" || Listed(fields[2], v.day))
              && (fields[3] == "*" || Listed(fields[3], v.month))
              && (fields[4] == "*" || Listed(fields[4], v.weekday))
  {
    SplitFindsListed(fields[0], v.minute);
    SplitFindsListed(fields[1], v.hour);
    SplitFindsListed(fields[2], v.day);
    SplitFindsListed(fields[3], v.month);
    SplitFindsListed(fields[4], v.weekday);
    hide Listed, Split;
  }

  method Match(v: FieldValues, fields: seq<string>) returns (matches: bool)
    requires |fields| == 5
    ensures matches <==> Matches(v, fields)
  {
    matches := MatchField(v.minute, fields[0]);
    if matches {
      matches := MatchField(v.hour, fields[1]);
    }
    if matches {
      matches := MatchField(v.day, fields[2]);
    }
    if matches {
      matches := MatchField(v.month, fields[3]);
    }
    if matches {
      matches := MatchField(v.weekday, fields[4]);
    }
  }

  // ---------- The next execution ----------

  /** The least matching minute after `from` within a year, or the year's end when there is none. */
  ghost predicate IsNext(calendar: Calendar, fields: seq<string>, from: int, next: int)
    requires |fields| == 5
  {
    && from < next <= from + SEARCH
    && (forall m :: from < m < next ==> !Matches(calendar(m), fields))
    && (next < from + SEARCH ==> Matches(calendar(next), fields))
  }

  method NextExecution(calendar: Calendar, from: int, fields: seq<string>) returns (next: int)
    requires |fields| == 5
    ensures IsNext(calendar, fields, from, next)
  {
    var curr := from + 1;
    var i := 0;
    while i < SEARCH
      invariant 0 <= i <= SEARCH && curr == from + 1 + i
      invariant forall m :: from < m < curr ==> !Matches(calendar(m), fields)
    {
      var found := Match(calendar(curr), fields);
      if found {
        return curr;
      }
      curr := curr + 1;
      i := i + 1;
    }
    return from + SEARCH;
  }

  /** The next execution is determined by the minute the search starts from. */
  lemma NextIsUnique(calendar: Calendar, fields: seq<string>, from: int, a: int, b: int)
    requires |fields| == 5 && IsNext(calendar, fields, from, a) && IsNext(calendar, fields, from, b)
    ensures a == b
  {
  }

  /** Five stars match every minute; otherwise the next execution is at most 525600 minutes away, and at that distance
      if nothing matches before. */
  lemma NextMeans(calendar: Calendar, fields: seq<string>, from: int, next: int)
    requires |fields| == 5 && IsNext(calendar, fields, from, next)
    ensures fields == ["*", "*", "*", "*", "*"] ==> next == from + 1
    ensures from < next <= from + 525600
    ensures forall m :: from < m < next ==> !Matches(calendar(m), fields)
    ensures next < from + 525600 ==> Matches(calendar(next), fields)
  {
    if fields == ["*", "*", "*", "*", "*"] {
      assert Matches(calendar(from + 1), fields);
    }
  }

  /** A search that starts later within the same gap finds the same minute: nothing between two executions is
      skipped as long as the first callback runs before the second execution. */
  lemma NothingSkipped(calendar: Calendar, fields: seq<string>, from: int, later: int, next: int)
    requires |fields| == 5 && IsNext(calendar, fields, from, next) && next < from + SEARCH
    requires from <= later < next
    ensures IsNext(calendar, fields, later, next)
  {
  }

  // ---------- Re-arming on the wheel ----------

  /** A task armed for the minute `armed` is fired by a wheel of that tick at time `at`, its callback reads the
      clock at `now`, and the minute it arms next is a later one. */
  predicate Advances(tickMs: int, armed: int, at: int, now: int, next: int)
    requires tickMs > 0
  {
    Floor(armed * MINUTE, tickMs) <= at <= now && now / MINUTE < next ==> armed < next
  }

  lemma MinuteIsBoundary(tickMs: int, armed: int)
    requires tickMs > 0 && MINUTE % tickMs == 0
    ensures Floor(armed * MINUTE, tickMs) == armed * MINUTE
  {
    var q := MINUTE / tickMs;
    assert armed * MINUTE == (armed * q) * tickMs by {
      assert MINUTE == q * tickMs;
      assert armed * (q * tickMs) == (armed * q) * tickMs;
    }
    MultipleFromFactor(armed * q, tickMs);
    FloorUnique(armed * MINUTE, tickMs, armed * MINUTE);
  }

  lemma MinutesAdvance(tickMs: int, armed: int, at: int, now: int, next: int)
    requires tickMs > 0 && MINUTE % tickMs == 0
    ensures Advances(tickMs, armed, at, now, next)
  {
    MinuteIsBoundary(tickMs, armed);
  }

  /** The instants a cron task is armed for always rise if and only if the wheel's tick divides a minute. With any
      other tick the wheel fires minute 1 a little early, still in minute 0, and minute 1 may be armed again. */
  lemma AlwaysAdvancesIff(tickMs: int)
    requires tickMs > 0
    ensures (forall armed, at, now, next :: Advances(tickMs, armed, at, now, next)) <==> MINUTE % tickMs == 0
  {
    if MINUTE % tickMs == 0 {
      forall armed, at, now, next ensures Advances(tickMs, armed, at, now, next) {
        MinutesAdvance(tickMs, armed, at, now, next);
      }
    } else {
      var early := Floor(1 * MINUTE, tickMs);
      MultipleBelowFloor(0, MINUTE, tickMs);
      assert 0 <= early < MINUTE;
      assert !Advances(tickMs, 1, early, early, 1);
    }
  }

  /** One task's life on a wheel: armed for the minutes `armed`, entry n fired at `at[n]`, its callback reading the
      clock at `now[n]` and searching from the minute that is in. */
  ghost predicate Rearms(calendar: Calendar, fields: seq<string>, tickMs: int,
                         armed: seq<int>, at: seq<int>, now: seq<int>)
    requires |fields| == 5 && tickMs > 0
  {
    && |armed| == |at| + 1 == |now| + 1
    && forall n :: 0 <= n < |at| ==>
         && Floor(armed[n] * MINUTE, tickMs) <= at[n] <= now[n]
         && IsNext(calendar, fields, now[n] / MINUTE, armed[n + 1])
  }

  /** With a tick that divides a minute, no minute is ever armed twice, and the armed minutes only rise. */
  lemma {:induction false} ArmedMinutesRise(calendar: Calendar, fields: seq<string>, tickMs: int,
                                            armed: seq<int>, at: seq<int>, now: seq<int>, i: int, j: int)
    requires |fields| == 5 && tickMs > 0 && MINUTE % tickMs == 0
    requires Rearms(calendar, fields, tickMs, armed, at, now) && 0 <= i < j < |armed|
    ensures armed[i] < armed[j]
    decreases j
  {
    MinutesAdvance(tickMs, armed[j - 1], at[j - 1], now[j - 1], armed[j]);
    if i < j - 1 {
      ArmedMinutesRise(calendar, fields, tickMs, armed, at, now, i, j - 1);
    }
  }

  /** The default tick of 10 ms divides a minute of 60000 ms. */
  lemma DefaultTickDivides()
    ensures MINUTE == 60000 && MINUTE % 10 == 0
  {
  }

  /** With a tick that does not, some life arms the same minute twice running. */
  lemma SameMinuteTwice(calendar: Calendar, fields: seq<string>, tickMs: int)
    requires |fields| == 5 && tickMs > 0 && MINUTE % tickMs != 0 && Matches(calendar(1), fields)
    ensures var early := Floor(MINUTE, tickMs);
            Rearms(calendar, fields, tickMs, [1, 1], [early], [early])
  {
    MultipleBelowFloor(0, MINUTE, tickMs);
    var early := Floor(MINUTE, tickMs);
    assert 0 <= early < MINUTE && early / MINUTE == 0;
    assert IsNext(calendar, fields, 0, 1);
  }
}
