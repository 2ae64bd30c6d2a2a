/**
 Zone transitions of timezone.cc: the search for the local time type in force, the
 conversions between time_t and local fields, and when they are inverse.
 */
module TimeZone {
  import opened UtcTime

  datatype Transition = Transition(gmtime: int, localtime: int, localtimeIdx: nat)
  datatype Localtime = Localtime(gmtOffset: int, isDst: bool)
  datatype Zone = Zone(transitions: seq<Transition>, localtimes: seq<Localtime>)

  // Comp: transitions are compared by their UTC time or by their local time.
  function Key(x: Transition, compareGmt: bool): int {
    if compareGmt then x.gmtime else x.localtime
  }

  ghost predicate Increasing(ts: seq<Transition>, gmt: bool) {
    forall i, j :: 0 <= i < j < |ts| ==> Key(ts[i], gmt) < Key(ts[j], gmt)
  }

  // What a zone file gives: at least one type, valid type indices, both times of every transition.
  ghost predicate Readable(z: Zone) {
    && |z.localtimes| > 0
    && forall x :: x in z.transitions ==>
         x.localtimeIdx < |z.localtimes| && x.localtime == x.gmtime + z.localtimes[x.localtimeIdx].gmtOffset
  }

  // A search needs the transitions in the order of its own key; the way back and forth needs both.
  ghost predicate InOrder(z: Zone) {
    Increasing(z.transitions, true) && Increasing(z.transitions, false)
  }

  // The last transition at or before the key, by a linear scan; -1 before the first.
  function LastAtOrBefore(ts: seq<Transition>, key: int, gmt: bool): (i: int)
    ensures -1 <= i < |ts|
    ensures i >= 0 ==> Key(ts[i], gmt) <= key
    ensures forall j :: i < j < |ts| ==> Key(ts[j], gmt) > key
  {
    if ts == [] then -1
    else if Key(ts[|ts| - 1], gmt) <= key then |ts| - 1
    else LastAtOrBefore(ts[..|ts| - 1], key, gmt)
  }

  // The type in force after transition i, and type 0 before the first.
  function TypeAfter(z: Zone, i: int): Localtime
    requires Readable(z) && -1 <= i < |z.transitions|
  {
    if i < 0 then z.localtimes[0] else z.localtimes[z.transitions[i].localtimeIdx]
  }

  function TypeAt(z: Zone, key: int, gmt: bool): Localtime
    requires Readable(z)
  {
    TypeAfter(z, LastAtOrBefore(z.transitions, key, gmt))
  }

  // std::lower_bound: halve the range that still has to be searched.
  method LowerBound(ts: seq<Transition>, key: int, gmt: bool) returns (first: nat)
    requires Increasing(ts, gmt)
    ensures first <= |ts|
    ensures forall i :: 0 <= i < first ==> Key(ts[i], gmt) < key
    ensures forall i :: first <= i < |ts| ==> Key(ts[i], gmt) >= key
  {
    var len: nat := |ts|;
    first := 0;
    while len > 0
      invariant first + len <= |ts|
      invariant forall i :: 0 <= i < first ==> Key(ts[i], gmt) < key
      invariant forall i :: first + len <= i < |ts| ==> Key(ts[i], gmt) >= key
    {
      var half := len / 2;
      var middle := first + half;
      if Key(ts[middle], gmt) < key {
        first := middle + 1;
        len := len - half - 1;
      } else {
        len := half;
      }
    }
  }

  lemma LastIsUnique(ts: seq<Transition>, key: int, gmt: bool, i: int)
    requires Increasing(ts, gmt) && -1 <= i < |ts|
    requires i >= 0 ==> Key(ts[i], gmt) <= key
    requires i + 1 < |ts| ==> Key(ts[i + 1], gmt) > key
    ensures LastAtOrBefore(ts, key, gmt) == i
  {
  }

  /** The branches around lower_bound find the type that the linear scan finds. */
  method FindLocaltime(z: Zone, key: int, gmt: bool) returns (local: Localtime)
    requires Readable(z) && Increasing(z.transitions, gmt)
    ensures local == TypeAt(z, key, gmt)
  {
    var ts := z.transitions;
    if ts == [] || key < Key(ts[0], gmt) {
      local := z.localtimes[0];
      LastIsUnique(ts, key, gmt, -1);
    } else {
      var iter := LowerBound(ts, key, gmt);
      if iter != |ts| {
        if key != Key(ts[iter], gmt) {
          iter := iter - 1;
        }
        local := z.localtimes[ts[iter].localtimeIdx];
        LastIsUnique(ts, key, gmt, iter);
      } else {
        local := z.localtimes[ts[|ts| - 1].localtimeIdx];
        LastIsUnique(ts, key, gmt, |ts| - 1);
      }
    }
  }

  /** Which type is in force: type 0 before the first transition, and from each transition to the next the
      type that the transition names. */
  lemma TypeInForce(z: Zone, key: int, gmt: bool, i: int)
    requires Readable(z) && Increasing(z.transitions, gmt) && -1 <= i < |z.transitions|
    requires i >= 0 ==> Key(z.transitions[i], gmt) <= key
    requires i + 1 < |z.transitions| ==> key < Key(z.transitions[i + 1], gmt)
    ensures TypeAt(z, key, gmt) == z.localtimes[if i < 0 then 0 else z.transitions[i].localtimeIdx]
  {
    LastIsUnique(z.transitions, key, gmt, i);
  }

  // gmtime_r and mktime of the C library, the second with the process time zone set to UTC.
  datatype Libc = Libc(gmtime: int -> Tm, mktime: Tm -> int)

  function LocalFields(c: Libc, seconds: int, local: Localtime): Tm {
    c.gmtime(seconds).(isdst := local.isDst, gmtoff := local.gmtOffset)
  }

  function LocalOf(c: Libc, z: Zone, t: int): Tm
    requires Readable(z)
  {
    var local := TypeAt(z, t, true);
    LocalFields(c, t + local.gmtOffset, local)
  }

  // When a local time of a daylight type exists twice, the first of the two is meant.
  function TimeOf(c: Libc, z: Zone, tm: Tm): int
    requires Readable(z)
  {
    var seconds := c.mktime(tm);
    var offset := TypeAt(z, seconds, false).gmtOffset;
    var try := LocalOf(c, z, seconds - offset);
    if tm.isdst && !try.isdst && try.hour == tm.hour && try.min == tm.min then seconds - 3600 - offset
    else seconds - offset
  }

  method ToLocalTime(c: Libc, z: Zone, t: int) returns (tm: Tm)
    requires Readable(z) && Increasing(z.transitions, true)
    ensures tm == LocalOf(c, z, t)
  {
    var local := FindLocaltime(z, t, true);
    tm := c.gmtime(t + local.gmtOffset);
    tm := tm.(isdst := local.isDst, gmtoff := local.gmtOffset);
  }

  method FromLocalTime(c: Libc, z: Zone, tm: Tm) returns (t: int)
    requires Readable(z) && InOrder(z)
    ensures t == TimeOf(c, z, tm)
  {
    var seconds := c.mktime(tm);
    var local := FindLocaltime(z, seconds, false);
    if tm.isdst {
      var try := ToLocalTime(c, z, seconds - local.gmtOffset);
      if !try.isdst && try.hour == tm.hour && try.min == tm.min {
        seconds := seconds - 3600;
      }
    }
    t := seconds - local.gmtOffset;
  }

  // ----- the round trip -----

  // Daylight saving ends, and the clock goes back by an hour.
  predicate DstEnds(was: Localtime, now: Localtime) {
    was.isDst && !now.isDst && was.gmtOffset - now.gmtOffset == 3600
  }

  // Transition i + 1 moves local time back.
  predicate MovesBack(z: Zone, i: int)
    requires Readable(z) && -1 <= i < |z.transitions| - 1
  {
    TypeAfter(z, i + 1).gmtOffset < TypeAfter(z, i).gmtOffset
  }

  ghost predicate OnlyDstMovesBack(z: Zone)
    requires Readable(z)
  {
    forall i :: -1 <= i < |z.transitions| - 1 && MovesBack(z, i) ==> DstEnds(TypeAfter(z, i), TypeAfter(z, i + 1))
  }

  // No two transitions within an hour.
  ghost predicate Spaced(z: Zone) {
    forall i :: 0 < i < |z.transitions| ==> z.transitions[i].gmtime - z.transitions[i - 1].gmtime >= 3600
  }

  // The time t lies in the hour before transition i + 1 that comes again after it.
  predicate FirstOfTwo(z: Zone, i: int, t: int)
    requires Readable(z) && -1 <= i < |z.transitions|
  {
    i + 1 < |z.transitions| && MovesBack(z, i)
    && t + TypeAfter(z, i).gmtOffset >= z.transitions[i + 1].localtime
  }

  // When a transition comes into force, in local time.
  lemma LocalTimeOfTransition(z: Zone, i: int)
    requires Readable(z) && 0 <= i < |z.transitions|
    ensures z.transitions[i].localtime == z.transitions[i].gmtime + TypeAfter(z, i).gmtOffset
  {
  }

  // Outside a repeated hour the local search finds the same transition.
  lemma LocalSearchOnce(z: Zone, t: int, i: int)
    requires Readable(z) && InOrder(z) && Spaced(z) && OnlyDstMovesBack(z) && i == LastAtOrBefore(z.transitions, t, true)
    requires !FirstOfTwo(z, i, t)
    ensures LastAtOrBefore(z.transitions, t + TypeAfter(z, i).gmtOffset, false) == i
  {
  }

  // In its first pass the local search finds the transition that repeats it.
  lemma LocalSearchFirstOfTwo(z: Zone, t: int, i: int)
    requires Readable(z) && InOrder(z) && Spaced(z) && OnlyDstMovesBack(z) && i == LastAtOrBefore(z.transitions, t, true)
    requires FirstOfTwo(z, i, t)
    ensures LastAtOrBefore(z.transitions, t + TypeAfter(z, i).gmtOffset, false) == i + 1
  {
    var s := t + TypeAfter(z, i).gmtOffset;
    assert MovesBack(z, i);
    assert z.transitions[i + 1].gmtime > t;
    if i + 2 < |z.transitions| {
      LocalTimeOfTransition(z, i + 2);
      assert z.transitions[i + 2].gmtime - z.transitions[i + 1].gmtime >= 3600;
      assert !MovesBack(z, i + 1);
      assert z.transitions[i + 2].localtime > s;
    }
    LastIsUnique(z.transitions, s, false, i + 1);
  }

  // An hour after the first of two equal local times, the clock shows the same again.
  lemma SecondOfTwo(z: Zone, t: int, i: int)
    requires Readable(z) && InOrder(z) && Spaced(z) && OnlyDstMovesBack(z) && i == LastAtOrBefore(z.transitions, t, true)
    requires FirstOfTwo(z, i, t)
    ensures LastAtOrBefore(z.transitions, t + 3600, true) == i + 1
    ensures DstEnds(TypeAfter(z, i), TypeAfter(z, i + 1))
  {
    var ts := z.transitions;
    LocalTimeOfTransition(z, i + 1);
    assert MovesBack(z, i);
    if i + 2 < |ts| {
      assert ts[i + 2].gmtime - ts[i + 1].gmtime >= 3600;
    }
    LastIsUnique(ts, t + 3600, true, i + 1);
  }

  // mktime undoes gmtime_r at these seconds, whatever the two fields that it ignores say.
  predicate Inverse(c: Libc, seconds: int, local: Localtime) {
    c.mktime(LocalFields(c, seconds, local)) == seconds
  }

  // What fromLocalTime gives for a clock that shows s in the type was, where the search by local time
  // finds the type now and that is in force at the time it tries.
  lemma TimeOfShown(c: Libc, z: Zone, s: int, was: Localtime, now: Localtime)
    requires Readable(z) && Inverse(c, s, was)
    requires TypeAt(z, s, false) == now == TypeAt(z, s - now.gmtOffset, true)
    ensures TimeOf(c, z, LocalFields(c, s, was)) ==
            s - now.gmtOffset - if was.isDst && !now.isDst then 3600 else 0
  {
    assert LocalOf(c, z, s - now.gmtOffset) == LocalFields(c, s, now);
  }

  lemma OnceComesBack(c: Libc, z: Zone, t: int, i: int)
    requires Readable(z) && InOrder(z) && Spaced(z) && OnlyDstMovesBack(z)
    requires i == LastAtOrBefore(z.transitions, t, true) && !FirstOfTwo(z, i, t)
    requires Inverse(c, t + TypeAfter(z, i).gmtOffset, TypeAfter(z, i))
    ensures TimeOf(c, z, LocalFields(c, t + TypeAfter(z, i).gmtOffset, TypeAfter(z, i))) == t
  {
    LocalSearchOnce(z, t, i);
    TimeOfShown(c, z, t + TypeAfter(z, i).gmtOffset, TypeAfter(z, i), TypeAfter(z, i));
  }

  lemma TypesInFirstOfTwo(z: Zone, t: int, i: int)
    requires Readable(z) && InOrder(z) && Spaced(z) && OnlyDstMovesBack(z)
    requires i == LastAtOrBefore(z.transitions, t, true) && FirstOfTwo(z, i, t)
    ensures var was, now := TypeAfter(z, i), TypeAfter(z, i + 1);
            && TypeAt(z, t + was.gmtOffset, false) == now == TypeAt(z, t + 3600, true)
            && DstEnds(was, now)
  {
    LocalSearchFirstOfTwo(z, t, i);
    SecondOfTwo(z, t, i);
  }

  lemma HourTakenOff(c: Libc, z: Zone, t: int, was: Localtime, now: Localtime)
    requires Readable(z) && Inverse(c, t + was.gmtOffset, was) && DstEnds(was, now)
    requires TypeAt(z, t + was.gmtOffset, false) == now == TypeAt(z, t + 3600, true)
    ensures TimeOf(c, z, LocalFields(c, t + was.gmtOffset, was)) == t
  {
    var s := t + was.gmtOffset;
    assert s - now.gmtOffset == t + 3600;
    TimeOfShown(c, z, s, was, now);
  }

  lemma FirstOfTwoComesBack(c: Libc, z: Zone, t: int, i: int)
    requires Readable(z) && InOrder(z) && Spaced(z) && OnlyDstMovesBack(z)
    requires i == LastAtOrBefore(z.transitions, t, true) && FirstOfTwo(z, i, t)
    requires Inverse(c, t + TypeAfter(z, i).gmtOffset, TypeAfter(z, i))
    ensures TimeOf(c, z, LocalFields(c, t + TypeAfter(z, i).gmtOffset, TypeAfter(z, i))) == t
  {
    TypesInFirstOfTwo(z, t, i);
    HourTakenOff(c, z, t, TypeAfter(z, i), TypeAfter(z, i + 1));
  }

  /** Every time comes back from its local fields, also in an hour that a zone's clocks show twice. */
  lemma LocalRoundTrip(c: Libc, z: Zone, t: int)
    requires Readable(z) && InOrder(z) && Spaced(z) && OnlyDstMovesBack(z)
    requires Inverse(c, t + TypeAt(z, t, true).gmtOffset, TypeAt(z, t, true))
    ensures TimeOf(c, z, LocalOf(c, z, t)) == t
  {
    var i := LastAtOrBefore(z.transitions, t, true);
    assert LocalOf(c, z, t) == LocalFields(c, t + TypeAfter(z, i).gmtOffset, TypeAfter(z, i));
    if FirstOfTwo(z, i, t) {
      FirstOfTwoComesBack(c, z, t, i);
    } else {
      OnceComesBack(c, z, t, i);
    }
  }

  /** toLocalTime: the clock shows the time moved by the offset of the type in force, which the fields name. */
  lemma LocalShowsOffset(c: Libc, z: Zone, t: int)
    requires Readable(z) && Inverse(c, t + TypeAt(z, t, true).gmtOffset, TypeAt(z, t, true))
    ensures var tm := LocalOf(c, z, t);
            && tm.gmtoff == TypeAt(z, t, true).gmtOffset && tm.isdst == TypeAt(z, t, true).isDst
            && c.mktime(tm) == t + tm.gmtoff
  {
  }

  /** A local time that a transition skips, whatever its daylight flag says if the time that is tried shows another
      clock or daylight saving, is read with the offset before it, and so lies after the transition
      by as much as it lies after the clock's jump. */
  lemma SkippedTime(c: Libc, z: Zone, tm: Tm, i: int)
    requires Readable(z) && InOrder(z) && -1 <= i < |z.transitions| - 1
    requires i >= 0 ==> z.transitions[i].localtime <= c.mktime(tm)
    requires z.transitions[i + 1].gmtime + TypeAfter(z, i).gmtOffset <= c.mktime(tm) < z.transitions[i + 1].localtime
    requires var tried := LocalOf(c, z, c.mktime(tm) - TypeAfter(z, i).gmtOffset);
             tm.isdst ==> tried.isdst || tried.hour != tm.hour || tried.min != tm.min
    ensures TimeOf(c, z, tm) == z.transitions[i + 1].gmtime
              + (c.mktime(tm) - (z.transitions[i + 1].gmtime + TypeAfter(z, i).gmtOffset))
  {
    LastIsUnique(z.transitions, c.mktime(tm), false, i);
  }

  // The moment before transition i + 1 at which the clock first shows what it shows again at the transition.
  function FirstShown(z: Zone, i: int): int
    requires Readable(z) && -1 <= i < |z.transitions| - 1
  {
    z.transitions[i + 1].localtime - TypeAfter(z, i).gmtOffset
  }

  // There the search by UTC finds i, the search by local time i + 1, and the transition is tried.
  lemma SearchesAtFirstShown(z: Zone, i: int)
    requires Readable(z) && InOrder(z) && -1 <= i < |z.transitions| - 1 && MovesBack(z, i)
    ensures LastAtOrBefore(z.transitions, FirstShown(z, i), true) == i
    ensures LastAtOrBefore(z.transitions, z.transitions[i + 1].localtime, false) == i + 1
    ensures LastAtOrBefore(z.transitions, z.transitions[i + 1].gmtime, true) == i + 1
  {
    LocalTimeOfTransition(z, i + 1);
    if i >= 0 {
      LocalTimeOfTransition(z, i);
    }
    LastIsUnique(z.transitions, FirstShown(z, i), true, i);
    LastIsUnique(z.transitions, z.transitions[i + 1].localtime, false, i + 1);
    LastIsUnique(z.transitions, z.transitions[i + 1].gmtime, true, i + 1);
  }

  /** Where local time moves back, the first moment shown twice comes back if and only if daylight saving
      ends there and the step is an hour. */
  lemma FirstShownComesBack(c: Libc, z: Zone, i: int)
    requires Readable(z) && InOrder(z) && -1 <= i < |z.transitions| - 1 && MovesBack(z, i)
    requires var t := FirstShown(z, i); Inverse(c, t + TypeAt(z, t, true).gmtOffset, TypeAt(z, t, true))
    ensures var t := FirstShown(z, i);
            TimeOf(c, z, LocalOf(c, z, t)) == t <==> DstEnds(TypeAfter(z, i), TypeAfter(z, i + 1))
  {
    SearchesAtFirstShown(z, i);
    LocalTimeOfTransition(z, i + 1);
    TimeOfShown(c, z, z.transitions[i + 1].localtime, TypeAfter(z, i), TypeAfter(z, i + 1));
  }

  predicate ComesBack(c: Libc, z: Zone, t: int)
    requires Readable(z)
  {
    TimeOf(c, z, LocalOf(c, z, t)) == t
  }

  /** In a zone without two transitions within an hour: of any times at which mktime undoes gmtime_r, among
      them the first moments shown twice, all come back from their local fields if and only if local time
      moves back at no other transition than an end of daylight saving, by an hour. */
  lemma RoundTripExactly(c: Libc, z: Zone, times: iset<int>)
    requires Readable(z) && InOrder(z) && Spaced(z)
    requires forall t :: t in times ==> Inverse(c, t + TypeAt(z, t, true).gmtOffset, TypeAt(z, t, true))
    requires forall i :: -1 <= i < |z.transitions| - 1 && MovesBack(z, i) ==> FirstShown(z, i) in times
    ensures (forall t :: t in times ==> ComesBack(c, z, t)) <==> OnlyDstMovesBack(z)
  {
    if OnlyDstMovesBack(z) {
      forall t | t in times ensures ComesBack(c, z, t) {
        LocalRoundTrip(c, z, t);
      }
    } else {
      var i :| -1 <= i < |z.transitions| - 1 && MovesBack(z, i) && !DstEnds(TypeAfter(z, i), TypeAfter(z, i + 1));
      FirstShownComesBack(c, z, i);
    }
  }

  // This library's own conversions in the place of gmtime_r and mktime.
  const OWN := Libc(ToUtcTime, FromUtcTime)

  /** They meet the round trip's assumption at every time in their range. */
  lemma OwnIsInverse(seconds: int, local: Localtime)
    requires InTimeRange(seconds)
    ensures Inverse(OWN, seconds, local)
  {
    UtcRoundTrip(seconds);
    FromUtcIgnoresTheRest(ToUtcTime(seconds), local.isDst, local.gmtOffset);
  }

  // A time whose local fields lie in their range.
  ghost predicate InLocalRange(z: Zone, t: int)
    requires Readable(z)
  {
    InTimeRange(t + TypeAt(z, t, true).gmtOffset)
  }

  lemma OwnIsInverseAt(z: Zone, t: int)
    requires Readable(z) && InLocalRange(z, t)
    ensures Inverse(OWN, t + TypeAt(z, t, true).gmtOffset, TypeAt(z, t, true))
  {
    OwnIsInverse(t + TypeAt(z, t, true).gmtOffset, TypeAt(z, t, true));
  }

  /** With them, in a zone whose transitions lie in that range. */
  lemma OwnRoundTripExactly(z: Zone, times: iset<int>)
    requires Readable(z) && InOrder(z) && Spaced(z)
    requires forall t :: t in times <==> InLocalRange(z, t)
    requires forall i :: -1 <= i < |z.transitions| - 1 && MovesBack(z, i) ==> FirstShown(z, i) in times
    ensures (forall t :: t in times ==> ComesBack(OWN, z, t)) <==> OnlyDstMovesBack(z)
  {
    forall t | t in times ensures Inverse(OWN, t + TypeAt(z, t, true).gmtOffset, TypeAt(z, t, true)) {
      OwnIsInverseAt(z, t);
    }
    RoundTripExactly(OWN, z, times);
  }

  lemma FromUtcIgnoresTheRest(tm: Tm, isdst: bool, gmtoff: int)
    ensures FromUtcTime(tm.(isdst := isdst, gmtoff := gmtoff)) == FromUtcTime(tm)
  {
  }

  // For example where standard time itself moves back: the first pass of the repeated hour comes back an
  // hour late.
  lemma StandardTimeMovingBack(c: Libc)
    requires Inverse(c, 7199, Localtime(7200, false))
    ensures var z := Zone([Transition(0, 3600, 1)], [Localtime(7200, false), Localtime(3600, false)]);
            Readable(z) && InOrder(z) && Spaced(z) && !OnlyDstMovesBack(z) && TimeOf(c, z, LocalOf(c, z, -1)) == 3599
  {
    var z := Zone([Transition(0, 3600, 1)], [Localtime(7200, false), Localtime(3600, false)]);
    assert Readable(z);
    assert MovesBack(z, -1) && !DstEnds(TypeAfter(z, -1), TypeAfter(z, 0));
    LastIsUnique(z.transitions, -1, true, -1);
    LastIsUnique(z.transitions, 7199, false, 0);
  }
}
