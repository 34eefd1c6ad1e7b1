/** Properties of the decoder across deliveries: repeated frames are quiet
    (change detection), the dual-zone flag carries over to later
    temperature frames, and every call made over any run is admissible. */
module G37Properties {
  import opened Bytes
  import opened G37Table
  import opened G37Spec

  // ------------------------------------------------- repeating one frame

  /** A repeated headlight frame changes nothing and makes no call. */
  lemma HeadlightRepeatQuiet(s: State, p: seq<byte>)
    requires |p| >= MinLength(Headlight)
    ensures var t := HeadlightStep(s, p).next; HeadlightStep(t, p) == Step(t, [])
  {
  }

  /** After a climate frame that did not take the climate-off return, the
      status, mode and fan caches hold bytes 0, 2 and 4, so the identical
      frame again changes nothing and makes no call. */
  lemma ClimateRepeatQuiet(s: State, p: seq<byte>)
    requires |p| >= MinLength(ClimateControl)
    requires !TurnsClimateOff(s, p)
    ensures var t := ClimateStep(s, p).next;
      && t.oldStatus == SignedChar(p[0]) && t.oldAirflow == p[2] && t.oldFan == p[4]
      && ClimateStep(t, p) == Step(t, [])
  {
  }

  /** Whatever the state, a climate frame delivered twice leaves the
      decoder where a third identical delivery is quiet. */
  lemma ClimateSettlesAfterTwo(s: State, p: seq<byte>)
    requires |p| >= MinLength(ClimateControl)
    ensures var u := ClimateStep(ClimateStep(s, p).next, p).next; ClimateStep(u, p) == Step(u, [])
  {
  }

  /** The climate-off return skips the mode and fan caches, so the same
      "off" frame delivered a second time is not quiet: with fan byte 0x04
      and stale caches it calls set_fan_speed(0) again. */
  lemma ClimateOffRepeatNotifies()
    ensures var s := State(2, 0x90, 0x24, 0, 0, false, 6, 4, 7, 0, 0, false);
      var p: seq<byte> := [0x03, 0x08, 0x80, 0x02, 0x04];
      var t := ClimateStep(s, p);
      && TurnsClimateOff(s, p)
      && t.calls == [SetAirflow(0), SetFanSpeed(0)]
      && ClimateStep(t.next, p).calls == [SetFanSpeed(0)]
  {
  }

  /** A repeated temperature frame is quiet: the dual-zone flag is only
      read, so the caches already hold the selected bytes. */
  lemma TemperatureRepeatQuiet(s: State, p: seq<byte>)
    requires |p| >= MinLength(TemperatureControl)
    ensures var t := TemperatureStep(s, p).next; TemperatureStep(t, p) == Step(t, [])
  {
  }

  // --------------------------------------------------------------- runs

  /** Every call made over any run is admissible: in particular every fan
      speed sent lies within 0..MAX_FAN_SPEED. */
  lemma {:induction false} RunCallsAdmissible(s: State, ds: seq<Delivery>)
    requires forall d <- ds :: Deliverable(d)
    ensures forall c <- Run(s, ds).calls :: Admissible(c)
    decreases |ds|
  {
    if ds != [] {
      var first := Deliver(s, ds[0]);
      RunCallsAdmissible(first.next, ds[1..]);
    }
  }

  /** The dual-zone flag after a run: the one the last climate frame in it
      set, or the flag before the run when it holds no climate frame. */
  function LastDualZone(flag: bool, ds: seq<Delivery>): bool
    requires forall d <- ds :: Deliverable(d)
    decreases |ds|
  {
    if ds == [] then flag
    else
      var d := ds[0];
      assert Deliverable(d);
      LastDualZone(if d.handler == ClimateControl then DualZone(d.payload[3]) else flag, ds[1..])
  }

  lemma {:induction false} RunDualZone(s: State, ds: seq<Delivery>)
    requires forall d <- ds :: Deliverable(d)
    ensures Run(s, ds).next.duelClimate == LastDualZone(s.duelClimate, ds)
    decreases |ds|
  {
    if ds != [] {
      RunDualZone(Deliver(s, ds[0]).next, ds[1..]);
    }
  }

  /** The cross-frame ordering dependency: whatever frames came before, a
      temperature frame reads the passenger temperature from byte 2 exactly
      when the last climate frame among them reported dual zone (or, with
      none, when the flag was already set). */
  lemma PassengerFollowsLastClimateFrame(s: State, ds: seq<Delivery>, q: seq<byte>)
    requires forall d <- ds :: Deliverable(d)
    requires |q| >= MinLength(TemperatureControl)
    ensures var r := TemperatureStep(Run(s, ds).next, q).next;
      r.oldPassTemp == if LastDualZone(s.duelClimate, ds) then q[2] else q[1]
  {
    RunDualZone(s, ds);
  }

  // ------------------------------------------------ edge-triggered runs

  /** The values a field takes over a run, each reported only where it
      differs from the one before (starting from `prev`). */
  function Changes<T(==)>(prev: T, vs: seq<T>): (r: seq<T>)
    ensures |r| <= |vs|
    ensures r != [] ==> r[0] != prev
    ensures forall i :: 0 <= i < |r| - 1 ==> r[i] != r[i + 1]
  {
    if vs == [] then []
    else (if vs[0] != prev then [vs[0]] else []) + Changes(vs[0], vs[1..])
  }

  /** The values of the calls `pick` recognises, in order. */
  function Select<T>(calls: seq<Call>, pick: Call -> Option<T>): seq<T>
  {
    if calls == [] then []
    else (match pick(calls[0]) case Some(v) => [v] case None => []) + Select(calls[1..], pick)
  }

  lemma {:induction false} SelectAppend<T>(a: seq<Call>, b: seq<Call>, pick: Call -> Option<T>)
    ensures Select(a + b, pick) == Select(a, pick) + Select(b, pick)
  {
    if a == [] {
      assert a + b == b;
    } else {
      assert (a + b)[1..] == a[1..] + b;
      SelectAppend(a[1..], b, pick);
    }
  }

  function ModeOf(c: Call): Option<bool>
  {
    if c.SetMode? then Some(c.dark) else None
  }

  function DriverTempOf(c: Call): Option<int>
  {
    if c.SetDriverTemp? then Some(c.temp) else None
  }

  function PassengerTempOf(c: Call): Option<int>
  {
    if c.SetPassengerTemp? then Some(c.temp) else None
  }

  /** Byte `k` of each payload of a run. */
  function ByteAt(ds: seq<Delivery>, k: nat): seq<int>
    requires forall d <- ds :: k < |d.payload|
  {
    if ds == [] then [] else [ds[0].payload[k]] + ByteAt(ds[1..], k)
  }

  /** Whether each payload of a run asks for dark mode. */
  function DarkFlags(ds: seq<Delivery>): seq<bool>
    requires forall d <- ds :: 0 < |d.payload|
  {
    if ds == [] then [] else [ds[0].payload[0] == HEADLIGHTS_ON] + DarkFlags(ds[1..])
  }

  /** Over a run of headlight frames, the theme mode is set exactly at the
      frames whose requested mode differs from the current one, and to that
      mode: no repeated value reaches the theme. */
  lemma {:induction false} HeadlightRunEdgeTriggered(s: State, ds: seq<Delivery>)
    requires HeadlightsOnly(ds)
    ensures forall c <- Run(s, ds).calls :: c.SetMode?
    ensures Select(Run(s, ds).calls, ModeOf) == Changes(s.themeMode, DarkFlags(ds))
    decreases |ds|
  {
    if ds != [] {
      var first := Deliver(s, ds[0]);
      HeadlightRunEdgeTriggered(first.next, ds[1..]);
      SelectAppend(first.calls, Run(first.next, ds[1..]).calls, ModeOf);
    }
  }

  /** The temperature values one temperature frame reports. */
  lemma TemperatureStepReports(s: State, p: seq<byte>)
    requires |p| >= MinLength(TemperatureControl)
    ensures Select(TemperatureStep(s, p).calls, DriverTempOf)
         == if s.oldDriverTemp != p[1] then [p[1] as int] else []
    ensures Select(TemperatureStep(s, p).calls, PassengerTempOf)
         == var sel := PassengerByte(s.duelClimate, p); if s.oldPassTemp != sel then [sel as int] else []
  {
    var sel := PassengerByte(s.duelClimate, p);
    var a := Fire(s.oldDriverTemp, p[1], SetDriverTemp(p[1]));
    var b := Fire(s.oldPassTemp, sel, SetPassengerTemp(sel));
    SelectAppend(a, b, DriverTempOf);
    SelectAppend(a, b, PassengerTempOf);
  }

  predicate TemperaturesOnly(ds: seq<Delivery>)
  {
    forall d <- ds :: d.handler == TemperatureControl && |d.payload| >= MinLength(TemperatureControl)
  }

  predicate HeadlightsOnly(ds: seq<Delivery>)
  {
    forall d <- ds :: d.handler == Headlight && |d.payload| >= MinLength(Headlight)
  }

  /** Over a run of temperature frames, the driver temperature is set exactly
      where byte 1 changes, and the passenger temperature exactly where its
      byte changes: byte 2 in dual-zone mode, byte 1 otherwise. */
  lemma {:induction false} TemperatureRunEdgeTriggered(s: State, ds: seq<Delivery>)
    requires TemperaturesOnly(ds)
    ensures Select(Run(s, ds).calls, DriverTempOf) == Changes(s.oldDriverTemp, ByteAt(ds, 1))
    ensures Select(Run(s, ds).calls, PassengerTempOf)
         == Changes(s.oldPassTemp, ByteAt(ds, if s.duelClimate then 2 else 1))
    decreases |ds|
  {
    if ds != [] {
      var p := ds[0].payload;
      assert ds[0] in ds;
      var first := TemperatureStep(s, p);
      assert TemperaturesOnly(ds[1..]) by {
        forall d <- ds[1..] ensures d in ds { }
      }
      TemperatureRunEdgeTriggered(first.next, ds[1..]);
      var rest := Run(first.next, ds[1..]).calls;
      assert Run(s, ds).calls == first.calls + rest;
      SelectAppend(first.calls, rest, DriverTempOf);
      SelectAppend(first.calls, rest, PassengerTempOf);
      TemperatureStepReports(s, p);
    }
  }

  /** Temperature frames whose byte 1 reads v1, v1, v2, v2, v1 (v1 new, v2
      different from v1) set the driver temperature three times: v1, v2, v1. */
  lemma DriverTempFiveFrames(s: State, ds: seq<Delivery>, v1: int, v2: int)
    requires TemperaturesOnly(ds)
    requires ByteAt(ds, 1) == [v1, v1, v2, v2, v1]
    requires v1 != s.oldDriverTemp && v1 != v2
    ensures Select(Run(s, ds).calls, DriverTempOf) == [v1, v2, v1]
  {
    TemperatureRunEdgeTriggered(s, ds);
    assert Changes(v1, [v1]) == [];
    assert Changes(v2, [v1]) == [v1];
    assert Changes(v2, [v2, v1]) == [v1];
    assert Changes(v1, [v2, v2, v1]) == [v2, v1];
    assert Changes(v1, [v1, v2, v2, v1]) == [v2, v1];
    assert Changes(s.oldDriverTemp, [v1, v1, v2, v2, v1]) == [v1, v2, v1];
  }
}
