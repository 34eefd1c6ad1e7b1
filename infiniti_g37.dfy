/** The Infiniti G37 vehicle decoder: three frame handlers that compare
    payload bytes against change-detection caches and call the theme and
    climate setters only when a byte changed. */
module InfinitiG37Plugin {
  import opened Bytes
  import opened G37Table
  import opened G37Spec
  import opened G37Collaborators

  class InfinitiG37 {
    /** Set by Init; the handlers are registered only there. */
    var theme: Theme?
    var climate: Climate?
    /** Dual-zone flag, written by the climate handler, read by the
        temperature handler. */
    var duelClimate: bool
    /** Change-detection caches; `oldStatus` holds a signed char. */
    var oldPassTemp: int
    var oldDriverTemp: int
    var oldAirflow: int
    var oldFan: int
    var oldStatus: int

    /** The program's static initial values: no collaborators yet, flag
        false and every cache 0. */
    constructor ()
      ensures theme == null && climate == null && !duelClimate
      ensures oldPassTemp == 0 && oldDriverTemp == 0 && oldAirflow == 0
      ensures oldFan == 0 && oldStatus == 0
    {
      theme, climate := null, null;
      duelClimate := false;
      oldPassTemp, oldDriverTemp, oldAirflow, oldFan, oldStatus := 0, 0, 0, 0, 0;
    }

    /** Initialised, and the climate widget has only ever received
        admissible calls (fan speeds within 0..MAX_FAN_SPEED and so on). */
    ghost predicate Valid()
      reads this, climate
    {
      && theme != null && climate != null
      && forall c <- climate.calls :: Admissible(c)
    }

    /** The decoder state the handlers read and write. */
    ghost function Snapshot(): State
      reads this, climate, theme
      requires Valid()
    {
      State(oldStatus, oldAirflow, oldFan, oldDriverTemp, oldPassTemp, duelClimate,
            climate.airflow, climate.fanSpeed, climate.maxFanSpeed,
            climate.driverTemp, climate.passengerTemp, theme.mode)
    }

    /** Resets the dual-zone flag, takes the theme, creates a fresh climate
        widget with maximum fan speed 7 and registers the three handlers, in
        order, for 0x60D, 0x54B and 0x542. The caches are left as they were.
        Always succeeds. */
    method Init(bus: CanBus, appTheme: Theme) returns (ok: bool)
      modifies this, bus
      ensures ok
      ensures Valid() && theme == appTheme && fresh(climate)
      ensures !duelClimate
      ensures climate.maxFanSpeed == MAX_FAN_SPEED && climate.calls == [SetMaxFanSpeed(MAX_FAN_SPEED)]
      ensures bus.registrations == old(bus.registrations) + [
                Registration(HEADLIGHT_FRAME, Headlight),
                Registration(CLIMATE_FRAME, ClimateControl),
                Registration(TEMPERATURE_FRAME, TemperatureControl)]
      ensures oldPassTemp == old(oldPassTemp) && oldDriverTemp == old(oldDriverTemp)
      ensures oldAirflow == old(oldAirflow) && oldFan == old(oldFan) && oldStatus == old(oldStatus)
    {
      duelClimate := false;
      theme := appTheme;
      climate := new Climate();
      climate.SetMaxFanSpeed(MAX_FAN_SPEED);
      bus.RegisterFrameHandler(HEADLIGHT_FRAME, Headlight);
      bus.RegisterFrameHandler(CLIMATE_FRAME, ClimateControl);
      bus.RegisterFrameHandler(TEMPERATURE_FRAME, TemperatureControl);
      ok := true;
    }

    /** 0x60D: dark mode when the headlights are on (byte 0 is 0x0E), light
        mode otherwise, setting the mode only when it differs. */
    method MonitorHeadlightStatus(payload: seq<byte>)
      requires Valid() && |payload| >= MinLength(Headlight)
      modifies theme
      ensures Valid()
      ensures Snapshot() == HeadlightStep(old(Snapshot()), payload).next
      ensures theme.calls == old(theme.calls) + HeadlightStep(old(Snapshot()), payload).calls
    {
      if payload[0] == HEADLIGHTS_ON {
        var m := theme.GetMode();
        if m != true {
          theme.SetMode(true);
        }
      } else {
        var m := theme.GetMode();
        if m != false {
          theme.SetMode(false);
        }
      }
    }

    /** 0x54B: dual-zone flag from byte 3; on a change of the status byte to
        0x03, airflow and fan speed 0 and an early return; otherwise mode
        byte 2 and fan byte 4, each decoded only when it changed. */
    method UpdateClimateDisplay(payload: seq<byte>)
      requires Valid() && |payload| >= MinLength(ClimateControl)
      modifies this`duelClimate, this`oldStatus, this`oldAirflow, this`oldFan, climate
      ensures Valid()
      ensures Snapshot() == ClimateStep(old(Snapshot()), payload).next
      ensures climate.calls == old(climate.calls) + ClimateStep(old(Snapshot()), payload).calls
    {
      if payload[3] == 0x62 || payload[3] == 0x61 {
        duelClimate := true;
      } else {
        duelClimate := false;
      }
      if SignedChar(payload[0]) != oldStatus {
        oldStatus := SignedChar(payload[0]);
        if payload[0] == CLIMATE_OFF {
          climate.SetAirflow(0);
          climate.SetFanSpeed(0);
          return;
        }
      }
      DecodeAirflow(payload[2]);
      DecodeFan(payload[4]);
    }

    /** Mode byte 2 of a 0x54B frame: when it differs from its cache, a
        known byte sets the airflow, and the byte becomes the cache. */
    method DecodeAirflow(b: byte)
      requires Valid()
      modifies this`oldAirflow, climate
      ensures Valid()
      ensures Snapshot() == AirflowStage(old(Snapshot()), b).next
      ensures climate.calls == old(climate.calls) + AirflowStage(old(Snapshot()), b).calls
    {
      if b != oldAirflow {
        var mode := AirflowMode(b);
        if mode.Some? {
          climate.SetAirflow(mode.value);
        }
        oldAirflow := b;
      }
    }

    /** Fan byte 4 of a 0x54B frame: when it differs from its cache, a known
        byte sets the fan speed, and the byte becomes the cache. */
    method DecodeFan(b: byte)
      requires Valid()
      modifies this`oldFan, climate
      ensures Valid()
      ensures Snapshot() == FanStage(old(Snapshot()), b).next
      ensures climate.calls == old(climate.calls) + FanStage(old(Snapshot()), b).calls
    {
      if b != oldFan {
        var speed := FanSpeed(b);
        if speed.Some? {
          climate.SetFanSpeed(speed.value);
        }
        oldFan := b;
      }
    }

    /** 0x542: driver temperature from byte 1; passenger temperature from
        byte 2 in dual-zone mode, else from byte 1; each set only when it
        differs from its cache. */
    method UpdateTemperatureDisplay(payload: seq<byte>)
      requires Valid() && |payload| >= MinLength(TemperatureControl)
      modifies this`oldDriverTemp, this`oldPassTemp, climate
      ensures Valid()
      ensures Snapshot() == TemperatureStep(old(Snapshot()), payload).next
      ensures climate.calls == old(climate.calls) + TemperatureStep(old(Snapshot()), payload).calls
    {
      if oldDriverTemp != payload[1] {
        climate.SetDriverTemp(payload[1]);
        oldDriverTemp := payload[1];
      }
      if duelClimate {
        if oldPassTemp != payload[2] {
          climate.SetPassengerTemp(payload[2]);
          oldPassTemp := payload[2];
        }
      } else {
        if oldPassTemp != payload[1] {
          climate.SetPassengerTemp(payload[1]);
          oldPassTemp := payload[1];
        }
      }
    }
  }
}
