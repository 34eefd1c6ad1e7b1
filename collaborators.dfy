/** The objects the decoder talks to, reduced to what it uses of them: the
    theme's dark/light mode, the climate widget's setters and the bus's
    handler registration. Each records, as a ghost log, the calls it
    receives. */
module G37Collaborators {
  import opened G37Spec

  /** The application theme: only its boolean dark-mode flag. */
  class Theme {
    var mode: bool
    ghost var calls: seq<Call>

    constructor ()
      ensures calls == []
    {
      calls := [];
    }

    method GetMode() returns (m: bool)
      ensures m == mode
    {
      m := mode;
    }

    method SetMode(m: bool)
      modifies this
      ensures mode == m && calls == old(calls) + [Call.SetMode(m)]
    {
      mode := m;
      calls := calls + [Call.SetMode(m)];
    }
  }

  /** The climate widget: the last value each setter received. */
  class Climate {
    var airflow: int
    var fanSpeed: int
    var maxFanSpeed: int
    var driverTemp: int
    var passengerTemp: int
    ghost var calls: seq<Call>

    /** A fresh widget has received no call; its initial values belong to
        the widget and are not promised here. */
    constructor ()
      ensures calls == []
    {
      calls := [];
    }

    method SetAirflow(m: int)
      modifies this`airflow, this`calls
      ensures airflow == m && calls == old(calls) + [Call.SetAirflow(m)]
    {
      airflow := m;
      calls := calls + [Call.SetAirflow(m)];
    }

    method SetFanSpeed(v: int)
      modifies this`fanSpeed, this`calls
      ensures fanSpeed == v && calls == old(calls) + [Call.SetFanSpeed(v)]
    {
      fanSpeed := v;
      calls := calls + [Call.SetFanSpeed(v)];
    }

    method SetMaxFanSpeed(v: int)
      modifies this`maxFanSpeed, this`calls
      ensures maxFanSpeed == v && calls == old(calls) + [Call.SetMaxFanSpeed(v)]
    {
      maxFanSpeed := v;
      calls := calls + [Call.SetMaxFanSpeed(v)];
    }

    method SetDriverTemp(t: int)
      modifies this`driverTemp, this`calls
      ensures driverTemp == t && calls == old(calls) + [Call.SetDriverTemp(t)]
    {
      driverTemp := t;
      calls := calls + [Call.SetDriverTemp(t)];
    }

    method SetPassengerTemp(t: int)
      modifies this`passengerTemp, this`calls
      ensures passengerTemp == t && calls == old(calls) + [Call.SetPassengerTemp(t)]
    {
      passengerTemp := t;
      calls := calls + [Call.SetPassengerTemp(t)];
    }
  }

  /** One handler registration: a frame identifier and the callback. */
  datatype Registration = Registration(id: int, handler: Handler)

  /** The CAN bus, seen only through the registrations made on it, in the
      order they were made. */
  class CanBus {
    var registrations: seq<Registration>

    constructor ()
      ensures registrations == []
    {
      registrations := [];
    }

    method RegisterFrameHandler(id: int, h: Handler)
      modifies this
      ensures registrations == old(registrations) + [Registration(id, h)]
    {
      registrations := registrations + [Registration(id, h)];
    }
  }
}
