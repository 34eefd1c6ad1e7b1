/** What one delivery of a frame to each Infiniti G37 handler does, as a
    function of the decoder state before it: the new state and the setter
    calls it makes, in order. The imperative handlers in module
    InfinitiG37Plugin are proved to follow these definitions. */
module G37Spec {
  import opened Bytes
  import opened G37Table

  /** A call the decoder makes on the theme or the climate widget. */
  datatype Call =
    | SetMode(dark: bool)
    | SetAirflow(mode: int)
    | SetFanSpeed(speed: int)
    | SetMaxFanSpeed(max: int)
    | SetDriverTemp(temp: int)
    | SetPassengerTemp(temp: int)

  /** Everything the handlers read or write: the change-detection caches
      (`oldStatus` holds a signed char), the dual-zone flag, the last value
      each climate setter received and the theme mode. */
  datatype State = State(
    oldStatus: int, oldAirflow: int, oldFan: int,
    oldDriverTemp: int, oldPassTemp: int, duelClimate: bool,
    airflow: int, fanSpeed: int, maxFanSpeed: int,
    driverTemp: int, passengerTemp: int, themeMode: bool)

  /** The outcome of one delivery. */
  datatype Step = Step(next: State, calls: seq<Call>)

  /** The three callbacks the decoder registers. */
  datatype Handler = Headlight | ClimateControl | TemperatureControl

  /** The payload bytes a handler reads: it indexes up to this length. */
  function MinLength(h: Handler): nat
  {
    match h
    case Headlight => 1
    case ClimateControl => 5
    case TemperatureControl => 3
  }

  /** A one-call notification, made only when the new value differs from
      the cached one. */
  function Fire(cache: int, v: int, c: Call): seq<Call>
  {
    if cache != v then [c] else []
  }

  /** Calls the decoder can make at all: fan speeds within 0..MAX_FAN_SPEED,
      airflow values are 0 or a mask from the mode table, temperatures are
      single bytes, and the maximum fan speed is the configured one. */
  predicate Admissible(c: Call)
  {
    match c
    case SetMode(_) => true
    case SetAirflow(m) => m == 0 || m in {1, 2, 4, 5, 6}
    case SetFanSpeed(v) => 0 <= v <= MAX_FAN_SPEED
    case SetMaxFanSpeed(v) => v == MAX_FAN_SPEED
    case SetDriverTemp(t) => 0 <= t < 256
    case SetPassengerTemp(t) => 0 <= t < 256
  }

  // ---------------------------------------------------------------- 0x60D

  /** Headlight frame: the theme becomes dark exactly when byte 0 is 0x0E;
      the mode is set only when it differs from the current one, and nothing
      else changes. */
  function HeadlightStep(s: State, p: seq<byte>): (r: Step)
    requires |p| >= MinLength(Headlight)
    ensures r.next.themeMode <==> p[0] == HEADLIGHTS_ON
    ensures r.next == s.(themeMode := r.next.themeMode)
    ensures r.calls == [] <==> s.themeMode == r.next.themeMode
    ensures r.calls != [] ==> r.calls == [SetMode(r.next.themeMode)]
  {
    if p[0] == HEADLIGHTS_ON then
      if s.themeMode != true then Step(s.(themeMode := true), [SetMode(true)])
      else Step(s, [])
    else
      if s.themeMode != false then Step(s.(themeMode := false), [SetMode(false)])
      else Step(s, [])
  }

  // ---------------------------------------------------------------- 0x54B

  /** The status byte has changed to "climate off": the handler then clears
      airflow and fan speed and returns before decoding bytes 2 and 4. */
  predicate TurnsClimateOff(s: State, p: seq<byte>)
    requires |p| >= MinLength(ClimateControl)
  {
    SignedChar(p[0]) != s.oldStatus && p[0] == CLIMATE_OFF
  }

  /** Mode byte: when it differs from the cache, a known byte sets the
      airflow and any byte becomes the cache. */
  function AirflowStage(s: State, b: byte): Step
  {
    if b == s.oldAirflow then Step(s, [])
    else match AirflowMode(b)
      case Some(m) => Step(s.(airflow := m, oldAirflow := b), [SetAirflow(m)])
      case None => Step(s.(oldAirflow := b), [])
  }

  /** Fan byte: when it differs from the cache, a known byte sets the fan
      speed and any byte becomes the cache. */
  function FanStage(s: State, b: byte): Step
  {
    if b == s.oldFan then Step(s, [])
    else match FanSpeed(b)
      case Some(k) => Step(s.(fanSpeed := k, oldFan := b), [SetFanSpeed(k)])
      case None => Step(s.(oldFan := b), [])
  }

  /** Climate control frame. The dual-zone flag follows byte 3 and the status
      cache follows byte 0 on every frame, the climate-off path included;
      temperatures, the theme and the temperature caches never change, and
      every call made is admissible. */
  function ClimateStep(s: State, p: seq<byte>): (r: Step)
    requires |p| >= MinLength(ClimateControl)
    ensures r.next.duelClimate == DualZone(p[3])
    ensures r.next.oldStatus == SignedChar(p[0])
    ensures r.next == s.(duelClimate := r.next.duelClimate, oldStatus := r.next.oldStatus,
                         oldAirflow := r.next.oldAirflow, oldFan := r.next.oldFan,
                         airflow := r.next.airflow, fanSpeed := r.next.fanSpeed)
    ensures forall c <- r.calls :: Admissible(c)
  {
    var s1 := s.(duelClimate := DualZone(p[3]), oldStatus := SignedChar(p[0]));
    if TurnsClimateOff(s, p) then
      Step(s1.(airflow := 0, fanSpeed := 0), [SetAirflow(0), SetFanSpeed(0)])
    else
      var a := AirflowStage(s1, p[2]);
      var f := FanStage(a.next, p[4]);
      Step(f.next, a.calls + f.calls)
  }

  /** A status byte that changed to 0x03 switches the climate off: airflow
      and fan speed 0, and the mode and fan caches keep their old values. */
  lemma ClimateOffPath(s: State, p: seq<byte>)
    requires |p| >= MinLength(ClimateControl)
    requires TurnsClimateOff(s, p)
    ensures var r := ClimateStep(s, p);
      && r.next.airflow == 0 && r.next.fanSpeed == 0
      && r.next.oldAirflow == s.oldAirflow && r.next.oldFan == s.oldFan
      && r.calls == [SetAirflow(0), SetFanSpeed(0)]
  {
  }

  /** Otherwise the mode and fan caches follow bytes 2 and 4, and airflow
      and fan speed change, by a setter call, only to the table value of a
      byte that differs from its cache; a byte outside its table changes
      only the cache. */
  lemma ClimateDecodes(s: State, p: seq<byte>)
    requires |p| >= MinLength(ClimateControl)
    requires !TurnsClimateOff(s, p)
    ensures var r := ClimateStep(s, p);
      && r.next.oldAirflow == p[2] && r.next.oldFan == p[4]
      && r.next.airflow == (if p[2] != s.oldAirflow && AirflowMode(p[2]).Some?
                            then AirflowMode(p[2]).value else s.airflow)
      && r.next.fanSpeed == (if p[4] != s.oldFan && FanSpeed(p[4]).Some?
                             then FanSpeed(p[4]).value else s.fanSpeed)
      && r.calls ==
           (if p[2] != s.oldAirflow && AirflowMode(p[2]).Some?
            then [SetAirflow(AirflowMode(p[2]).value)] else [])
         + (if p[4] != s.oldFan && FanSpeed(p[4]).Some?
            then [SetFanSpeed(FanSpeed(p[4]).value)] else [])
  {
  }

  // ---------------------------------------------------------------- 0x542

  /** The byte the passenger temperature is read from: byte 2 in dual-zone
      mode, otherwise the driver's byte 1. */
  function PassengerByte(dual: bool, p: seq<byte>): byte
    requires |p| >= MinLength(TemperatureControl)
  {
    if dual then p[2] else p[1]
  }

  /** Temperature frame. Afterwards both caches hold the selected bytes; each
      temperature is set, 1:1 from its byte, only when that byte differed
      from its cache, driver first. Nothing else changes; in particular the
      dual-zone flag is only read. */
  function TemperatureStep(s: State, p: seq<byte>): (r: Step)
    requires |p| >= MinLength(TemperatureControl)
    ensures r.next.oldDriverTemp == p[1]
    ensures r.next.oldPassTemp == PassengerByte(s.duelClimate, p)
    ensures r.next.driverTemp == if s.oldDriverTemp != p[1] then p[1] else s.driverTemp
    ensures r.next.passengerTemp ==
      if s.oldPassTemp != PassengerByte(s.duelClimate, p)
      then PassengerByte(s.duelClimate, p) else s.passengerTemp
    ensures r.calls == Fire(s.oldDriverTemp, p[1], SetDriverTemp(p[1]))
                     + Fire(s.oldPassTemp, PassengerByte(s.duelClimate, p),
                            SetPassengerTemp(PassengerByte(s.duelClimate, p)))
    ensures r.next == s.(oldDriverTemp := r.next.oldDriverTemp, oldPassTemp := r.next.oldPassTemp,
                         driverTemp := r.next.driverTemp, passengerTemp := r.next.passengerTemp)
  {
    var d :=
      if s.oldDriverTemp != p[1]
      then Step(s.(driverTemp := p[1], oldDriverTemp := p[1]), [SetDriverTemp(p[1])])
      else Step(s, []);
    var t := d.next;
    if t.duelClimate then
      if t.oldPassTemp != p[2]
      then Step(t.(passengerTemp := p[2], oldPassTemp := p[2]), d.calls + [SetPassengerTemp(p[2])])
      else d
    else
      if t.oldPassTemp != p[1]
      then Step(t.(passengerTemp := p[1], oldPassTemp := p[1]), d.calls + [SetPassengerTemp(p[1])])
      else d
  }

  // ------------------------------------------------------------ deliveries

  /** One frame payload handed to one of the registered callbacks. */
  datatype Delivery = Delivery(handler: Handler, payload: seq<byte>)

  predicate Deliverable(d: Delivery)
  {
    |d.payload| >= MinLength(d.handler)
  }

  function Deliver(s: State, d: Delivery): Step
    requires Deliverable(d)
  {
    match d.handler
    case Headlight => HeadlightStep(s, d.payload)
    case ClimateControl => ClimateStep(s, d.payload)
    case TemperatureControl => TemperatureStep(s, d.payload)
  }

  /** Deliveries one after another, in order, on one worker: the final state
      and every call made, in order. */
  function Run(s: State, ds: seq<Delivery>): Step
    requires forall d <- ds :: Deliverable(d)
    decreases |ds|
  {
    if ds == [] then Step(s, [])
    else
      var first := Deliver(s, ds[0]);
      var rest := Run(first.next, ds[1..]);
      Step(rest.next, first.calls + rest.calls)
  }
}
