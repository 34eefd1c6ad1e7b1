/** The fixed byte tables of the Infiniti G37 climate frames. */
module G37Table {
  import opened Bytes

  datatype Option<T> = None | Some(value: T)

  /** Frame identifiers the decoder registers for. */
  const HEADLIGHT_FRAME: int := 0x60D
  const CLIMATE_FRAME: int := 0x54B
  const TEMPERATURE_FRAME: int := 0x542

  /** Headlight byte meaning "headlights on" (and "auto"). */
  const HEADLIGHTS_ON: byte := 0x0E
  /** Climate status byte meaning "climate off". */
  const CLIMATE_OFF: byte := 0x03
  /** The maximum fan speed the decoder configures on the climate widget. */
  const MAX_FAN_SPEED: int := 7

  /** Which outlets an airflow mode blows through. */
  datatype Vents = Vents(defrost: bool, head: bool, feet: bool)

  /** The airflow value handed to the climate widget is a bit mask:
      bit 0 defrost, bit 1 head, bit 2 feet. */
  function VentMask(v: Vents): (m: int)
    ensures 0 <= m < 8
    ensures v.defrost <==> m % 2 == 1
    ensures v.head <==> (m / 2) % 2 == 1
    ensures v.feet <==> m / 4 == 1
  {
    (if v.defrost then 1 else 0) + (if v.head then 2 else 0) + (if v.feet then 4 else 0)
  }

  /** The outlets each known mode byte names: A0 defrost and legs, 88 head,
      90 head and feet, 98 feet, A8 defrost. */
  function NamedVents(code: byte): Option<Vents>
  {
    if code == 0xA0 then Some(Vents(true, false, true))
    else if code == 0x88 then Some(Vents(false, true, false))
    else if code == 0x90 then Some(Vents(false, true, true))
    else if code == 0x98 then Some(Vents(false, false, true))
    else if code == 0xA8 then Some(Vents(true, false, false))
    else None
  }

  /** The airflow value decoded from mode byte 2 of a 0x54B frame, or None
      for a byte outside the table. The constants agree with the outlets
      each mode byte names. */
  function AirflowMode(code: byte): (r: Option<int>)
    ensures r.Some? <==> NamedVents(code).Some?
    ensures r.Some? ==> r.value == VentMask(NamedVents(code).value)
    ensures r.Some? ==> r.value in {1, 2, 4, 5, 6}
  {
    match code
    case 0xA0 => Some(5)   // 0b101
    case 0x88 => Some(2)   // 0b010
    case 0x90 => Some(6)   // 0b110
    case 0x98 => Some(4)   // 0b100
    case 0xA8 => Some(1)   // 0b1
    case _ => None
  }

  /** Distinct mode bytes decode to distinct airflow values. */
  lemma AirflowModeInjective(a: byte, b: byte)
    requires AirflowMode(a).Some? && AirflowMode(a) == AirflowMode(b)
    ensures a == b
  {
  }

  /** The fan speed decoded from fan byte 4 of a 0x54B frame, or None for a
      byte outside the table. The known bytes are exactly 0x04 + 8k for k in
      0..7, and they decode to k, never above the configured maximum. */
  function FanSpeed(code: byte): (r: Option<int>)
    ensures r.Some? <==> code % 8 == 4 && code < 0x40
    ensures r.Some? ==> code == 0x04 + 8 * r.value
    ensures r.Some? ==> 0 <= r.value <= MAX_FAN_SPEED
  {
    match code
    case 0x04 => Some(0)
    case 0x0C => Some(1)
    case 0x14 => Some(2)
    case 0x1C => Some(3)
    case 0x24 => Some(4)
    case 0x2C => Some(5)
    case 0x34 => Some(6)
    case 0x3C => Some(7)
    case _ => None
  }

  /** Byte 3 of a 0x54B frame reports dual-zone climate as 0x61 or 0x62. */
  predicate DualZone(code: byte)
  {
    code == 0x62 || code == 0x61
  }
}
