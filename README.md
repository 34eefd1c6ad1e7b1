# Infiniti G37 CAN decoder, modelled in Dafny

The Infiniti G37 vehicle plugin of the dash head unit receives CAN frames as
an identifier and a payload. It turns byte patterns in them into calls on the
theme (dark or light mode) and the climate widget (airflow, fan speed, driver
and passenger temperature). `init` registers three callbacks with the bus:

- 0x60D: headlights;
- 0x54B: climate control;
- 0x542: temperature.

The climate and temperature callbacks compare the payload bytes they read
with a cached previous value and call a setter only when the byte changed.
The headlight callback keeps no cache: it compares the requested mode with
the theme's current mode and calls `set_mode` only when they differ. The 0x54B frame also
sets a dual-zone flag. A later 0x542 frame uses that flag to choose which
byte holds the passenger temperature.

The model has two layers. They are proved to agree.

- **Specification functions** (modules `Bytes`, `G37Table`, `G37Spec`).
  - `HeadlightStep`, `ClimateStep` and `TemperatureStep` give the decoder
    `State` after one delivery, plus the setter calls made, in order.
  - `State` holds the caches, the dual-zone flag, the last value each climate
    setter received, and the theme mode.
  - `Run` delivers a sequence of frames one after another.
  - The byte tables are functions whose contracts give an independent
    reading. The mode bytes are checked against the outlets they name, as
    the bit mask set_airflow receives. The fan bytes are checked against the
    arithmetic rule `0x04 + 8k`.
- **Imperative classes** (modules `G37Collaborators`, `InfinitiG37Plugin`).
  - `InfinitiG37` holds the caches and the dual-zone flag as fields.
  - Its handlers compare and overwrite those fields step by step, with the
    source's early return, and call setter methods on `Theme` and `Climate`.
    Those two objects record each call in a ghost log.
  - `CanBus` records registrations in order.
  - Each handler's `ensures` states its whole new state, `Snapshot()`, and
    the calls appended to the log, as the specification function of the old
    state.
  - `Valid()` keeps the invariant that the climate widget has only ever
    received admissible calls, such as fan speeds within 0..7.

Module `G37Properties` proves the properties that span deliveries:

- a repeated headlight or temperature frame makes no further calls, and so
  does a repeated climate frame that did not switch the climate off; a third
  identical climate frame is always quiet;
- over a run of headlight frames only, or of temperature frames only, the
  mode and each temperature are sent exactly where the requested value
  changes;
- the dual-zone flag carries over from the last 0x54B frame to later 0x542
  frames, whatever frames come between;
- every call in any run is admissible.

`G37Scenarios` is a client. It calls the handlers on a headlight payload
and on a dual-zone climate and temperature pair. Dafny proves its assertions
about the resulting state from the handlers' contracts alone.

Behaviours of the code that the model keeps:

- The handlers do not check the payload length. The model states the lengths
  they index as preconditions: 1 byte for 0x60D, 5 for 0x54B, 3 for 0x542.
  It does not model a "payload too short" outcome.
- A byte outside the mode or fan table is ignored silently. It still becomes
  the cache, and no error is reported.
- `init` resets only the dual-zone flag and creates a new climate widget. The
  five caches keep their values. After a re-initialisation, a value equal to
  its cache is therefore not sent to the new widget.
- The off path is edge-triggered too. When the status byte changes to 0x03,
  plugins/InfinitiG37/infiniti_g37.cpp:101-105 clears airflow and fan speed
  and returns before the mode and fan caches are updated. A second identical
  "off" frame then decodes bytes 2 and 4. So "climate off gives airflow 0 and
  fan 0 whatever the other bytes" holds only for the first such frame, and
  repeating an off frame is not always quiet. `ClimateOffRepeatNotifies`
  gives a concrete frame for this. `ClimateSettlesAfterTwo` shows that the
  third identical delivery is always quiet.

## Model

| member | source | states |
|---|---|---|
| `Bytes.SignedChar` | plugins/InfinitiG37/infiniti_g37.cpp:99-100 | `payload.at(0)` read as a signed char lies in -128..127, is congruent to the byte modulo 256, and equals the byte exactly when the byte is below 0x80 |
| `Bytes.SignedCharInjective` | plugins/InfinitiG37/infiniti_g37.cpp:99-100 | comparing signed chars is comparing bytes, so the status cache detects exactly the byte changes |
| `G37Table.VentMask` | plugins/InfinitiG37/infiniti_g37.cpp:113-127 | the airflow value is a 3-bit mask: bit 0 defrost, bit 1 head, bit 2 feet |
| `G37Table.AirflowMode` | plugins/InfinitiG37/infiniti_g37.cpp:112-128 | exactly the five mode bytes A0, 88, 90, 98 and A8 decode. Each decodes to the mask of the outlets the byte names (A0 defrost+legs, 88 head, 90 head+feet, 98 feet, A8 defrost), always one of 1, 2, 4, 5, 6 |
| `G37Table.AirflowModeInjective` | plugins/InfinitiG37/infiniti_g37.cpp:112-128 | distinct mode bytes decode to distinct airflow values |
| `G37Table.FanSpeed` | plugins/InfinitiG37/infiniti_g37.cpp:132-157 | a fan byte decodes exactly when it is 0x04 + 8k with k in 0..7; it then decodes to k, never above the maximum 7 |
| `G37Spec.HeadlightStep` | plugins/InfinitiG37/infiniti_g37.cpp:38-51 | afterwards the theme is dark iff byte 0 is 0x0E; set_mode is called, once and with the new mode, only when the mode differs; nothing else changes |
| `G37Spec.ClimateStep` | plugins/InfinitiG37/infiniti_g37.cpp:92-160 | the dual-zone flag becomes "byte 3 is 0x61 or 0x62", and the status cache becomes byte 0 as a signed char, on every frame, the off path included; only caches and airflow/fan fields change; every call made is admissible |
| `G37Spec.ClimateOffPath` | plugins/InfinitiG37/infiniti_g37.cpp:99-107 | when the status byte changed to 0x03: airflow and fan speed set to 0, in that order, with no other call, and the mode and fan caches unchanged |
| `G37Spec.ClimateDecodes` | plugins/InfinitiG37/infiniti_g37.cpp:108-159 | otherwise the mode and fan caches become bytes 2 and 4. Airflow and fan speed are set, airflow first, only for a byte that differs from its cache and is in its table, and only to the table value; an unknown byte changes only the cache |
| `G37Spec.TemperatureStep` | plugins/InfinitiG37/infiniti_g37.cpp:169-186 | the driver cache becomes byte 1. The passenger cache becomes byte 2 in dual-zone mode, else byte 1. Each temperature is set 1:1, driver first, exactly when its byte differed from its cache. The dual-zone flag and everything else are unchanged |
| `G37Properties.HeadlightRepeatQuiet` | plugins/InfinitiG37/infiniti_g37.cpp:38-51 | the same headlight frame delivered again changes nothing and makes no call |
| `G37Properties.ClimateRepeatQuiet` | plugins/InfinitiG37/infiniti_g37.cpp:99-159 | after a 0x54B frame that did not take the off return, the status, mode and fan caches equal bytes 0, 2 and 4, and the identical frame again makes no call and changes nothing |
| `G37Properties.ClimateSettlesAfterTwo` | plugins/InfinitiG37/infiniti_g37.cpp:99-159 | whatever the state, a third identical 0x54B delivery is quiet |
| `G37Properties.ClimateOffRepeatNotifies` | plugins/InfinitiG37/infiniti_g37.cpp:99-107 | a concrete state and "off" frame whose second delivery still calls set_fan_speed(0), because the off return skipped the mode and fan caches |
| `G37Properties.TemperatureRepeatQuiet` | plugins/InfinitiG37/infiniti_g37.cpp:169-186 | the same 0x542 frame delivered again makes no call and changes nothing, since the dual-zone flag is only read |
| `G37Properties.RunCallsAdmissible` | plugins/InfinitiG37/infiniti_g37.cpp:131-159 | over any run of frames, every call is admissible: fan speeds within 0..7, airflow 0 or a table mask, temperatures single bytes |
| `G37Properties.RunDualZone` | plugins/InfinitiG37/infiniti_g37.cpp:93-98 | after any run, the dual-zone flag is the one the last 0x54B frame in it set, or the previous flag if there was none |
| `G37Properties.PassengerFollowsLastClimateFrame` | plugins/InfinitiG37/infiniti_g37.cpp:174-185 | after any run, a 0x542 frame takes the passenger temperature from byte 2 exactly when the last 0x54B frame of the run reported dual zone |
| `G37Properties.TemperatureStepReports` | plugins/InfinitiG37/infiniti_g37.cpp:170-185 | one 0x542 frame reports the driver temperature iff byte 1 differs from its cache, and the passenger temperature iff the selected byte differs from its cache |
| `G37Properties.HeadlightRunEdgeTriggered` | plugins/InfinitiG37/infiniti_g37.cpp:38-51 | over a run of 0x60D frames, only set_mode is called, and the modes sent are exactly the requested modes with repeats removed |
| `G37Properties.TemperatureRunEdgeTriggered` | plugins/InfinitiG37/infiniti_g37.cpp:169-186 | over a run of 0x542 frames, the driver and passenger temperatures sent are exactly their bytes with repeats removed; the passenger byte is byte 2 in dual-zone mode, else byte 1 |
| `G37Properties.DriverTempFiveFrames` | plugins/InfinitiG37/infiniti_g37.cpp:170-173 | byte-1 values v1, v1, v2, v2, v1 produce exactly three driver notifications, v1, v2, v1, when v1 differs from v2 and from the driver cache |
| `InfinitiG37Plugin.InfinitiG37.constructor` | plugins/InfinitiG37/infiniti_g37.cpp:3-5 | the static initial values: dual-zone flag false, no theme or climate yet; and every cache 0, as the globals at lines 86-90 start |
| `InfinitiG37Plugin.InfinitiG37.Init` | plugins/InfinitiG37/infiniti_g37.cpp:8-24 | returns true. Resets the dual-zone flag, takes the theme and creates a fresh climate widget whose only call is set_max_fan_speed(7). Appends exactly three registrations, in the order 0x60D, 0x54B, 0x542. Leaves the caches as they were |
| `InfinitiG37Plugin.InfinitiG37.MonitorHeadlightStatus` | plugins/InfinitiG37/infiniti_g37.cpp:38-51 | new state and theme calls are those of `HeadlightStep` |
| `InfinitiG37Plugin.InfinitiG37.UpdateClimateDisplay` | plugins/InfinitiG37/infiniti_g37.cpp:92-160 | new state and climate calls are those of `ClimateStep`; the call-admissibility invariant is kept |
| `InfinitiG37Plugin.InfinitiG37.DecodeAirflow` | plugins/InfinitiG37/infiniti_g37.cpp:108-130 | the mode-byte block: new state and calls are those of `AirflowStage` |
| `InfinitiG37Plugin.InfinitiG37.DecodeFan` | plugins/InfinitiG37/infiniti_g37.cpp:131-159 | the fan-byte block: new state and calls are those of `FanStage` |
| `InfinitiG37Plugin.InfinitiG37.UpdateTemperatureDisplay` | plugins/InfinitiG37/infiniti_g37.cpp:169-186 | new state and climate calls are those of `TemperatureStep`; only the two temperature caches and the climate widget change |

## Left out

- Frame routing (`registerFrameHandler` and the bus behind it) is not part of this model. The model records the registrations `init` makes, in order. `Run` hands each payload straight to a named handler and claims nothing about how identifiers are dispatched.
- `tabs()` (plugins/InfinitiG37/infiniti_g37.cpp:189-194), the `G37_LOG` logging and `setProperty("tab_title", ...)` are Qt plumbing and are left out.
- The climate widget's internals are left out. So is its constructor's choice of initial values: the model promises nothing about them. Only its setters are modelled, as recorded calls that store the value.
- The theme is only its boolean mode with get and set. Everything in src/app/theme.cpp (fonts, palettes, icons, stylesheets, scaling) is presentation. Its `set_mode` is not shown, so any repainting it triggers is left out.
- `Theme::get_instance()` is a process-wide singleton. `Init` takes the theme as a parameter instead.
- G37Properties.HeadlightRunEdgeTriggered: like `HeadlightRepeatQuiet` and `Run`, it assumes that nothing but the decoder writes the theme mode between deliveries. In the program the theme is shared, so a mode set elsewhere is overridden by the next 0x60D frame, which then makes a further `set_mode` call. `MonitorHeadlightStatus` itself reads the live theme mode and models that case.
- `theme`, `climate` and `duelClimate` are static members, and the five caches are file-level globals. The model makes them fields of one decoder object. Sharing between two decoder instances is therefore not modelled.
- Re-initialisation replaces the climate widget without freeing the old one. Memory management is not modelled.
- The model takes `char` as signed, as on x86. Where `char` is unsigned, `oldStatus` stores the byte itself. Both readings compare bytes faithfully (`SignedCharInjective`), so the decoder behaves the same.
- The `VehicleInterface` plugin interface in include/canbus/vehicleinterface.hpp has no logic. Only its `init` contract is modelled, as `Init`.
- Payload lengths: `QByteArray::at` needs an in-range index and the source does not check lengths. The model therefore requires payloads of at least 1, 5 and 3 bytes.
