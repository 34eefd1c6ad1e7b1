/** A client of the decoder: what a caller can conclude from the handlers'
    contracts alone, frame after frame. */
module G37Scenarios {
  import opened G37Spec
  import opened G37Collaborators
  import opened InfinitiG37Plugin

  method HeadlightsThenDualZoneTemperature()
  {
    var bus := new CanBus();
    var theme := new Theme();
    var car := new InfinitiG37();
    var ok := car.Init(bus, theme);
    assert ok && |bus.registrations| == 3;
    assert bus.registrations[1] == Registration(0x54B, ClimateControl);

    // 0x60D with byte 0 = 0x0E: dark mode; then 0x08: light mode.
    car.MonitorHeadlightStatus([0x0E, 0x06]);
    assert theme.mode;
    car.MonitorHeadlightStatus([0x08, 0x06]);
    assert !theme.mode;

    // 0x54B reporting dual zone (byte 3 = 0x62), mode 0x90, fan 0x24.
    car.UpdateClimateDisplay([0x02, 0x00, 0x90, 0x62, 0x24]);
    assert car.duelClimate;
    assert car.climate.airflow == 6 && car.climate.fanSpeed == 4;

    // 0x542 afterwards: passenger temperature from byte 2.
    car.UpdateTemperatureDisplay([0x00, 0x5A, 0x40]);
    assert car.climate.driverTemp == 90 && car.climate.passengerTemp == 64;
  }
}
