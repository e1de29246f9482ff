/** internal/model and internal/device/profiles.go: the values the state machines exchange. */
module Model {
  import opened Common
  import opened Energy

  datatype Class =
    | ShortBurst | CyclePower | Continuous | Media | BinaryState
    | EnvironmentalSensor | UPSSensor | EnergyMeter | FireAlarm | ApplianceProbe
    | OtherClass(name: string)

  /** The measurement-only classes, which have no activity machine. */
  predicate IsPassive(c: Class) {
    c.EnvironmentalSensor? || c.UPSSensor? || c.EnergyMeter? || c.FireAlarm? || c.ApplianceProbe?
  }

  datatype Activity =
    | Unknown | Idle | Active | Starting | Running | Finishing
    | FinishedRecently | Standby | NormalIdle | ActiveCycle | Reporting

  datatype Availability = NotSeen | Online | OfflinePending | Offline

  datatype Thresholds = Thresholds(
    idleBelowW: Option<real>,
    activeAboveW: Option<real>,
    compressorAboveW: Option<real>,
    activeSustainedFor: Option<int>,
    inactiveSustainedFor: Option<int>)

  function OrZero(x: Option<real>): real { if x.Some? then x.value else 0.0 }

  function OrZeroDuration(x: Option<int>): int { if x.Some? then x.value else 0 }

  datatype Reading = Reading(
    powerW: Option<real>,
    energyKWh: Option<real>,
    state: Option<string>,
    temperatureC: Option<real>,
    humidityPct: Option<real>)

  datatype CycleEnergy = CycleEnergy(
    primarySource: Source,
    reported: real,
    integrated: real,
    selected: real,
    divergencePct: real,
    divergenceWarning: bool,
    staleCounter: bool)

  const NO_ENERGY := CycleEnergy(NoSource, 0.0, 0.0, 0.0, 0.0, false, false)

  datatype Cycle = Cycle(active: bool, startedAt: int, finishedAt: Option<int>, durationSeconds: int,
                         energy: CycleEnergy)
}
