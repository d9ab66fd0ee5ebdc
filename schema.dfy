/**
 * The three tables of shared/schema.ts: their rows, the records a caller
 * inserts (without the columns the store assigns), and the column defaults.
 */
module Schema {
  import opened Wrappers

  /** A row of `occupancy_logs`; `timestamp` is milliseconds since the epoch. */
  datatype OccupancyLog = OccupancyLog(id: nat, occupancyCount: int, timestamp: int)

  /** A row of `device_states`; `mode` is free text, `'auto'` or `'manual'` by convention. */
  datatype DeviceState = DeviceState(id: nat, name: string, isOn: bool, lastUpdated: int, mode: string)

  /** A row of `system_settings`; `description` may be null. */
  datatype SystemSetting = SystemSetting(id: nat, key: string, value: string, description: Option<string>)

  /** What a caller inserts into `occupancy_logs`: no `id`, no `timestamp`. */
  datatype InsertOccupancyLog = InsertOccupancyLog(occupancyCount: int)

  /** What a caller inserts into `device_states`: no `id`, no `lastUpdated`; `isOn` and `mode` have defaults. */
  datatype InsertDeviceState = InsertDeviceState(name: string, isOn: Option<bool>, mode: Option<string>)

  /** What a caller inserts into `system_settings`: no `id`. */
  datatype InsertSystemSetting = InsertSystemSetting(key: string, value: string, description: Option<string>)

  /** The fields of a device update; an absent field is not part of the update. */
  datatype DeviceUpdate = DeviceUpdate(isOn: Option<bool>, mode: Option<string>)

  const DEFAULT_IS_ON := false
  const AUTO := "auto"
  const MANUAL := "manual"
  const DEFAULT_MODE := AUTO

  /** The range of a Postgres `integer` column. */
  const INT4_MIN := -0x8000_0000
  const INT4_MAX := 0x7fff_ffff

  predicate IsInt4(n: int)
  {
    INT4_MIN <= n <= INT4_MAX
  }

  /** Automation drives a device only when its mode is exactly `'auto'`. */
  predicate IsAutomatic(d: DeviceState)
  {
    d.mode == AUTO
  }

  /** The log row the store creates: its own id, the count, the time of the insert. */
  function NewLog(id: nat, log: InsertOccupancyLog, now: int): OccupancyLog
  {
    OccupancyLog(id, log.occupancyCount, now)
  }

  /** The device row the store creates, with the column defaults filled in. */
  function NewDevice(id: nat, device: InsertDeviceState, now: int): (d: DeviceState)
    ensures d.id == id && d.name == device.name && d.lastUpdated == now
    ensures d.isOn == (device.isOn == Some(true))
    ensures device.mode.None? ==> d.mode == AUTO
    ensures device.mode.Some? ==> d.mode == device.mode.value
  {
    DeviceState(id, device.name, device.isOn.GetOr(DEFAULT_IS_ON), now, device.mode.GetOr(DEFAULT_MODE))
  }

  /** A device inserted with no `isOn` and no `mode` is off and automatic. */
  lemma NewDeviceDefaults(id: nat, name: string, now: int)
    ensures var d := NewDevice(id, InsertDeviceState(name, None, None), now);
      !d.isOn && IsAutomatic(d)
  {
  }

  /** The setting row the store creates. */
  function NewSetting(id: nat, setting: InsertSystemSetting): SystemSetting
  {
    SystemSetting(id, setting.key, setting.value, setting.description)
  }

  /** A device after an update at `now`: the supplied fields, a new `lastUpdated`, the rest kept. */
  function ApplyUpdate(d: DeviceState, u: DeviceUpdate, now: int): (r: DeviceState)
    ensures r.id == d.id && r.name == d.name && r.lastUpdated == now
    ensures r.isOn == (if u.isOn.Some? then u.isOn.value else d.isOn)
    ensures r.mode == (if u.mode.Some? then u.mode.value else d.mode)
  {
    d.(isOn := u.isOn.GetOr(d.isOn), mode := u.mode.GetOr(d.mode), lastUpdated := now)
  }
}
