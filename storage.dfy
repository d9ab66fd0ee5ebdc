/**
 * DatabaseStorage (server/storage.ts) as an object whose fields are the
 * tables. Every method that writes changes the fields in place and is
 * proved to leave the tables as the function of the same name in Tables
 * says; the lookups read the fields.
 */
module Storage {
  import opened Wrappers
  import opened Schema
  import Tables

  class DatabaseStorage {
    var logs: seq<OccupancyLog>
    var devices: seq<DeviceState>
    var settings: seq<SystemSetting>
    var logSeq: nat
    var deviceSeq: nat
    var settingSeq: nat

    /** The value of the tables. */
    function State(): Tables.Db
      reads this
    {
      Tables.Db(logs, devices, settings, logSeq, deviceSeq, settingSeq)
    }

    predicate Valid()
      reads this
    {
      Tables.Valid(State())
    }

    /** A new, empty database. */
    constructor ()
      ensures Valid() && State() == Tables.EmptyDb
    {
      logs, devices, settings := [], [], [];
      logSeq, deviceSeq, settingSeq := 0, 0, 0;
    }

    method LogOccupancy(log: InsertOccupancyLog, now: int) returns (entry: Option<OccupancyLog>)
      requires Valid()
      modifies this
      ensures Valid()
      ensures Tables.Write(State(), entry) == Tables.LogOccupancy(old(State()), log, now)
    {
      if IsInt4(log.occupancyCount) {
        logSeq := logSeq + 1;
        var row := NewLog(logSeq, log, now);
        logs := logs + [row];
        entry := Some(row);
      } else {
        entry := None;
      }
    }

    function GetOccupancyHistory(limit: nat): seq<OccupancyLog>
      reads this
    {
      Tables.GetOccupancyHistory(State(), limit)
    }

    function GetDevices(): seq<DeviceState>
      reads this
    {
      Tables.GetDevices(State())
    }

    function GetDevice(name: string): Option<DeviceState>
      reads this
    {
      Tables.GetDevice(State(), name)
    }

    method UpdateDevice(name: string, updates: DeviceUpdate, now: int) returns (updated: Option<DeviceState>)
      requires Valid()
      modifies this
      ensures Valid()
      ensures Tables.Write(State(), updated) == Tables.UpdateDevice(old(State()), name, updates, now)
    {
      var i := Tables.FirstIndex(devices, Tables.DeviceName, name);
      devices := Tables.UpdateNamed(devices, name, updates, now);
      updated := if i < 0 then None else Some(devices[i]);
    }

    method CreateDevice(device: InsertDeviceState, now: int) returns (created: Option<DeviceState>)
      requires Valid()
      modifies this
      ensures Valid()
      ensures Tables.Write(State(), created) == Tables.CreateDevice(old(State()), device, now)
    {
      ghost var before := State();
      if Tables.FirstIndex(devices, Tables.DeviceName, device.name) >= 0 {
        created := None;
      } else {
        deviceSeq := deviceSeq + 1;
        var row := NewDevice(deviceSeq, device, now);
        devices := devices + [row];
        created := Some(row);
        assert State() == before.(devices := before.devices + [row], deviceSeq := before.deviceSeq + 1);
      }
    }

    function GetSettings(): seq<SystemSetting>
      reads this
    {
      Tables.GetSettings(State())
    }

    function GetSetting(key: string): Option<SystemSetting>
      reads this
    {
      Tables.GetSetting(State(), key)
    }

    method UpdateSetting(key: string, value: string) returns (updated: Option<SystemSetting>)
      requires Valid()
      modifies this
      ensures Valid()
      ensures Tables.Write(State(), updated) == Tables.UpdateSetting(old(State()), key, value)
    {
      var i := Tables.FirstIndex(settings, Tables.SettingKey, key);
      settings := Tables.SetValue(settings, key, value);
      updated := if i < 0 then None else Some(settings[i]);
    }

    method CreateSetting(setting: InsertSystemSetting) returns (created: Option<SystemSetting>)
      requires Valid()
      modifies this
      ensures Valid()
      ensures Tables.Write(State(), created) == Tables.CreateSetting(old(State()), setting)
    {
      ghost var before := State();
      if Tables.FirstIndex(settings, Tables.SettingKey, setting.key) >= 0 {
        created := None;
      } else {
        settingSeq := settingSeq + 1;
        var row := NewSetting(settingSeq, setting);
        settings := settings + [row];
        created := Some(row);
        assert State() == before.(settings := before.settings + [row], settingSeq := before.settingSeq + 1);
      }
    }
  }
}
