/**
 * What DatabaseStorage (server/storage.ts) does to its three tables, as
 * functions on the value of the tables. Each table is a sequence in
 * insertion order; `logSeq`, `deviceSeq` and `settingSeq` are the last
 * values handed out by the tables' `serial` id sequences.
 */
module Tables {
  import opened Wrappers
  import opened Schema
  import Sorting

  datatype Db = Db(
    logs: seq<OccupancyLog>,
    devices: seq<DeviceState>,
    settings: seq<SystemSetting>,
    logSeq: nat,
    deviceSeq: nat,
    settingSeq: nat)

  /** A newly created database: empty tables, fresh id sequences. */
  const EmptyDb := Db([], [], [], 0, 0, 0)

  /** The tables after a write and the row that RETURNING gave back, if any. */
  datatype Write<T> = Write(db: Db, row: Option<T>)

  /** The columns the constraints are about. */
  function DeviceName(d: DeviceState): string { d.name }
  function SettingKey(s: SystemSetting): string { s.key }
  function LogId(l: OccupancyLog): nat { l.id }
  function DeviceId(d: DeviceState): nat { d.id }
  function SettingId(s: SystemSetting): nat { s.id }

  /** A `UNIQUE` column: no two rows share a key. */
  predicate UniqueBy<T>(rows: seq<T>, keyOf: T -> string)
  {
    forall i, j :: 0 <= i < |rows| && 0 <= j < |rows| && keyOf(rows[i]) == keyOf(rows[j]) ==> i == j
  }

  /** A `serial` column: ids handed out by the sequence, whose last value is `last`, in insertion order. */
  predicate SerialIds<T>(rows: seq<T>, idOf: T -> nat, last: nat)
  {
    && (forall i :: 0 <= i < |rows| ==> 1 <= idOf(rows[i]) <= last)
    && (forall i, j :: 0 <= i < j < |rows| ==> idOf(rows[i]) < idOf(rows[j]))
  }

  /** Rows rewritten in place, keeping each row's key and id, keep both constraints. */
  lemma KeysKept<T>(a: seq<T>, b: seq<T>, keyOf: T -> string, idOf: T -> nat, last: nat)
    requires |a| == |b|
    requires forall j :: 0 <= j < |a| ==> keyOf(b[j]) == keyOf(a[j]) && idOf(b[j]) == idOf(a[j])
    requires UniqueBy(a, keyOf) && SerialIds(a, idOf, last)
    ensures UniqueBy(b, keyOf) && SerialIds(b, idOf, last)
  {
  }

  /** The constraints of the schema: unique names and keys, ids from the sequences. */
  predicate Valid(db: Db)
  {
    && UniqueBy(db.devices, DeviceName)
    && UniqueBy(db.settings, SettingKey)
    && SerialIds(db.logs, LogId, db.logSeq)
    && SerialIds(db.devices, DeviceId, db.deviceSeq)
    && SerialIds(db.settings, SettingId, db.settingSeq)
  }

  lemma EmptyDbValid()
    ensures Valid(EmptyDb)
  {
  }

  // ---------------------------------------------------------------------
  // occupancy_logs

  /**
   * `logOccupancy`: insert one row with the next id and the current time. A
   * count outside the range of an `integer` column makes the insert fail and
   * nothing is written.
   */
  function LogOccupancy(db: Db, log: InsertOccupancyLog, now: int): (w: Write<OccupancyLog>)
    ensures IsInt4(log.occupancyCount) ==>
      && w.row == Some(OccupancyLog(db.logSeq + 1, log.occupancyCount, now))
      && w.db == db.(logs := db.logs + [w.row.value], logSeq := db.logSeq + 1)
    ensures !IsInt4(log.occupancyCount) ==> w == Write(db, None)
    ensures Valid(db) ==> Valid(w.db)
  {
    if IsInt4(log.occupancyCount) then
      var entry := NewLog(db.logSeq + 1, log, now);
      Write(db.(logs := db.logs + [entry], logSeq := db.logSeq + 1), Some(entry))
    else
      Write(db, None)
  }

  /**
   * An accepted log is one new entry at the end, with that count, the time
   * of the insert and an id above every earlier one; earlier entries stay.
   */
  lemma LogOccupancyAppends(db: Db, log: InsertOccupancyLog, now: int)
    requires Valid(db) && IsInt4(log.occupancyCount)
    ensures var w := LogOccupancy(db, log, now);
      && |w.db.logs| == |db.logs| + 1
      && w.db.logs[..|db.logs|] == db.logs
      && w.db.logs[|db.logs|].occupancyCount == log.occupancyCount
      && w.db.logs[|db.logs|].timestamp == now
      && (forall i :: 0 <= i < |db.logs| ==> db.logs[i].id < w.db.logs[|db.logs|].id)
  {
    var w := LogOccupancy(db, log, now);
    assert w.db.logs[..|db.logs|] == db.logs;
  }

  const DEFAULT_HISTORY_LIMIT := 100

  /** Newest first: `desc(occupancyLogs.timestamp)`. */
  predicate NewerOrSame(a: OccupancyLog, b: OccupancyLog)
  {
    a.timestamp >= b.timestamp
  }

  lemma NewerOrSameTotalPreorder()
    ensures Sorting.TotalPreorder(NewerOrSame)
  {
  }

  /**
   * `getOccupancyHistory(limit)`: at most `limit` entries, newest first; an
   * entry left out is never newer than one returned. Entries with the same
   * timestamp come in an order the source leaves to the database.
   */
  function GetOccupancyHistory(db: Db, limit: nat): (r: seq<OccupancyLog>)
    ensures |r| == if limit < |db.logs| then limit else |db.logs|
    ensures multiset(r) <= multiset(db.logs)
    ensures forall i, j :: 0 <= i < j < |r| ==> r[i].timestamp >= r[j].timestamp
    ensures forall x :: x in multiset(db.logs) - multiset(r) ==>
      forall i :: 0 <= i < |r| ==> r[i].timestamp >= x.timestamp
  {
    var sorted := Sorting.SortBy(db.logs, NewerOrSame);
    var k := if limit < |db.logs| then limit else |db.logs|;
    NewerOrSameTotalPreorder();
    Sorting.SortBySorted(db.logs, NewerOrSame);
    NewestPrefix(db.logs, sorted, k);
    sorted[..k]
  }

  /** `getOccupancyHistory()` with its default limit: at most 100 entries, and the whole log while it is no longer. */
  function DefaultHistory(db: Db): (r: seq<OccupancyLog>)
    ensures |r| <= DEFAULT_HISTORY_LIMIT
    ensures |db.logs| <= DEFAULT_HISTORY_LIMIT ==> multiset(r) == multiset(db.logs)
  {
    var r := GetOccupancyHistory(db, DEFAULT_HISTORY_LIMIT);
    if |db.logs| <= DEFAULT_HISTORY_LIMIT then SubMultisetSameSize(multiset(r), multiset(db.logs)); r else r
  }

  lemma SubMultisetSameSize<T>(small: multiset<T>, big: multiset<T>)
    requires small <= big && |small| == |big|
    ensures small == big
  {
    assert big == small + (big - small);
  }

  /** The first `k` entries of the log sorted newest first are the `k` newest. */
  lemma NewestPrefix(logs: seq<OccupancyLog>, sorted: seq<OccupancyLog>, k: nat)
    requires multiset(sorted) == multiset(logs) && k <= |sorted|
    requires Sorting.SortedBy(sorted, NewerOrSame)
    ensures multiset(sorted[..k]) <= multiset(logs)
    ensures forall i, j :: 0 <= i < j < k ==> sorted[..k][i].timestamp >= sorted[..k][j].timestamp
    ensures forall x :: x in multiset(logs) - multiset(sorted[..k]) ==>
      forall i :: 0 <= i < k ==> sorted[..k][i].timestamp >= x.timestamp
  {
    assert sorted == sorted[..k] + sorted[k..];
    assert multiset(sorted) == multiset(sorted[..k]) + multiset(sorted[k..]);
    forall i, j | 0 <= i < j < k
      ensures sorted[..k][i].timestamp >= sorted[..k][j].timestamp
    {
      assert NewerOrSame(sorted[i], sorted[j]);
    }
    forall x | x in multiset(logs) - multiset(sorted[..k])
      ensures forall i :: 0 <= i < k ==> sorted[..k][i].timestamp >= x.timestamp
    {
      Sorting.PrefixComesFirst(sorted, NewerOrSame, k, x);
    }
  }

  // ---------------------------------------------------------------------
  // device_states

  /** `ORDER BY name`. */
  predicate NameLe(a: DeviceState, b: DeviceState)
  {
    Sorting.LexLe(a.name, b.name)
  }

  lemma NameLeTotalPreorder()
    ensures Sorting.TotalPreorder(NameLe)
  {
    forall a: DeviceState, b: DeviceState ensures NameLe(a, b) || NameLe(b, a) {
      Sorting.LexLeTotal(a.name, b.name);
    }
    forall a: DeviceState, b: DeviceState, c: DeviceState | NameLe(a, b) && NameLe(b, c)
      ensures NameLe(a, c)
    {
      Sorting.LexLeTransitive(a.name, b.name, c.name);
    }
  }

  lemma {:induction false} TwiceFromCount<T>(s: seq<T>, v: T)
    requires multiset(s)[v] >= 2
    ensures exists i, j :: 0 <= i < j < |s| && s[i] == v && s[j] == v
    decreases |s|
  {
    assert s == [s[0]] + s[1..];
    if s[0] == v {
      assert v in multiset(s[1..]);
      var j :| 0 <= j < |s[1..]| && s[1..][j] == v;
      assert s[0] == v && s[j + 1] == v;
    } else {
      TwiceFromCount(s[1..], v);
      var i, j :| 0 <= i < j < |s[1..]| && s[1..][i] == v && s[1..][j] == v;
      assert s[i + 1] == v && s[j + 1] == v;
    }
  }

  lemma CountFromTwice<T>(s: seq<T>, i: int, j: int)
    requires 0 <= i < j < |s| && s[i] == s[j]
    ensures multiset(s)[s[i]] >= 2
  {
    assert s == s[..j] + [s[j]] + s[j + 1..];
    assert s[i] in s[..j];
  }

  /** A unique key stays unique under any reordering of the rows. */
  lemma UniqueByPermutation<T>(a: seq<T>, b: seq<T>, keyOf: T -> string)
    requires UniqueBy(a, keyOf) && multiset(a) == multiset(b)
    ensures UniqueBy(b, keyOf)
  {
    forall i, j | 0 <= i < |b| && 0 <= j < |b| && keyOf(b[i]) == keyOf(b[j]) ensures i == j {
      if i != j {
        var lo, hi := if i < j then i else j, if i < j then j else i;
        assert b[lo] in multiset(a) && b[hi] in multiset(a);
        var p :| 0 <= p < |a| && a[p] == b[lo];
        var q :| 0 <= q < |a| && a[q] == b[hi];
        assert p == q;
        CountFromTwice(b, lo, hi);
        TwiceFromCount(a, b[lo]);
      }
    }
  }

  /** `getDevices`: every device once, ordered by name. */
  function GetDevices(db: Db): (r: seq<DeviceState>)
    ensures multiset(r) == multiset(db.devices)
    ensures forall i, j :: 0 <= i < j < |r| ==> Sorting.LexLe(r[i].name, r[j].name)
    ensures Valid(db) ==> UniqueBy(r, DeviceName)
  {
    NameLeTotalPreorder();
    Sorting.SortBySorted(db.devices, NameLe);
    var r := Sorting.SortBy(db.devices, NameLe);
    if Valid(db) then UniqueByPermutation(db.devices, r, DeviceName); r else r
  }

  /**
    * Ordering by a unique name leaves no choice: any ordering of the devices
    * by name is the one `getDevices` returns.
    */
  lemma {:induction false} GetDevicesDetermined(db: Db, r: seq<DeviceState>)
    requires Valid(db)
    requires multiset(r) == multiset(db.devices)
    requires forall i, j :: 0 <= i < j < |r| ==> Sorting.LexLe(r[i].name, r[j].name)
    ensures r == GetDevices(db)
  {
    UniqueByPermutation(db.devices, r, DeviceName);
    SortedUniqueEqual(r, GetDevices(db));
  }

  lemma {:induction false} SortedUniqueEqual(a: seq<DeviceState>, b: seq<DeviceState>)
    requires UniqueBy(a, DeviceName) && multiset(a) == multiset(b)
    requires forall i, j :: 0 <= i < j < |a| ==> Sorting.LexLe(a[i].name, a[j].name)
    requires forall i, j :: 0 <= i < j < |b| ==> Sorting.LexLe(b[i].name, b[j].name)
    ensures a == b
    decreases |a|
  {
    assert |a| == |multiset(a)| == |multiset(b)| == |b|;
    if a != [] {
      SortedHeadsEqual(a, b);
      DropHead(a, b);
      SortedUniqueEqual(a[1..], b[1..]);
      assert a == [a[0]] + a[1..] && b == [b[0]] + b[1..];
    }
  }

  /** Both orderings start with the device whose name is least. */
  lemma SortedHeadsEqual(a: seq<DeviceState>, b: seq<DeviceState>)
    requires UniqueBy(a, DeviceName) && multiset(a) == multiset(b) && a != []
    requires forall i, j :: 0 <= i < j < |a| ==> Sorting.LexLe(a[i].name, a[j].name)
    requires forall i, j :: 0 <= i < j < |b| ==> Sorting.LexLe(b[i].name, b[j].name)
    ensures b != [] && a[0] == b[0]
  {
    assert a[0] in multiset(b);
    assert b[0] in multiset(a);
    var p :| 0 <= p < |a| && a[p] == b[0];
    var q :| 0 <= q < |b| && b[q] == a[0];
    assert Sorting.LexLe(a[0].name, b[0].name) by {
      if p == 0 { Sorting.LexLeTotal(a[0].name, a[0].name); }
    }
    assert Sorting.LexLe(b[0].name, a[0].name) by {
      if q == 0 { Sorting.LexLeTotal(b[0].name, b[0].name); }
    }
    Sorting.LexLeAntisymmetric(a[0].name, b[0].name);
    assert DeviceName(a[p]) == DeviceName(a[0]);
  }

  /** Removing the shared first row keeps the rest a unique permutation. */
  lemma DropHead(a: seq<DeviceState>, b: seq<DeviceState>)
    requires UniqueBy(a, DeviceName) && multiset(a) == multiset(b) && a != [] && b != [] && a[0] == b[0]
    ensures UniqueBy(a[1..], DeviceName) && multiset(a[1..]) == multiset(b[1..])
  {
    assert a == [a[0]] + a[1..] && b == [b[0]] + b[1..];
    assert multiset(a[1..]) == multiset(a) - multiset{a[0]};
    assert multiset(b[1..]) == multiset(b) - multiset{a[0]};
    forall i, j | 0 <= i < |a[1..]| && 0 <= j < |a[1..]| && DeviceName(a[1..][i]) == DeviceName(a[1..][j]) ensures i == j {
      assert a[1..][i] == a[i + 1] && a[1..][j] == a[j + 1];
    }
  }

  /** The position of the first row whose key is `key`, or -1: the row a `WHERE key = ...` lookup returns. */
  function FirstIndex<T>(rows: seq<T>, keyOf: T -> string, key: string): (i: int)
    ensures -1 <= i < |rows|
    ensures i >= 0 ==> keyOf(rows[i]) == key
    ensures forall j :: 0 <= j < |rows| && (i < 0 || j < i) ==> keyOf(rows[j]) != key
  {
    if rows == [] then -1
    else if keyOf(rows[0]) == key then 0
    else
      var i := FirstIndex(rows[1..], keyOf, key);
      assert forall j :: 1 <= j < |rows| ==> rows[j] == rows[1..][j - 1];
      if i < 0 then -1 else i + 1
  }

  /** Rewriting rows without touching their keys leaves every key's first row where it was. */
  lemma FirstIndexKept<T>(a: seq<T>, b: seq<T>, keyOf: T -> string, key: string)
    requires |a| == |b|
    requires forall j :: 0 <= j < |a| ==> keyOf(b[j]) == keyOf(a[j])
    ensures FirstIndex(b, keyOf, key) == FirstIndex(a, keyOf, key)
  {
    var i, k := FirstIndex(a, keyOf, key), FirstIndex(b, keyOf, key);
    if i >= 0 {
      assert keyOf(b[i]) == key;
    }
    if k >= 0 {
      assert keyOf(a[k]) == key;
    }
  }

  /** `getDevice(name)`: the device with that name, or nothing. */
  function GetDevice(db: Db, name: string): (r: Option<DeviceState>)
    ensures r.Some? <==> exists i :: 0 <= i < |db.devices| && db.devices[i].name == name
    ensures r.Some? ==> r.value in db.devices && r.value.name == name
    ensures Valid(db) && r.Some? ==>
      forall i :: 0 <= i < |db.devices| && db.devices[i].name == name ==> db.devices[i] == r.value
  {
    var i := FirstIndex(db.devices, DeviceName, name);
    if i < 0 then None else Some(db.devices[i])
  }

  /** Every device called `name` updated, the others as they were. */
  function UpdateNamed(ds: seq<DeviceState>, name: string, updates: DeviceUpdate, now: int): seq<DeviceState>
  {
    seq(|ds|, i requires 0 <= i < |ds| => if ds[i].name == name then ApplyUpdate(ds[i], updates, now) else ds[i])
  }

  /**
   * `updateDevice(name, updates)`: the device with that name gets the
   * supplied fields and a new `lastUpdated`; every other field and every
   * other device stays. No row comes back when there is no such device.
   */
  function UpdateDevice(db: Db, name: string, updates: DeviceUpdate, now: int): (w: Write<DeviceState>)
    ensures w.db == db.(devices := w.db.devices)
    ensures |w.db.devices| == |db.devices|
    ensures forall i :: 0 <= i < |db.devices| ==>
      w.db.devices[i] == if db.devices[i].name == name then ApplyUpdate(db.devices[i], updates, now) else db.devices[i]
    ensures GetDevice(db, name).None? ==> w.row.None?
    ensures GetDevice(db, name).Some? ==> w.row == Some(ApplyUpdate(GetDevice(db, name).value, updates, now))
    ensures Valid(db) ==> Valid(w.db)
  {
    var ds := UpdateNamed(db.devices, name, updates, now);
    var i := FirstIndex(db.devices, DeviceName, name);
    var w := Write(db.(devices := ds), if i < 0 then None else Some(ds[i]));
    assert Valid(db) ==> Valid(w.db) by {
      if Valid(db) {
        KeysKept(db.devices, ds, DeviceName, DeviceId, db.deviceSeq);
      }
    }
    w
  }

  /** After an update the store finds the updated device; other names find what they found before. */
  lemma UpdateDeviceLookups(db: Db, name: string, updates: DeviceUpdate, now: int, other: string)
    requires Valid(db) && other != name
    ensures var w := UpdateDevice(db, name, updates, now);
      && GetDevice(w.db, name) == w.row
      && GetDevice(w.db, other) == GetDevice(db, other)
  {
    var w := UpdateDevice(db, name, updates, now);
    var ds := w.db.devices;
    assert forall j :: 0 <= j < |ds| ==> DeviceName(ds[j]) == DeviceName(db.devices[j]);
    FirstIndexKept(db.devices, ds, DeviceName, name);
    FirstIndexKept(db.devices, ds, DeviceName, other);
    var k := FirstIndex(db.devices, DeviceName, other);
    if k >= 0 {
      assert ds[k] == db.devices[k];
    }
  }

  /**
   * `createDevice`: a new row with defaults filled in; a name that is
   * already taken violates the unique constraint and nothing is written.
   */
  function CreateDevice(db: Db, device: InsertDeviceState, now: int): (w: Write<DeviceState>)
    ensures GetDevice(db, device.name).Some? ==> w == Write(db, None)
    ensures GetDevice(db, device.name).None? ==>
      && w.row == Some(NewDevice(db.deviceSeq + 1, device, now))
      && w.db == db.(devices := db.devices + [w.row.value], deviceSeq := db.deviceSeq + 1)
    ensures Valid(db) ==> Valid(w.db)
  {
    if FirstIndex(db.devices, DeviceName, device.name) >= 0 then Write(db, None)
    else
      var d := NewDevice(db.deviceSeq + 1, device, now);
      Write(db.(devices := db.devices + [d], deviceSeq := db.deviceSeq + 1), Some(d))
  }

  // ---------------------------------------------------------------------
  // system_settings

  /** `getSettings`: every setting; the source asks for no particular order. */
  function GetSettings(db: Db): (r: seq<SystemSetting>)
    ensures multiset(r) == multiset(db.settings)
  {
    db.settings
  }

  /** `getSetting(key)`: the setting with that key, or nothing. */
  function GetSetting(db: Db, key: string): (r: Option<SystemSetting>)
    ensures r.Some? <==> exists i :: 0 <= i < |db.settings| && db.settings[i].key == key
    ensures r.Some? ==> r.value in db.settings && r.value.key == key
    ensures Valid(db) && r.Some? ==>
      forall i :: 0 <= i < |db.settings| && db.settings[i].key == key ==> db.settings[i] == r.value
  {
    var i := FirstIndex(db.settings, SettingKey, key);
    if i < 0 then None else Some(db.settings[i])
  }

  /** The settings with only the value of the one with key `key` replaced. */
  function SetValue(ss: seq<SystemSetting>, key: string, value: string): seq<SystemSetting>
  {
    seq(|ss|, i requires 0 <= i < |ss| => if ss[i].key == key then ss[i].(value := value) else ss[i])
  }

  /**
   * `updateSetting(key, value)`: only the `value` of the setting with that
   * key changes; no row comes back when the key is absent.
   */
  function UpdateSetting(db: Db, key: string, value: string): (w: Write<SystemSetting>)
    ensures w.db == db.(settings := w.db.settings)
    ensures |w.db.settings| == |db.settings|
    ensures forall i :: 0 <= i < |db.settings| ==>
      w.db.settings[i] == if db.settings[i].key == key then db.settings[i].(value := value) else db.settings[i]
    ensures GetSetting(db, key).None? ==> w.row.None?
    ensures GetSetting(db, key).Some? ==> w.row == Some(GetSetting(db, key).value.(value := value))
    ensures Valid(db) ==> Valid(w.db)
  {
    var ss := SetValue(db.settings, key, value);
    var i := FirstIndex(db.settings, SettingKey, key);
    var w := Write(db.(settings := ss), if i < 0 then None else Some(ss[i]));
    assert Valid(db) ==> Valid(w.db) by {
      if Valid(db) {
        KeysKept(db.settings, ss, SettingKey, SettingId, db.settingSeq);
      }
    }
    w
  }

  /** After an update the key finds the new value and its old description; other keys are untouched. */
  lemma UpdateSettingLookups(db: Db, key: string, value: string, other: string)
    requires Valid(db) && other != key
    ensures var w := UpdateSetting(db, key, value);
      && GetSetting(w.db, key) == w.row
      && (w.row.Some? ==> w.row.value.value == value && w.row.value.description == GetSetting(db, key).value.description)
      && GetSetting(w.db, other) == GetSetting(db, other)
  {
    var w := UpdateSetting(db, key, value);
    var ss := w.db.settings;
    assert forall j :: 0 <= j < |ss| ==> SettingKey(ss[j]) == SettingKey(db.settings[j]);
    FirstIndexKept(db.settings, ss, SettingKey, key);
    FirstIndexKept(db.settings, ss, SettingKey, other);
    var k := FirstIndex(db.settings, SettingKey, other);
    if k >= 0 {
      assert ss[k] == db.settings[k];
    }
  }

  /** `createSetting`: a new row; a key already present violates the unique constraint. */
  function CreateSetting(db: Db, setting: InsertSystemSetting): (w: Write<SystemSetting>)
    ensures GetSetting(db, setting.key).Some? ==> w == Write(db, None)
    ensures GetSetting(db, setting.key).None? ==>
      && w.row == Some(NewSetting(db.settingSeq + 1, setting))
      && w.db == db.(settings := db.settings + [w.row.value], settingSeq := db.settingSeq + 1)
    ensures Valid(db) ==> Valid(w.db)
  {
    if FirstIndex(db.settings, SettingKey, setting.key) >= 0 then Write(db, None)
    else
      var s := NewSetting(db.settingSeq + 1, setting);
      Write(db.(settings := db.settings + [s], settingSeq := db.settingSeq + 1), Some(s))
  }
}
