/**
 * server/routes.ts: the occupancy report with its light automation, the
 * device toggle, the setting update and the seeding of a database with no settings.
 * Each handler is a function from the state before the request to the
 * state after it and the response (the first half of this module), and a
 * method of Server that does the same steps on the store in place and is
 * proved to agree with that function (the class at the end). Time is the
 * parameter `now`, in milliseconds; one request is one atomic step.
 */
module Routes {
  import opened Wrappers
  import opened Schema
  import Js
  import Api
  import Tables
  import Storage

  const MAIN_LIGHT := "Main Light"
  const AC_UNIT := "AC Unit"
  const TIMEOUT_KEY := "timeout_seconds"
  const DEFAULT_TIMEOUT_SECONDS := "300"
  const SEED_TIMEOUT_SECONDS := "10"
  const SEED_TIMEOUT_DESCRIPTION := "Seconds of inactivity before turning lights off"
  const SEED_HISTORY_SIZE := 10

  const OCCUPANCY_LOGGED := "Occupancy logged"
  const INTERNAL_ERROR := "Internal server error"
  const DEVICE_NOT_FOUND := "Device not found"
  const INVALID_REQUEST := "Invalid request"
  const SETTING_NOT_FOUND := "Setting not found"

  /**
   * `parseInt(timeoutSetting?.value || "300") * 1000`: an absent setting
   * and an empty value both fall back to 300 seconds.
   */
  function TimeoutMs(setting: Option<SystemSetting>): Js.Number
  {
    var raw := if setting.Some? && setting.value.value != "" then setting.value.value else DEFAULT_TIMEOUT_SECONDS;
    Js.Times(Js.ParseInt(raw), 1000)
  }

  lemma {:induction false} TimeoutDefault(setting: Option<SystemSetting>)
    requires setting.None? || setting.value.value == ""
    ensures TimeoutMs(setting) == Js.Num(300_000)
  {
    assert Js.NumberToString(300) == DEFAULT_TIMEOUT_SECONDS;
    Js.ParseIntOfNumberToString(300);
  }

  /** A value written as `String(n)` is `n` seconds. */
  lemma TimeoutOfSeconds(setting: Option<SystemSetting>, n: int)
    requires setting.Some? && setting.value.value == Js.NumberToString(n)
    ensures TimeoutMs(setting) == Js.Num(n * 1000)
  {
    Js.ParseIntOfNumberToString(n);
  }

  /** A value that does not start with digits gives NaN. */
  lemma TimeoutNaN(setting: Option<SystemSetting>)
    requires setting.Some? && setting.value.value != ""
    requires var s := Js.TrimStart(setting.value.value);
      var unsigned := if s != [] && (s[0] == '-' || s[0] == '+') then s[1..] else s;
      unsigned == [] || Js.DigitValue(unsigned[0]) >= 10
    ensures TimeoutMs(setting) == Js.NaN
  {
    Js.ParseIntNaN(setting.value.value);
  }

  // ---------------------------------------------------------------------
  // POST /api/occupancy

  /** The store and the time of the last report with people in it. */
  datatype ServerState = ServerState(db: Tables.Db, lastMotionTime: int)

  datatype OccupancyResponse =
    | Logged(message: string, automationTriggered: bool, newLightState: Option<bool>) // 200
    | BadRequest(issue: Api.Issue) // 400, with the first validation message
    | InternalError(message: string) // 500

  datatype OccupancyOutcome = OccupancyOutcome(state: ServerState, response: OccupancyResponse)

  /** The automation, once the report is logged: it only ever touches the main light. */
  function Automate(s: ServerState, count: int, now: int): OccupancyOutcome
  {
    var light := Tables.GetDevice(s.db, MAIN_LIGHT);
    var timeoutMs := TimeoutMs(Tables.GetSetting(s.db, TIMEOUT_KEY));
    if light.None? || !IsAutomatic(light.value) then
      OccupancyOutcome(s, Logged(OCCUPANCY_LOGGED, false, None))
    else if count > 0 then
      if light.value.isOn then
        OccupancyOutcome(s.(lastMotionTime := now), Logged(OCCUPANCY_LOGGED, false, None))
      else
        var on := Tables.UpdateDevice(s.db, MAIN_LIGHT, DeviceUpdate(Some(true), None), now);
        OccupancyOutcome(ServerState(on.db, now), Logged(OCCUPANCY_LOGGED, true, Some(true)))
    else if light.value.isOn && Js.GreaterThan(now - s.lastMotionTime, timeoutMs) then
      var off := Tables.UpdateDevice(s.db, MAIN_LIGHT, DeviceUpdate(Some(false), None), now);
      OccupancyOutcome(s.(db := off.db), Logged(OCCUPANCY_LOGGED, true, Some(false)))
    else
      OccupancyOutcome(s, Logged(OCCUPANCY_LOGGED, false, None))
  }

  /** One report: validate, log, then automate. */
  function OccupancyStep(s: ServerState, body: Api.Body, now: int): OccupancyOutcome
  {
    match Api.ParseOccupancy(body)
    case Err(issue) => OccupancyOutcome(s, BadRequest(issue))
    case Ok(count) =>
      var logged := Tables.LogOccupancy(s.db, InsertOccupancyLog(count), now);
      if logged.row.None? then OccupancyOutcome(s, InternalError(INTERNAL_ERROR))
      else Automate(s.(db := logged.db), count, now)
  }

  lemma OccupancyStepValid(s: ServerState, body: Api.Body, now: int)
    requires Tables.Valid(s.db)
    ensures Tables.Valid(OccupancyStep(s, body, now).state.db)
  {
  }

  /** A rejected body (a negative count among them) is answered with 400 and nothing is logged or changed. */
  lemma RejectedReportChangesNothing(s: ServerState, body: Api.Body, now: int)
    requires Api.ParseOccupancy(body).Err?
    ensures OccupancyStep(s, body, now) == OccupancyOutcome(s, BadRequest(Api.ParseOccupancy(body).error))
  {
  }

  lemma NegativeCountRejected(s: ServerState, n: int, now: int)
    requires n < 0
    ensures OccupancyStep(s, Api.OccupancyBody(n), now) == OccupancyOutcome(s, BadRequest(Api.TooSmall("count")))
  {
    Api.ParseOccupancyBody(n);
  }

  /** A count too large for the `integer` column fails the insert: 500 and nothing changes. */
  lemma OversizedCountFails(s: ServerState, body: Api.Body, now: int)
    requires Api.ParseOccupancy(body).Ok? && !IsInt4(Api.ParseOccupancy(body).value)
    ensures OccupancyStep(s, body, now) == OccupancyOutcome(s, InternalError(INTERNAL_ERROR))
  {
  }

  /**
   * Every accepted report appends exactly one log entry with its count and
   * the time, whatever the light's mode, and leaves the settings alone.
   */
  lemma AcceptedReportLogged(s: ServerState, body: Api.Body, now: int)
    requires Api.ParseOccupancy(body).Ok? && IsInt4(Api.ParseOccupancy(body).value)
    ensures var out := OccupancyStep(s, body, now);
      && out.state.db.logs == s.db.logs + [OccupancyLog(s.db.logSeq + 1, Api.ParseOccupancy(body).value, now)]
      && out.state.db.settings == s.db.settings
      && out.response.Logged?
  {
  }

  /** Automation changes no device but the main light. */
  lemma OtherDevicesUntouched(s: ServerState, body: Api.Body, now: int, name: string)
    requires Tables.Valid(s.db) && name != MAIN_LIGHT
    ensures Tables.GetDevice(OccupancyStep(s, body, now).state.db, name) == Tables.GetDevice(s.db, name)
  {
    match Api.ParseOccupancy(body)
    case Err(_) =>
    case Ok(count) =>
      var logged := Tables.LogOccupancy(s.db, InsertOccupancyLog(count), now);
      if logged.row.Some? {
        assert logged.db.devices == s.db.devices;
        AutomateOthers(s.(db := logged.db), count, now, name);
      }
  }

  lemma AutomateOthers(s: ServerState, count: int, now: int, name: string)
    requires Tables.Valid(s.db) && name != MAIN_LIGHT
    ensures Tables.GetDevice(Automate(s, count, now).state.db, name) == Tables.GetDevice(s.db, name)
  {
    var light := Tables.GetDevice(s.db, MAIN_LIGHT);
    if light.Some? && IsAutomatic(light.value) {
      if count > 0 && !light.value.isOn {
        Tables.UpdateDeviceLookups(s.db, MAIN_LIGHT, DeviceUpdate(Some(true), None), now, name);
      } else if count <= 0 && light.value.isOn {
        Tables.UpdateDeviceLookups(s.db, MAIN_LIGHT, DeviceUpdate(Some(false), None), now, name);
      }
    }
  }

  /** Mode is not `'auto'` (or there is no main light): only the log changes. */
  predicate NotAutomated(db: Tables.Db)
  {
    Tables.GetDevice(db, MAIN_LIGHT).None? || !IsAutomatic(Tables.GetDevice(db, MAIN_LIGHT).value)
  }

  /**
   * Without an automatic main light a report changes no device, does not
   * refresh the motion time, and reports no automation.
   */
  lemma NotAutomatedReport(s: ServerState, body: Api.Body, now: int)
    requires NotAutomated(s.db)
    ensures var out := OccupancyStep(s, body, now);
      && out.state.db.devices == s.db.devices
      && out.state.lastMotionTime == s.lastMotionTime
      && (out.response.Logged? ==> !out.response.automationTriggered && out.response.newLightState.None?)
      && NotAutomated(out.state.db)
  {
  }

  /** The light of an automatic main light, before a step. */
  predicate AutoLight(db: Tables.Db, wasOn: bool)
  {
    Tables.GetDevice(db, MAIN_LIGHT).Some?
    && IsAutomatic(Tables.GetDevice(db, MAIN_LIGHT).value)
    && Tables.GetDevice(db, MAIN_LIGHT).value.isOn == wasOn
  }

  /**
   * People seen in auto mode: the motion time becomes `now`, the light is on
   * afterwards, and the automation reports a switch to on exactly when the
   * light was off.
   */
  lemma MotionTurnsLightOn(s: ServerState, count: int, now: int, wasOn: bool)
    requires Tables.Valid(s.db) && AutoLight(s.db, wasOn)
    requires 0 < count <= INT4_MAX
    ensures var out := OccupancyStep(s, Api.OccupancyBody(count), now);
      && out.state.lastMotionTime == now
      && Tables.GetDevice(out.state.db, MAIN_LIGHT).Some?
      && Tables.GetDevice(out.state.db, MAIN_LIGHT).value.isOn
      && IsAutomatic(Tables.GetDevice(out.state.db, MAIN_LIGHT).value)
      && out.response == Logged(OCCUPANCY_LOGGED, !wasOn, if wasOn then None else Some(true))
  {
    Api.ParseOccupancyBody(count);
    var logged := Tables.LogOccupancy(s.db, InsertOccupancyLog(count), now);
    assert Tables.GetDevice(logged.db, MAIN_LIGHT) == Tables.GetDevice(s.db, MAIN_LIGHT);
    Tables.UpdateDeviceLookups(logged.db, MAIN_LIGHT, DeviceUpdate(Some(true), None), now, AC_UNIT);
  }

  /** Elapsed time since the last motion strictly beyond the configured timeout. */
  predicate TimedOut(db: Tables.Db, lastMotionTime: int, now: int)
  {
    Js.GreaterThan(now - lastMotionTime, TimeoutMs(Tables.GetSetting(db, TIMEOUT_KEY)))
  }

  /**
   * Nobody seen in auto mode: the light goes off, and the automation says so,
   * exactly when it was on and the timeout has strictly passed; the motion
   * time is left alone.
   */
  lemma QuietRoomTimesOut(s: ServerState, now: int, wasOn: bool)
    requires Tables.Valid(s.db) && AutoLight(s.db, wasOn)
    ensures var out := OccupancyStep(s, Api.OccupancyBody(0), now);
      var off := wasOn && TimedOut(s.db, s.lastMotionTime, now);
      && out.state.lastMotionTime == s.lastMotionTime
      && AutoLight(out.state.db, wasOn && !off)
      && out.response == Logged(OCCUPANCY_LOGGED, off, if off then Some(false) else None)
  {
    Api.ParseOccupancyBody(0);
    var logged := Tables.LogOccupancy(s.db, InsertOccupancyLog(0), now);
    assert Tables.GetDevice(logged.db, MAIN_LIGHT) == Tables.GetDevice(s.db, MAIN_LIGHT);
    assert Tables.GetSetting(logged.db, TIMEOUT_KEY) == Tables.GetSetting(s.db, TIMEOUT_KEY);
    var s1 := s.(db := logged.db);
    assert OccupancyStep(s, Api.OccupancyBody(0), now) == Automate(s1, 0, now);
    if wasOn && TimedOut(s.db, s.lastMotionTime, now) {
      Tables.UpdateDeviceLookups(logged.db, MAIN_LIGHT, DeviceUpdate(Some(false), None), now, AC_UNIT);
    }
  }

  /** Elapsed time equal to the timeout is not enough. */
  lemma ElapsedEqualToTimeoutKeepsLightOn(s: ServerState, now: int)
    requires Tables.Valid(s.db) && AutoLight(s.db, true)
    requires TimeoutMs(Tables.GetSetting(s.db, TIMEOUT_KEY)) == Js.Num(now - s.lastMotionTime)
    ensures OccupancyStep(s, Api.OccupancyBody(0), now).response == Logged(OCCUPANCY_LOGGED, false, None)
  {
    QuietRoomTimesOut(s, now, true);
  }

  /** When the timeout is NaN a quiet room never turns the light off. */
  lemma NaNTimeoutNeverTurnsOff(s: ServerState, now: int, wasOn: bool)
    requires Tables.Valid(s.db) && AutoLight(s.db, wasOn)
    requires TimeoutMs(Tables.GetSetting(s.db, TIMEOUT_KEY)) == Js.NaN
    ensures AutoLight(OccupancyStep(s, Api.OccupancyBody(0), now).state.db, wasOn)
  {
    QuietRoomTimesOut(s, now, wasOn);
  }

  /** After a quiet report has turned the light off, the next quiet report triggers nothing. */
  lemma SecondQuietReportTriggersNothing(s: ServerState, now: int, later: int)
    requires Tables.Valid(s.db) && AutoLight(s.db, true) && TimedOut(s.db, s.lastMotionTime, now)
    ensures var first := OccupancyStep(s, Api.OccupancyBody(0), now);
      var second := OccupancyStep(first.state, Api.OccupancyBody(0), later);
      && first.response == Logged(OCCUPANCY_LOGGED, true, Some(false))
      && second.response == Logged(OCCUPANCY_LOGGED, false, None)
  {
    QuietRoomTimesOut(s, now, true);
    var first := OccupancyStep(s, Api.OccupancyBody(0), now);
    OccupancyStepValid(s, Api.OccupancyBody(0), now);
    QuietRoomTimesOut(first.state, later, false);
  }

  /**
   * The worked example: a timeout of 10 seconds, the light on and the last
   * motion at `t`; a quiet report 9 seconds later changes nothing, one 11
   * seconds later turns the light off.
   */
  lemma TenSecondTimeoutExample(s: ServerState, t: int)
    requires Tables.Valid(s.db) && AutoLight(s.db, true) && s.lastMotionTime == t
    requires Tables.GetSetting(s.db, TIMEOUT_KEY).Some?
    requires Tables.GetSetting(s.db, TIMEOUT_KEY).value.value == SEED_TIMEOUT_SECONDS
    ensures OccupancyStep(s, Api.OccupancyBody(0), t + 9_000).response == Logged(OCCUPANCY_LOGGED, false, None)
    ensures var after := OccupancyStep(s, Api.OccupancyBody(0), t + 9_000).state;
      OccupancyStep(after, Api.OccupancyBody(0), t + 11_000).response == Logged(OCCUPANCY_LOGGED, true, Some(false))
  {
    assert Js.NumberToString(10) == SEED_TIMEOUT_SECONDS;
    TimeoutOfSeconds(Tables.GetSetting(s.db, TIMEOUT_KEY), 10);
    QuietRoomTimesOut(s, t + 9_000, true);
    QuietReportKeepsTimeout(s, t + 9_000);
    QuietRoomTimesOut(OccupancyStep(s, Api.OccupancyBody(0), t + 9_000).state, t + 11_000, true);
  }

  /** A sequence of reports, each with its body and its arrival time. */
  datatype Report = Report(body: Api.Body, now: int)

  function RunReports(s: ServerState, reports: seq<Report>): ServerState
    decreases |reports|
  {
    if reports == [] then s
    else RunReports(OccupancyStep(s, reports[0].body, reports[0].now).state, reports[1..])
  }

  /** With the light already off in auto mode, a quiet report only logs: nothing changes and nothing is triggered. */
  lemma QuietReportWhileOff(s: ServerState, now: int)
    requires Tables.Valid(s.db) && AutoLight(s.db, false)
    ensures var out := OccupancyStep(s, Api.OccupancyBody(0), now);
      && Tables.Valid(out.state.db)
      && out.state.db.devices == s.db.devices
      && out.state.lastMotionTime == s.lastMotionTime
      && out.response == Logged(OCCUPANCY_LOGGED, false, None)
  {
    Api.ParseOccupancyBody(0);
    var logged := Tables.LogOccupancy(s.db, InsertOccupancyLog(0), now);
    assert Tables.GetDevice(logged.db, MAIN_LIGHT) == Tables.GetDevice(s.db, MAIN_LIGHT);
  }

  /**
   * Once the light is off in auto mode, no run of quiet reports changes a
   * device or the motion time, so every later quiet report still finds it
   * off and triggers nothing.
   */
  lemma {:induction false} QuietRunWhileOff(s: ServerState, reports: seq<Report>)
    requires Tables.Valid(s.db) && AutoLight(s.db, false)
    requires forall k :: 0 <= k < |reports| ==> reports[k].body == Api.OccupancyBody(0)
    ensures Tables.Valid(RunReports(s, reports).db) && AutoLight(RunReports(s, reports).db, false)
    ensures RunReports(s, reports).db.devices == s.db.devices
    ensures RunReports(s, reports).lastMotionTime == s.lastMotionTime
    decreases |reports|
  {
    if reports != [] {
      QuietReportWhileOff(s, reports[0].now);
      var next := OccupancyStep(s, reports[0].body, reports[0].now).state;
      assert Tables.GetDevice(next.db, MAIN_LIGHT) == Tables.GetDevice(s.db, MAIN_LIGHT);
      assert forall k :: 0 <= k < |reports[1..]| ==> reports[1..][k] == reports[k + 1];
      QuietRunWhileOff(next, reports[1..]);
    }
  }

  /** In a run of quiet reports after an auto-off, every report is answered without a trigger. */
  lemma QuietRunTriggersNothing(s: ServerState, reports: seq<Report>, k: nat)
    requires Tables.Valid(s.db) && AutoLight(s.db, false)
    requires forall j :: 0 <= j < |reports| ==> reports[j].body == Api.OccupancyBody(0)
    requires k < |reports|
    ensures OccupancyStep(RunReports(s, reports[..k]), reports[k].body, reports[k].now).response == Logged(OCCUPANCY_LOGGED, false, None)
  {
    var before := reports[..k];
    assert forall j :: 0 <= j < |before| ==> before[j] == reports[j];
    QuietRunWhileOff(s, before);
    QuietReportWhileOff(RunReports(s, before), reports[k].now);
  }

  /** A valid store whose automatic main light is `wasOn` and whose timeout setting reads as `NaN`. */
  predicate NaNTimeoutLight(s: ServerState, wasOn: bool)
  {
    Tables.Valid(s.db) && AutoLight(s.db, wasOn) && TimeoutMs(Tables.GetSetting(s.db, TIMEOUT_KEY)) == Js.NaN
  }

  /** With a NaN timeout, no run of empty-room reports changes the automatic main light. */
  lemma {:induction false} NaNTimeoutRun(s: ServerState, reports: seq<Report>, wasOn: bool)
    requires NaNTimeoutLight(s, wasOn)
    requires forall k :: 0 <= k < |reports| ==> reports[k].body == Api.OccupancyBody(0)
    ensures NaNTimeoutLight(RunReports(s, reports), wasOn)
    decreases |reports|
  {
    if reports != [] {
      var next := NaNTimeoutStep(s, reports[0], wasOn);
      assert forall k :: 0 <= k < |reports[1..]| ==> reports[1..][k] == reports[k + 1];
      NaNTimeoutRun(next, reports[1..], wasOn);
    }
  }

  /** One empty-room report with a NaN timeout keeps the light, the store's validity and the timeout. */
  lemma NaNTimeoutStep(s: ServerState, report: Report, wasOn: bool) returns (next: ServerState)
    requires NaNTimeoutLight(s, wasOn)
    requires report.body == Api.OccupancyBody(0)
    ensures next == OccupancyStep(s, report.body, report.now).state
    ensures NaNTimeoutLight(next, wasOn)
  {
    NaNTimeoutNeverTurnsOff(s, report.now, wasOn);
    QuietReportKeepsTimeout(s, report.now);
    next := OccupancyStep(s, report.body, report.now).state;
  }

  /** An empty-room report keeps the store valid and the timeout setting as it was. */
  lemma QuietReportKeepsTimeout(s: ServerState, now: int)
    requires Tables.Valid(s.db)
    ensures var next := OccupancyStep(s, Api.OccupancyBody(0), now).state;
      && Tables.Valid(next.db)
      && Tables.GetSetting(next.db, TIMEOUT_KEY) == Tables.GetSetting(s.db, TIMEOUT_KEY)
  {
    OccupancyStepValid(s, Api.OccupancyBody(0), now);
    Api.ParseOccupancyBody(0);
    AcceptedReportLogged(s, Api.OccupancyBody(0), now);
  }

  /** A main light that is not automatic stays exactly as it is through any run of reports. */
  lemma {:induction false} NotAutomatedRun(s: ServerState, reports: seq<Report>)
    requires NotAutomated(s.db)
    ensures RunReports(s, reports).db.devices == s.db.devices
    ensures RunReports(s, reports).lastMotionTime == s.lastMotionTime
    decreases |reports|
  {
    if reports != [] {
      NotAutomatedReport(s, reports[0].body, reports[0].now);
      NotAutomatedRun(OccupancyStep(s, reports[0].body, reports[0].now).state, reports[1..]);
    }
  }

  /** Through any run of reports the store stays valid and no device but the main light changes. */
  lemma {:induction false} OtherDevicesUntouchedRun(s: ServerState, reports: seq<Report>, name: string)
    requires Tables.Valid(s.db) && name != MAIN_LIGHT
    ensures Tables.Valid(RunReports(s, reports).db)
    ensures Tables.GetDevice(RunReports(s, reports).db, name) == Tables.GetDevice(s.db, name)
    decreases |reports|
  {
    if reports != [] {
      OccupancyStepValid(s, reports[0].body, reports[0].now);
      OtherDevicesUntouched(s, reports[0].body, reports[0].now, name);
      OtherDevicesUntouchedRun(OccupancyStep(s, reports[0].body, reports[0].now).state, reports[1..], name);
    }
  }

  // ---------------------------------------------------------------------
  // POST /api/devices/:name/toggle

  /**
   * Express's match of a request path against the toggle route: the path
   * must be the route's literal parts around one non-empty segment with no
   * `/` in it, which becomes `req.params.name`.
   */
  function ToggleRouteParam(path: string): (r: Option<string>)
    ensures r.Some? ==> r.value != "" && '/' !in r.value && path == Api.TOGGLE_PREFIX + r.value + Api.TOGGLE_SUFFIX
  {
    var p, q := |Api.TOGGLE_PREFIX|, |Api.TOGGLE_SUFFIX|;
    if |path| > p + q && path[..p] == Api.TOGGLE_PREFIX && path[|path| - q..] == Api.TOGGLE_SUFFIX && '/' !in path[p..|path| - q]
    then Some(path[p..|path| - q]) else None
  }

  /** A path built around a segment binds exactly that segment, when it is one. */
  lemma ToggleRouteParamOf(name: string)
    ensures ToggleRouteParam(Api.TOGGLE_PREFIX + name + Api.TOGGLE_SUFFIX) == if name != "" && '/' !in name then Some(name) else None
  {
    var path := Api.TOGGLE_PREFIX + name + Api.TOGGLE_SUFFIX;
    var p, q := |Api.TOGGLE_PREFIX|, |Api.TOGGLE_SUFFIX|;
    assert path[..p] == Api.TOGGLE_PREFIX;
    assert path[|path| - q..] == Api.TOGGLE_SUFFIX;
    assert path[p..|path| - q] == name;
  }

  /** The route's own path, taken as a request path, binds the placeholder `:name`. */
  lemma ToggleRouteOfItsPath()
    ensures ToggleRouteParam(Api.DEVICE_TOGGLE_PATH) == Some(":name")
  {
    assert Api.DEVICE_TOGGLE_PATH == Api.TOGGLE_PREFIX + ":name" + Api.TOGGLE_SUFFIX;
    ToggleRouteParamOf(":name");
  }

  datatype ToggleResponse =
    | Toggled(device: Option<DeviceState>) // 200, the updated row
    | DeviceNotFound(message: string) // 404
    | InvalidRequest(message: string) // 400

  datatype ToggleOutcome = ToggleOutcome(db: Tables.Db, response: ToggleResponse)

  function ToggleStep(db: Tables.Db, name: string, body: Api.Body, now: int): ToggleOutcome
  {
    match Api.ParseToggle(body)
    case Err(_) => ToggleOutcome(db, InvalidRequest(INVALID_REQUEST))
    case Ok(input) =>
      if Tables.GetDevice(db, name).None? then ToggleOutcome(db, DeviceNotFound(DEVICE_NOT_FOUND))
      else
        var w := Tables.UpdateDevice(db, name, DeviceUpdate(Some(input.isOn), input.mode), now);
        ToggleOutcome(w.db, Toggled(w.row))
  }

  /**
   * The toggle: a bad body is 400 and an unknown name 404, both with no
   * change; otherwise the device gets the requested `isOn`, and the
   * requested mode only when one was sent, and comes back in the response.
   */
  lemma ToggleEffect(db: Tables.Db, name: string, body: Api.Body, now: int)
    requires Tables.Valid(db)
    ensures var out := ToggleStep(db, name, body, now);
      && Tables.Valid(out.db)
      && (Api.ParseToggle(body).Err? ==> out == ToggleOutcome(db, InvalidRequest(INVALID_REQUEST)))
      && (Api.ParseToggle(body).Ok? && Tables.GetDevice(db, name).None? ==> out == ToggleOutcome(db, DeviceNotFound(DEVICE_NOT_FOUND)))
      && (Api.ParseToggle(body).Ok? && Tables.GetDevice(db, name).Some? ==>
        var input, d := Api.ParseToggle(body).value, Tables.GetDevice(db, name).value;
        var d' := d.(isOn := input.isOn, mode := input.mode.GetOr(d.mode), lastUpdated := now);
        && out.response == Toggled(Some(d'))
        && Tables.GetDevice(out.db, name) == Some(d'))
  {
    if Api.ParseToggle(body).Ok? && Tables.GetDevice(db, name).Some? {
      var input := Api.ParseToggle(body).value;
      Tables.UpdateDeviceLookups(db, name, DeviceUpdate(Some(input.isOn), input.mode), now, name + "'");
    }
  }

  /** A toggle leaves every other device as it was. */
  lemma ToggleOthersUntouched(db: Tables.Db, name: string, body: Api.Body, now: int, other: string)
    requires Tables.Valid(db) && other != name
    ensures Tables.GetDevice(ToggleStep(db, name, body, now).db, other) == Tables.GetDevice(db, other)
  {
    if Api.ParseToggle(body).Ok? && Tables.GetDevice(db, name).Some? {
      var input := Api.ParseToggle(body).value;
      Tables.UpdateDeviceLookups(db, name, DeviceUpdate(Some(input.isOn), input.mode), now, other);
    }
  }

  // ---------------------------------------------------------------------
  // PUT /api/settings/:key

  datatype SettingResponse =
    | SettingUpdated(setting: SystemSetting) // 200
    | SettingNotFound(message: string) // 404
    | Unhandled(issue: Api.Issue) // the parse throws outside any try

  datatype SettingOutcome = SettingOutcome(db: Tables.Db, response: SettingResponse)

  function UpdateSettingStep(db: Tables.Db, key: string, body: Api.Body): SettingOutcome
  {
    match Api.ParseSettingUpdate(body)
    case Err(issue) => SettingOutcome(db, Unhandled(issue))
    case Ok(value) =>
      var w := Tables.UpdateSetting(db, key, value);
      if w.row.None? then SettingOutcome(w.db, SettingNotFound(SETTING_NOT_FOUND))
      else SettingOutcome(w.db, SettingUpdated(w.row.value))
  }

  /** An absent key is 404 and changes nothing; otherwise only that setting's value changes. */
  lemma UpdateSettingEffect(db: Tables.Db, key: string, value: string)
    requires Tables.Valid(db)
    ensures var out := UpdateSettingStep(db, key, Api.SettingBody(value));
      && Tables.Valid(out.db)
      && (Tables.GetSetting(db, key).None? ==> out == SettingOutcome(db, SettingNotFound(SETTING_NOT_FOUND)))
      && (Tables.GetSetting(db, key).Some? ==>
        && out.response == SettingUpdated(Tables.GetSetting(db, key).value.(value := value))
        && Tables.GetSetting(out.db, key) == Some(Tables.GetSetting(db, key).value.(value := value)))
  {
    Api.ParseSettingBody(value);
    var w := Tables.UpdateSetting(db, key, value);
    Tables.UpdateSettingLookups(db, key, value, key + "'");
    if Tables.GetSetting(db, key).None? {
      assert w.db.settings == db.settings;
    }
  }

  // ---------------------------------------------------------------------
  // seedDatabase

  /** The logs the seeding loop writes, one per count, in order. */
  function LogAll(db: Tables.Db, counts: seq<int>, now: int): Tables.Db
    decreases |counts|
  {
    if counts == [] then db
    else Tables.LogOccupancy(LogAll(db, counts[..|counts| - 1], now), InsertOccupancyLog(counts[|counts| - 1]), now).db
  }

  /** Counts within the column's range are appended in order; devices and settings stay. */
  lemma {:induction false} LogAllAppends(db: Tables.Db, counts: seq<int>, now: int)
    requires forall i :: 0 <= i < |counts| ==> IsInt4(counts[i])
    ensures var r := LogAll(db, counts, now);
      && |r.logs| == |db.logs| + |counts|
      && r.logs[..|db.logs|] == db.logs
      && (forall i :: 0 <= i < |counts| ==> r.logs[|db.logs| + i].occupancyCount == counts[i])
      && r.devices == db.devices && r.settings == db.settings
      && (Tables.Valid(db) ==> Tables.Valid(r))
    decreases |counts|
  {
    if counts != [] {
      var init := counts[..|counts| - 1];
      LogAllAppends(db, init, now);
      var prev := LogAll(db, init, now);
      assert forall i :: 0 <= i < |init| ==> init[i] == counts[i];
      assert prev.logs[..|db.logs|] == db.logs;
    }
  }

  /** One more count logs one more entry, on top of the ones before it. */
  lemma LogAllStep(db: Tables.Db, counts: seq<int>, i: nat, now: int)
    requires i < |counts|
    ensures LogAll(db, counts[..i + 1], now) == Tables.LogOccupancy(LogAll(db, counts[..i], now), InsertOccupancyLog(counts[i]), now).db
  {
    assert counts[..i + 1][..i] == counts[..i];
  }

  datatype SeedOutcome = SeedOutcome(db: Tables.Db, completed: bool)

  /** The random counts of the seeded history: ten draws of `Math.floor(Math.random() * 3)`. */
  predicate SeedDraws(draws: seq<int>)
  {
    |draws| == SEED_HISTORY_SIZE && forall i :: 0 <= i < |draws| ==> 0 <= draws[i] < 3
  }

  /**
   * Seeding happens only when there is no setting at all. A device name
   * that is already taken makes its insert throw, which ends the seeding
   * (`completed` is false) with what was written so far.
   */
  function Seed(db: Tables.Db, now: int, draws: seq<int>): SeedOutcome
    requires SeedDraws(draws)
  {
    if |Tables.GetSettings(db)| != 0 then SeedOutcome(db, true)
    else
      var setting := Tables.CreateSetting(db, InsertSystemSetting(TIMEOUT_KEY, SEED_TIMEOUT_SECONDS, Some(SEED_TIMEOUT_DESCRIPTION)));
      var light := Tables.CreateDevice(setting.db, InsertDeviceState(MAIN_LIGHT, Some(false), Some(AUTO)), now);
      if light.row.None? then SeedOutcome(light.db, false)
      else
        var ac := Tables.CreateDevice(light.db, InsertDeviceState(AC_UNIT, Some(false), Some(MANUAL)), now);
        if ac.row.None? then SeedOutcome(ac.db, false)
        else SeedOutcome(LogAll(ac.db, draws, now), true)
  }

  lemma SeedSkipsConfiguredDatabase(db: Tables.Db, now: int, draws: seq<int>)
    requires SeedDraws(draws) && |db.settings| > 0
    ensures Seed(db, now, draws) == SeedOutcome(db, true)
  {
  }

  /**
   * Seeding a database with no setting and neither seeded device name taken
   * writes `timeout_seconds = "10"`, the main light off in auto mode and the
   * air conditioner off in manual mode, each with the next id, and appends ten
   * log entries with the drawn counts; the earlier rows stay as they were.
   */
  lemma SeedFreshDatabase(db: Tables.Db, now: int, draws: seq<int>) returns (out: Tables.Db)
    requires SeedDraws(draws) && Tables.Valid(db) && db.settings == []
    requires Tables.GetDevice(db, MAIN_LIGHT).None? && Tables.GetDevice(db, AC_UNIT).None?
    ensures Seed(db, now, draws) == SeedOutcome(out, true)
    ensures Tables.Valid(out)
    ensures out.settings == [SeededTimeout(db.settingSeq + 1)]
    ensures out.devices == db.devices + [DeviceState(db.deviceSeq + 1, MAIN_LIGHT, false, now, AUTO), DeviceState(db.deviceSeq + 2, AC_UNIT, false, now, MANUAL)]
    ensures |out.logs| == |db.logs| + SEED_HISTORY_SIZE && out.logs[..|db.logs|] == db.logs
    ensures forall i :: 0 <= i < SEED_HISTORY_SIZE ==> out.logs[|db.logs| + i].occupancyCount == draws[i]
  {
    var base := SeedTables(db, now, draws);
    assert forall i :: 0 <= i < |draws| ==> IsInt4(draws[i]);
    LogAllAppends(base, draws, now);
    out := LogAll(base, draws, now);
    assert |base.logs| == |db.logs|;
    forall i | 0 <= i < SEED_HISTORY_SIZE
      ensures out.logs[|db.logs| + i].occupancyCount == draws[i]
    {
      assert out.logs[|base.logs| + i].occupancyCount == draws[i];
    }
  }

  /** After seeding a fresh database, the lookups the automation uses find the seeded rows. */
  lemma SeededLookups(db: Tables.Db, now: int, draws: seq<int>) returns (out: Tables.Db)
    requires SeedDraws(draws) && Tables.Valid(db) && db.settings == []
    requires Tables.GetDevice(db, MAIN_LIGHT).None? && Tables.GetDevice(db, AC_UNIT).None?
    ensures Seed(db, now, draws) == SeedOutcome(out, true)
    ensures Tables.GetSetting(out, TIMEOUT_KEY) == Some(SeededTimeout(db.settingSeq + 1))
    ensures Tables.GetDevice(out, MAIN_LIGHT) == Some(DeviceState(db.deviceSeq + 1, MAIN_LIGHT, false, now, AUTO))
    ensures Tables.GetDevice(out, AC_UNIT) == Some(DeviceState(db.deviceSeq + 2, AC_UNIT, false, now, MANUAL))
  {
    out := SeedFreshDatabase(db, now, draws);
    var row := SeededTimeout(db.settingSeq + 1);
    assert out.settings[0].key == TIMEOUT_KEY;
    assert Tables.GetSetting(out, TIMEOUT_KEY).value in [row];
    assert out.devices[|db.devices|].name == MAIN_LIGHT;
    assert out.devices[|db.devices| + 1].name == AC_UNIT;
  }

  /**
   * The empty database is one `SeedFreshDatabase` applies to, with both id
   * sequences at 0: the timeout setting becomes row 1, the main light device 1
   * and the air conditioner device 2.
   */
  lemma EmptyDatabaseIsFresh()
    ensures var db := Tables.EmptyDb;
      && Tables.Valid(db) && db.settings == [] && db.devices == [] && db.logs == []
      && Tables.GetDevice(db, MAIN_LIGHT).None? && Tables.GetDevice(db, AC_UNIT).None?
      && db.settingSeq + 1 == 1 && db.deviceSeq + 1 == 1 && db.deviceSeq + 2 == 2
  {
    Tables.EmptyDbValid();
  }

  /**
   * With no setting but the main light's name taken, its insert throws:
   * the timeout setting is the one row written and seeding does not complete.
   */
  lemma SeedMainLightTaken(db: Tables.Db, now: int, draws: seq<int>)
    requires SeedDraws(draws) && Tables.Valid(db) && db.settings == []
    requires Tables.GetDevice(db, MAIN_LIGHT).Some?
    ensures var out := Seed(db, now, draws);
      && !out.completed
      && out.db == SeedSetting(db).db
  {
  }

  /** The tables once the setting and the two devices are written, before the history. */
  lemma SeedTables(db: Tables.Db, now: int, draws: seq<int>) returns (base: Tables.Db)
    requires SeedDraws(draws) && Tables.Valid(db) && db.settings == []
    requires Tables.GetDevice(db, MAIN_LIGHT).None? && Tables.GetDevice(db, AC_UNIT).None?
    ensures Seed(db, now, draws) == SeedOutcome(LogAll(base, draws, now), true)
    ensures Tables.Valid(base) && base.logs == db.logs
    ensures base.settings == [SeededTimeout(db.settingSeq + 1)]
    ensures base.devices == db.devices + [DeviceState(db.deviceSeq + 1, MAIN_LIGHT, false, now, AUTO), DeviceState(db.deviceSeq + 2, AC_UNIT, false, now, MANUAL)]
  {
    var setting := SeedSetting(db).db;
    var light := DeviceState(db.deviceSeq + 1, MAIN_LIGHT, false, now, AUTO);
    var ac := DeviceState(db.deviceSeq + 2, AC_UNIT, false, now, MANUAL);
    var db1 := setting.(devices := db.devices + [light], deviceSeq := db.deviceSeq + 1);
    var db2 := setting.(devices := db.devices + [light, ac], deviceSeq := db.deviceSeq + 2);
    SeedDevice(setting, InsertDeviceState(MAIN_LIGHT, Some(false), Some(AUTO)), now, db1);
    assert db1.devices + [ac] == db2.devices;
    SeedDevice(db1, InsertDeviceState(AC_UNIT, Some(false), Some(MANUAL)), now, db2);
    base := db2;
  }

  /** The seeded timeout setting, as stored with id `id`. */
  function SeededTimeout(id: nat): SystemSetting
  {
    SystemSetting(id, TIMEOUT_KEY, SEED_TIMEOUT_SECONDS, Some(SEED_TIMEOUT_DESCRIPTION))
  }

  /** The timeout setting written into a database with no setting. */
  function SeedSetting(db: Tables.Db): (r: Tables.Write<SystemSetting>)
    requires Tables.Valid(db) && db.settings == []
    ensures r.db == db.(settings := [SeededTimeout(db.settingSeq + 1)], settingSeq := db.settingSeq + 1)
    ensures Tables.Valid(r.db)
  {
    Tables.CreateSetting(db, InsertSystemSetting(TIMEOUT_KEY, SEED_TIMEOUT_SECONDS, Some(SEED_TIMEOUT_DESCRIPTION)))
  }

  /** One seeded device with a name not yet taken is appended with the next id. */
  lemma SeedDevice(db: Tables.Db, device: InsertDeviceState, now: int, next: Tables.Db)
    requires Tables.Valid(db) && device.isOn.Some? && device.mode.Some?
    requires forall i :: 0 <= i < |db.devices| ==> db.devices[i].name != device.name
    requires next == db.(devices := db.devices + [DeviceState(db.deviceSeq + 1, device.name, device.isOn.value, now, device.mode.value)], deviceSeq := db.deviceSeq + 1)
    ensures Tables.CreateDevice(db, device, now) == Tables.Write(next, Some(next.devices[|db.devices|]))
    ensures Tables.Valid(next)
  {
  }

  // ---------------------------------------------------------------------
  // The handlers on the store

  class Server {
    const storage: Storage.DatabaseStorage
    /** The module-level `lastMotionTime`. */
    var lastMotionTime: int

    function State(): ServerState
      reads this, storage
    {
      ServerState(storage.State(), lastMotionTime)
    }

    /** The routes registered over a store when the module is loaded at `startTime`. */
    constructor (storage: Storage.DatabaseStorage, startTime: int)
      ensures this.storage == storage && lastMotionTime == startTime
    {
      this.storage := storage;
      lastMotionTime := startTime;
    }

    method PostOccupancy(body: Api.Body, now: int) returns (res: OccupancyResponse)
      requires storage.Valid()
      modifies this, storage
      ensures storage.Valid()
      ensures OccupancyOutcome(State(), res) == OccupancyStep(old(State()), body, now)
    {
      var parsed := Api.ParseOccupancy(body);
      if parsed.Err? {
        return BadRequest(parsed.error);
      }
      var count := parsed.value;
      var entry := storage.LogOccupancy(InsertOccupancyLog(count), now);
      if entry.None? {
        return InternalError(INTERNAL_ERROR);
      }
      ghost var logged := State();
      assert OccupancyStep(old(State()), body, now) == Automate(logged, count, now);

      var automationTriggered := false;
      var newLightState: Option<bool> := None;
      var mainLight := storage.GetDevice(MAIN_LIGHT);
      var timeoutSetting := storage.GetSetting(TIMEOUT_KEY);
      var timeoutMs := TimeoutMs(timeoutSetting);

      if mainLight.Some? && mainLight.value.mode == AUTO {
        if count > 0 {
          lastMotionTime := now;
          if !mainLight.value.isOn {
            var updated := storage.UpdateDevice(MAIN_LIGHT, DeviceUpdate(Some(true), None), now);
            newLightState := Some(true);
            automationTriggered := true;
          }
        } else {
          if mainLight.value.isOn && Js.GreaterThan(now - lastMotionTime, timeoutMs) {
            var updated := storage.UpdateDevice(MAIN_LIGHT, DeviceUpdate(Some(false), None), now);
            newLightState := Some(false);
            automationTriggered := true;
          }
        }
      }
      res := Logged(OCCUPANCY_LOGGED, automationTriggered, newLightState);
      assert OccupancyOutcome(State(), res) == Automate(logged, count, now);
    }

    method PostToggle(name: string, body: Api.Body, now: int) returns (res: ToggleResponse)
      requires storage.Valid()
      modifies storage
      ensures storage.Valid()
      ensures ToggleOutcome(storage.State(), res) == ToggleStep(old(storage.State()), name, body, now)
    {
      var parsed := Api.ParseToggle(body);
      if parsed.Err? {
        return InvalidRequest(INVALID_REQUEST);
      }
      var device := storage.GetDevice(name);
      if device.None? {
        return DeviceNotFound(DEVICE_NOT_FOUND);
      }
      var updated := storage.UpdateDevice(name, DeviceUpdate(Some(parsed.value.isOn), parsed.value.mode), now);
      res := Toggled(updated);
    }

    method PutSetting(key: string, body: Api.Body) returns (res: SettingResponse)
      requires storage.Valid()
      modifies storage
      ensures storage.Valid()
      ensures SettingOutcome(storage.State(), res) == UpdateSettingStep(old(storage.State()), key, body)
    {
      var parsed := Api.ParseSettingUpdate(body);
      if parsed.Err? {
        return Unhandled(parsed.error);
      }
      var updated := storage.UpdateSetting(key, parsed.value);
      if updated.None? {
        return SettingNotFound(SETTING_NOT_FOUND);
      }
      res := SettingUpdated(updated.value);
    }

    method SeedDatabase(now: int, draws: seq<int>) returns (completed: bool)
      requires storage.Valid() && SeedDraws(draws)
      modifies storage
      ensures storage.Valid()
      ensures SeedOutcome(storage.State(), completed) == Seed(old(storage.State()), now, draws)
    {
      ghost var s0 := storage.State();
      var settings := storage.GetSettings();
      if |settings| == 0 {
        var setting := storage.CreateSetting(InsertSystemSetting(TIMEOUT_KEY, SEED_TIMEOUT_SECONDS, Some(SEED_TIMEOUT_DESCRIPTION)));
        ghost var s1 := storage.State();
        assert s1 == Tables.CreateSetting(s0, InsertSystemSetting(TIMEOUT_KEY, SEED_TIMEOUT_SECONDS, Some(SEED_TIMEOUT_DESCRIPTION))).db;
        var light := storage.CreateDevice(InsertDeviceState(MAIN_LIGHT, Some(false), Some(AUTO)), now);
        ghost var s2 := storage.State();
        assert Tables.Write(s2, light) == Tables.CreateDevice(s1, InsertDeviceState(MAIN_LIGHT, Some(false), Some(AUTO)), now);
        if light.None? {
          assert Seed(s0, now, draws) == SeedOutcome(s2, false);
          return false;
        }
        var ac := storage.CreateDevice(InsertDeviceState(AC_UNIT, Some(false), Some(MANUAL)), now);
        ghost var seeded := storage.State();
        assert Tables.Write(seeded, ac) == Tables.CreateDevice(s2, InsertDeviceState(AC_UNIT, Some(false), Some(MANUAL)), now);
        if ac.None? {
          assert Seed(s0, now, draws) == SeedOutcome(seeded, false);
          return false;
        }
        assert Seed(s0, now, draws) == SeedOutcome(LogAll(seeded, draws, now), true);
        for i := 0 to |draws|
          invariant storage.Valid()
          invariant storage.State() == LogAll(seeded, draws[..i], now)
        {
          LogAllStep(seeded, draws, i, now);
          var entry := storage.LogOccupancy(InsertOccupancyLog(draws[i]), now);
        }
        assert draws[..|draws|] == draws;
      }
      completed := true;
    }
  }
}
