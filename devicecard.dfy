/**
 * client/src/components/DeviceCard.tsx: the two requests a device card
 * sends to the toggle route, and what they do once the server applies them.
 */
module DeviceCard {
  import opened Wrappers
  import opened Schema
  import Api
  import Tables
  import Routes

  /** `{ name } & ToggleDeviceRequest`, the argument of `toggleDevice`. */
  datatype ToggleRequest = ToggleRequest(name: string, isOn: bool, mode: Option<string>)

  /** The switch: the new position, and a manual override of the mode. */
  function HandleToggle(device: DeviceState, checked: bool): ToggleRequest
  {
    ToggleRequest(device.name, checked, Some(MANUAL))
  }

  /**
   * The mode badge: the light keeps its state and the mode flips; anything
   * but `'auto'` (a free-text mode included) flips to `'auto'`.
   */
  function HandleModeToggle(device: DeviceState): (r: ToggleRequest)
    ensures r.name == device.name && r.isOn == device.isOn
    ensures r.mode.Some? && Api.IsModeLiteral(r.mode.value)
    ensures IsAutomatic(device) <==> r.mode == Some(MANUAL)
  {
    ToggleRequest(device.name, device.isOn, Some(if device.mode == AUTO then MANUAL else AUTO))
  }

  /** The JSON body `toggleDevice` sends: the request without its name. */
  function RequestBody(request: ToggleRequest): Api.Body
  {
    Api.ToggleBody(Api.ToggleInput(request.isOn, request.mode))
  }

  /** The path `toggleDevice` posts to: `buildUrl(api.devices.toggle.path, { name })`. */
  function RequestUrl(request: ToggleRequest): string
  {
    Api.ApplyParams(Api.DEVICE_TOGGLE_PATH, [("name", Api.PStr(request.name))])
  }

  /**
   * The POST `toggleDevice` makes, as the server handles it. The client
   * first validates the body and sends nothing when that throws. Otherwise
   * the toggle route's handler runs for the `:name` the URL binds, or no
   * handler at all (Express's own 404) when the URL does not match the route.
   */
  function Send(db: Tables.Db, request: ToggleRequest, now: int): Option<Routes.ToggleOutcome>
  {
    if Api.ParseToggle(RequestBody(request)).Err? then None
    else match Routes.ToggleRouteParam(RequestUrl(request))
      case None => None
      case Some(name) => Some(Routes.ToggleStep(db, name, RequestBody(request), now))
  }

  /** A mode the client-side validation lets through: none, `'auto'` or `'manual'`. */
  predicate SendableMode(mode: Option<string>)
  {
    mode.Some? ==> Api.IsModeLiteral(mode.value)
  }

  /** A name that reaches the toggle route as it is: one path segment, with no `$` for `replace` to expand. */
  predicate RoutableName(name: string)
  {
    name != "" && '$' !in name && '/' !in name
  }

  /**
   * A request with any other mode is never sent. With a sendable mode, a
   * routable name is handled for that very device, and any other name
   * without `$` (empty, or holding `/`) matches no route.
   */
  lemma SendDelivers(db: Tables.Db, request: ToggleRequest, now: int)
    ensures !SendableMode(request.mode) ==> Send(db, request, now) == None
    ensures SendableMode(request.mode) && RoutableName(request.name) ==>
      Send(db, request, now) == Some(Routes.ToggleStep(db, request.name, RequestBody(request), now))
    ensures '$' !in request.name && !RoutableName(request.name) ==> Send(db, request, now) == None
  {
    if SendableMode(request.mode) {
      Api.ParseToggleBody(Api.ToggleInput(request.isOn, request.mode));
    }
    if '$' !in request.name {
      Api.ToggleUrl(request.name);
      Routes.ToggleRouteParamOf(request.name);
    }
  }

  /**
   * As written, the device `$&` is never the one toggled: its URL keeps the
   * placeholder, so the server looks up a device called `:name` instead.
   */
  lemma DollarNameMisrouted(db: Tables.Db, isOn: bool, mode: Option<string>, now: int)
    ensures var request := ToggleRequest("$&", isOn, mode);
      Send(db, request, now) == if SendableMode(mode) then Some(Routes.ToggleStep(db, ":name", RequestBody(request), now)) else None
  {
    if SendableMode(mode) {
      Api.ParseToggleBody(Api.ToggleInput(isOn, mode));
    }
    Api.DollarValueKeepsPlaceholder();
    Routes.ToggleRouteOfItsPath();
  }

  /** Both cards' requests pass the toggle route's validation unchanged. */
  lemma RequestsValidate(device: DeviceState, checked: bool)
    ensures Api.ParseToggle(RequestBody(HandleToggle(device, checked))) == Ok(Api.ToggleInput(checked, Some(MANUAL)))
    ensures Api.ParseToggle(RequestBody(HandleModeToggle(device))) ==
      Ok(Api.ToggleInput(device.isOn, HandleModeToggle(device).mode))
  {
    Api.ParseToggleBody(Api.ToggleInput(checked, Some(MANUAL)));
    Api.ParseToggleBody(Api.ToggleInput(device.isOn, HandleModeToggle(device).mode));
  }

  /** A switch flip on a stored device sets it to the new position in manual mode. */
  lemma SwitchFlipMakesManual(db: Tables.Db, device: DeviceState, checked: bool, now: int)
    requires Tables.Valid(db) && Tables.GetDevice(db, device.name) == Some(device)
    requires RoutableName(device.name)
    ensures Send(db, HandleToggle(device, checked), now).Some?
    ensures var out := Send(db, HandleToggle(device, checked), now).value;
      var d := device.(isOn := checked, mode := MANUAL, lastUpdated := now);
      && Tables.Valid(out.db)
      && Tables.GetDevice(out.db, device.name) == Some(d)
      && out.response == Routes.Toggled(Some(d))
  {
    SendDelivers(db, HandleToggle(device, checked), now);
    RequestsValidate(device, checked);
    Routes.ToggleEffect(db, device.name, RequestBody(HandleToggle(device, checked)), now);
  }

  /** A mode toggle on a stored device keeps its light and flips its mode. */
  lemma ModeToggleFlips(db: Tables.Db, device: DeviceState, now: int)
    requires Tables.Valid(db) && Tables.GetDevice(db, device.name) == Some(device)
    requires RoutableName(device.name)
    ensures Send(db, HandleModeToggle(device), now).Some?
    ensures var out := Send(db, HandleModeToggle(device), now).value;
      var d := device.(mode := HandleModeToggle(device).mode.value, lastUpdated := now);
      && Tables.Valid(out.db)
      && Tables.GetDevice(out.db, device.name) == Some(d)
      && out.response == Routes.Toggled(Some(d))
  {
    SendDelivers(db, HandleModeToggle(device), now);
    RequestsValidate(device, false);
    Routes.ToggleEffect(db, device.name, RequestBody(HandleModeToggle(device)), now);
  }

  /**
   * Two mode toggles, the second from the card as refreshed after the first,
   * restore an `'auto'` or `'manual'` mode; any other mode ends up `'manual'`.
   * The light's state is kept throughout.
   */
  lemma ModeToggleTwice(db: Tables.Db, device: DeviceState, now: int, later: int)
    requires Tables.Valid(db) && Tables.GetDevice(db, device.name) == Some(device)
    requires RoutableName(device.name)
    ensures Send(db, HandleModeToggle(device), now).Some?
    ensures var first := Send(db, HandleModeToggle(device), now).value;
      var refreshed := Tables.GetDevice(first.db, device.name).value;
      Send(first.db, HandleModeToggle(refreshed), later).Some?
    ensures var first := Send(db, HandleModeToggle(device), now).value;
      var refreshed := Tables.GetDevice(first.db, device.name).value;
      var second := Send(first.db, HandleModeToggle(refreshed), later).value;
      && Tables.GetDevice(second.db, device.name).Some?
      && Tables.GetDevice(second.db, device.name).value.isOn == device.isOn
      && Tables.GetDevice(second.db, device.name).value.mode == (if Api.IsModeLiteral(device.mode) then device.mode else MANUAL)
  {
    ModeToggleFlips(db, device, now);
    var first := Send(db, HandleModeToggle(device), now).value;
    var refreshed := Tables.GetDevice(first.db, device.name).value;
    ModeToggleFlips(first.db, refreshed, later);
  }

  /**
   * After the user flips the main light's switch, no run of occupancy
   * reports changes any device, until a mode toggle puts it back to `'auto'`;
   * for another device the reports never touch it at all.
   */
  lemma SwitchFlipEndsAutomation(s: Routes.ServerState, device: DeviceState, checked: bool, now: int, reports: seq<Routes.Report>)
    requires Tables.Valid(s.db) && Tables.GetDevice(s.db, device.name) == Some(device)
    requires RoutableName(device.name)
    ensures Send(s.db, HandleToggle(device, checked), now).Some?
    ensures var flipped := Routes.ServerState(Send(s.db, HandleToggle(device, checked), now).value.db, s.lastMotionTime);
      && Tables.GetDevice(Routes.RunReports(flipped, reports).db, device.name) == Tables.GetDevice(flipped.db, device.name)
      && (device.name == Routes.MAIN_LIGHT ==> Routes.RunReports(flipped, reports).db.devices == flipped.db.devices)
  {
    SwitchFlipMakesManual(s.db, device, checked, now);
    var flipped := Routes.ServerState(Send(s.db, HandleToggle(device, checked), now).value.db, s.lastMotionTime);
    if device.name == Routes.MAIN_LIGHT {
      Routes.NotAutomatedRun(flipped, reports);
    } else {
      Routes.OtherDevicesUntouchedRun(flipped, reports, device.name);
    }
  }
}
