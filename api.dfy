/**
 * shared/routes.ts: the request paths, the request bodies the server
 * accepts (the zod input schemas, as parse functions on a JSON body), and
 * `buildUrl`, which fills `:key` placeholders of a path.
 */
module Api {
  import opened Wrappers
  import Js

  /** `api.devices.toggle.path`, `/api/devices/:name/toggle`, and its literal parts around `:name`. */
  const TOGGLE_PREFIX := "/api/devices/"
  const TOGGLE_SUFFIX := "/toggle"
  const DEVICE_TOGGLE_PATH := TOGGLE_PREFIX + ":name" + TOGGLE_SUFFIX

  /** The value of one field of a JSON request body; numbers are integers here. */
  datatype Value = VNull | VBool(b: bool) | VNum(n: int) | VStr(s: string) | VArray | VObject

  /** A JSON object body: its fields by name. */
  type Body = map<string, Value>

  /** The first problem the validation finds, and in which field. */
  datatype Issue = Required(field: string) | InvalidType(field: string) | TooSmall(field: string) | InvalidEnumValue(field: string)

  // ---------------------------------------------------------------------
  // POST /api/occupancy: { count: number, count >= 0 }

  function ParseOccupancy(body: Body): (r: Result<int, Issue>)
    ensures r.Ok? <==> "count" in body && body["count"].VNum? && body["count"].n >= 0
    ensures r.Ok? ==> r.value >= 0 && body["count"] == VNum(r.value)
    ensures "count" in body && body["count"].VNum? && body["count"].n < 0 ==> r == Err(TooSmall("count"))
  {
    if "count" !in body then Err(Required("count"))
    else match body["count"]
      case VNum(n) => if n >= 0 then Ok(n) else Err(TooSmall("count"))
      case _ => Err(InvalidType("count"))
  }

  /** The body a reporter sends for a count. */
  function OccupancyBody(count: int): Body
  {
    map["count" := VNum(count)]
  }

  /** A reported count comes back from the body exactly when it is not negative. */
  lemma ParseOccupancyBody(count: int)
    ensures ParseOccupancy(OccupancyBody(count)) == if count >= 0 then Ok(count) else Err(TooSmall("count"))
  {
  }

  // ---------------------------------------------------------------------
  // POST /api/devices/:name/toggle: { isOn: boolean, mode?: 'auto' | 'manual' }

  datatype ToggleInput = ToggleInput(isOn: bool, mode: Option<string>)

  predicate IsModeLiteral(m: string)
  {
    m == "auto" || m == "manual"
  }

  function ParseToggle(body: Body): (r: Result<ToggleInput, Issue>)
    ensures r.Ok? <==>
      && "isOn" in body && body["isOn"].VBool?
      && ("mode" in body ==> body["mode"].VStr? && IsModeLiteral(body["mode"].s))
    ensures r.Ok? ==> body["isOn"] == VBool(r.value.isOn)
    ensures r.Ok? ==> (r.value.mode.Some? <==> "mode" in body)
    ensures r.Ok? && r.value.mode.Some? ==> body["mode"] == VStr(r.value.mode.value) && IsModeLiteral(r.value.mode.value)
  {
    if "isOn" !in body then Err(Required("isOn"))
    else if !body["isOn"].VBool? then Err(InvalidType("isOn"))
    else if "mode" !in body then Ok(ToggleInput(body["isOn"].b, None))
    else match body["mode"]
      case VStr(m) => if IsModeLiteral(m) then Ok(ToggleInput(body["isOn"].b, Some(m))) else Err(InvalidEnumValue("mode"))
      case _ => Err(InvalidType("mode"))
  }

  /** `JSON.stringify` of a toggle input: an absent mode is left out. */
  function ToggleBody(input: ToggleInput): Body
  {
    if input.mode.Some? then map["isOn" := VBool(input.isOn), "mode" := VStr(input.mode.value)]
    else map["isOn" := VBool(input.isOn)]
  }

  /** What the client sends is what the server reads, when the mode is one of the two literals. */
  lemma ParseToggleBody(input: ToggleInput)
    requires input.mode.Some? ==> IsModeLiteral(input.mode.value)
    ensures ParseToggle(ToggleBody(input)) == Ok(input)
  {
  }

  // ---------------------------------------------------------------------
  // PUT /api/settings/:key: { value: string }

  function ParseSettingUpdate(body: Body): (r: Result<string, Issue>)
    ensures r.Ok? <==> "value" in body && body["value"].VStr?
    ensures r.Ok? ==> body["value"] == VStr(r.value)
  {
    if "value" !in body then Err(Required("value"))
    else match body["value"]
      case VStr(s) => Ok(s)
      case _ => Err(InvalidType("value"))
  }

  function SettingBody(value: string): Body
  {
    map["value" := VStr(value)]
  }

  lemma ParseSettingBody(value: string)
    ensures ParseSettingUpdate(SettingBody(value)) == Ok(value)
  {
  }

  // ---------------------------------------------------------------------
  // buildUrl

  /** A parameter value: `string | number` (integers here). */
  datatype ParamValue = PStr(s: string) | PNum(n: int)

  /** `String(value)`. */
  function ParamString(v: ParamValue): string
  {
    match v
    case PStr(s) => s
    case PNum(n) => Js.NumberToString(n)
  }

  /** One step of the loop in `buildUrl`: replace the first `:key` if there is one. */
  function Substitute(url: string, key: string, value: ParamValue): string
  {
    var token := ":" + key;
    if Js.Includes(url, token) then Js.Replace(url, token, ParamString(value)) else url
  }

  /** The entries applied one after the other, in the order `Object.entries` gives them. */
  function ApplyParams(path: string, entries: seq<(string, ParamValue)>): string
    decreases |entries|
  {
    if entries == [] then path
    else
      var (key, value) := entries[|entries| - 1];
      Substitute(ApplyParams(path, entries[..|entries| - 1]), key, value)
  }

  /**
   * `buildUrl(path, params)`: without params the path itself; otherwise
   * each entry in turn replaces the first occurrence of its `:key` token.
   */
  method BuildUrl(path: string, params: Option<seq<(string, ParamValue)>>) returns (url: string)
    ensures params.None? ==> url == path
    ensures params.Some? ==> url == ApplyParams(path, params.value)
  {
    url := path;
    if params.Some? {
      var entries := params.value;
      for i := 0 to |entries|
        invariant url == ApplyParams(path, entries[..i])
      {
        assert entries[..i + 1][..i] == entries[..i];
        var (key, value) := entries[i];
        if Js.Includes(url, ":" + key) {
          url := Js.Replace(url, ":" + key, ParamString(value));
        }
      }
      assert entries[..|entries|] == entries;
    }
  }

  /** Params with no entry leave the path as it is. */
  lemma ApplyNoEntries(path: string)
    ensures ApplyParams(path, []) == path
  {
  }

  /** A param whose token does not occur leaves the URL unchanged. */
  lemma SubstituteAbsent(url: string, key: string, value: ParamValue)
    requires !Js.Includes(url, ":" + key)
    ensures Substitute(url, key, value) == url
  {
  }

  /**
   * Only the first occurrence of the token is replaced; with a value that
   * has no `$` the value goes in exactly as `String(value)` gives it.
   */
  lemma SubstituteFirstOccurrence(url: string, key: string, value: ParamValue)
    requires Js.Includes(url, ":" + key)
    requires '$' !in ParamString(value)
    ensures var i := Js.IndexOf(url, ":" + key);
      && (forall j :: 0 <= j < i ==> !Js.MatchAt(url, ":" + key, j))
      && Substitute(url, key, value) == url[..i] + ParamString(value) + url[i + |key| + 1..]
  {
    Js.ReplacePlain(url, ":" + key, ParamString(value));
  }

  /**
   * The step at a known first occurrence: no `:` before index `i` and the
   * token at `i`, with a value free of `$`.
   */
  lemma SubstituteAt(url: string, key: string, value: ParamValue, i: nat)
    requires Js.MatchAt(url, ":" + key, i)
    requires ':' !in url[..i]
    requires '$' !in ParamString(value)
    ensures Substitute(url, key, value) == url[..i] + ParamString(value) + url[i + |key| + 1..]
  {
    FirstAt(url, ":" + key, i);
    Js.ReplacePlain(url, ":" + key, ParamString(value));
  }

  /** `indexOf` finds `token` at `i` when its first character does not occur before `i`. */
  lemma FirstAt(url: string, token: string, i: nat)
    requires token != [] && Js.MatchAt(url, token, i)
    requires token[0] !in url[..i]
    ensures Js.IndexOf(url, token) == i
  {
    forall j | 0 <= j < i ensures !Js.MatchAt(url, token, j) {
      assert url[j] == url[..i][j];
    }
  }

  lemma ApplyOne(path: string, key: string, value: ParamValue)
    ensures ApplyParams(path, [(key, value)]) == Substitute(path, key, value)
  {
    assert [(key, value)][..0] == [];
  }

  /**
   * The toggle URL of a device: its name goes in as it is, with no encoding
   * (`'Main Light'` gives `/api/devices/Main Light/toggle`).
   */
  lemma ToggleUrl(name: string)
    requires '$' !in name
    ensures ApplyParams(DEVICE_TOGGLE_PATH, [("name", PStr(name))]) == "/api/devices/" + name + "/toggle"
  {
    var url := DEVICE_TOGGLE_PATH;
    assert url[..13] == "/api/devices/";
    assert url[13..18] == ":name";
    assert url[18..] == "/toggle";
    SubstituteAt(url, "name", PStr(name), 13);
    ApplyOne(url, "name", PStr(name));
  }

  /** Matching is by substring: the token `:id` also matches inside `:idx`. */
  lemma SubstringMatch()
    ensures ApplyParams("/items/:idx", [("id", PNum(7))]) == "/items/7x"
  {
    var url := "/items/:idx";
    assert url[..7] == "/items/";
    assert url[7..10] == ":id";
    assert url[10..] == "x";
    assert ParamString(PNum(7)) == "7";
    SubstituteAt(url, "id", PNum(7), 7);
    ApplyOne(url, "id", PNum(7));
  }

  /**
   * Entries apply in order, so a value holding a later entry's token is
   * itself rewritten: `{first: ':second', second: v}` turns `/a/:first`
   * into `/a/` followed by `v`.
   */
  lemma LaterEntryRewritesValue(prefix: string, first: string, second: string, v: string)
    requires ':' !in prefix && '$' !in second && '$' !in v
    ensures ApplyParams(prefix + ":" + first, [(first, PStr(":" + second)), (second, PStr(v))]) == prefix + v
  {
    var entries := [(first, PStr(":" + second)), (second, PStr(v))];
    var url := prefix + ":" + first;
    var n := |prefix|;
    assert url[..n] == prefix && url[n..n + |first| + 1] == ":" + first && url[n + |first| + 1..] == "";
    SubstituteAt(url, first, PStr(":" + second), n);
    ApplyOne(url, first, PStr(":" + second));
    assert entries[..1] == [(first, PStr(":" + second))];
    var mid := prefix + ":" + second;
    assert ApplyParams(url, entries[..1]) == mid;
    assert mid[..n] == prefix && mid[n..n + |second| + 1] == ":" + second && mid[n + |second| + 1..] == "";
    SubstituteAt(mid, second, PStr(v), n);
  }

  // ---------------------------------------------------------------------
  // A value containing `$&`: `replace` expands it instead of inserting it

  /**
   * As written: the value `$&` puts the matched token back, so the
   * placeholder survives and the device name never reaches the URL.
   */
  lemma DollarValueKeepsPlaceholder()
    ensures ApplyParams(DEVICE_TOGGLE_PATH, [("name", PStr("$&"))]) == DEVICE_TOGGLE_PATH
  {
    var url := DEVICE_TOGGLE_PATH;
    var token := ":name";
    assert ":" + "name" == token;
    assert url[13..18] == token;
    assert Js.Includes(url, token) by {
      FirstAt(url, token, 13);
    }
    assert ParamString(PStr("$&")) == "$&";
    Js.ReplaceWithMatch(url, token);
    ApplyOne(url, "name", PStr("$&"));
  }

  /** The step as intended: the first `:key` replaced by `String(value)`, character for character. */
  function SubstituteLiteral(url: string, key: string, value: ParamValue): string
  {
    var i := Js.IndexOf(url, ":" + key);
    if i < 0 then url else url[..i] + ParamString(value) + url[i + |key| + 1..]
  }

  /** The intended and the written step agree on every value without `$`. */
  lemma SubstituteLiteralAgrees(url: string, key: string, value: ParamValue)
    requires '$' !in ParamString(value)
    ensures SubstituteLiteral(url, key, value) == Substitute(url, key, value)
  {
    if Js.Includes(url, ":" + key) {
      Js.ReplacePlain(url, ":" + key, ParamString(value));
    }
  }

  function ApplyParamsLiteral(path: string, entries: seq<(string, ParamValue)>): string
    decreases |entries|
  {
    if entries == [] then path
    else
      var (key, value) := entries[|entries| - 1];
      SubstituteLiteral(ApplyParamsLiteral(path, entries[..|entries| - 1]), key, value)
  }

  /** With the intended step every device name, `$` or not, reaches the toggle URL unchanged. */
  lemma ToggleUrlLiteral(name: string)
    ensures ApplyParamsLiteral(DEVICE_TOGGLE_PATH, [("name", PStr(name))]) == "/api/devices/" + name + "/toggle"
  {
    var url := DEVICE_TOGGLE_PATH;
    var token := ":name";
    assert ":" + "name" == token;
    assert url[..13] == "/api/devices/";
    assert url[13..18] == token;
    assert url[18..] == "/toggle";
    FirstAt(url, token, 13);
    assert [("name", PStr(name))][..0] == [];
    assert SubstituteLiteral(url, "name", PStr(name)) == url[..13] + name + url[18..];
    assert ApplyParamsLiteral(url, [("name", PStr(name))]) == SubstituteLiteral(url, "name", PStr(name));
  }
}
