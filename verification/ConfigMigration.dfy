/** What Config::init does to the configuration tree, as a list of repairs, and what it promises. */
module ConfigMigration {
  import opened Wrappers
  import opened Json

  /** Build flags and arguments: the file's path, the default thumbnail directory, POWERSCREEN_ROTATE
      and EVDEV_CALIBRATE. */
  datatype Build = Build(configPath: string, thumbDir: string, rotated: bool, calibrate: bool)

  // ---------------------------------------------------------------- built-in settings

  const COOLDOWN_SCRIPT :=
    "SET_HEATER_TEMPERATURE HEATER=extruder TARGET=0\nSET_HEATER_TEMPERATURE HEATER=heater_bed TARGET=0"
  const COOLDOWN := Obj(map["cooldown" := Str(COOLDOWN_SCRIPT)])
  const NEW_LOAD := "_PS_LOAD_MATERIAL"
  const NEW_UNLOAD := "_PS_QUIT_MATERIAL"
  const OLD_LOAD := "_POWERSCREEN_LOAD_MATERIAL"
  const OLD_UNLOAD := "_POWERSCREEN_QUIT_MATERIAL"
  const RENAMED_MACROS := [(OLD_LOAD, NEW_LOAD), (OLD_UNLOAD, NEW_UNLOAD)]
  const MACRO_KEYS := ["load_filament", "unload_filament"]
  const DEFAULT_MACROS := Obj(map["load_filament" := Str(NEW_LOAD), "unload_filament" := Str(NEW_UNLOAD)])

  function Fan(id: string, name: string): Json {
    Obj(map["id" := Str(id), "display_name" := Str(name)])
  }

  function Sensor(id: string, name: string, controllable: bool, color: string): Json {
    Obj(map["id" := Str(id), "display_name" := Str(name), "controllable" := Bool(controllable), "color" := Str(color)])
  }

  const FANS := Arr([Fan("output_pin fan0", "Toolhead Fan"),
                     Fan("output_pin fan1", "Back Fan"),
                     Fan("output_pin fan2", "Side Fan")])

  const SENSORS := Arr([Sensor("extruder", "Extruder", true, "red"),
                        Sensor("heater_bed", "Bed", true, "purple"),
                        Sensor("temperature_sensor chamber_temp", "Chamber", false, "blue")])

  /** The tree used when there is no file yet (device build). */
  function FreshTree(b: Build): Json {
    Obj(map["log_path" := Str("/usr/data/printer_data/logs/powerscreen.log"),
            "thumbnail_path" := Str(b.thumbDir),
            "wpa_supplicant" := Str("/var/run/wpa_supplicant"),
            "display_sleep_sec" := Num(-1.0),
            "default_printer" := Str("k1"),
            "printers" := Obj(map["k1" := Obj(map["moonraker_api_key" := Bool(false),
                                                  "moonraker_host" := Str("127.0.0.1"),
                                                  "moonraker_port" := Num(7125.0),
                                                  "monitored_sensors" := SENSORS,
                                                  "fans" := FANS,
                                                  "default_macros" := DEFAULT_MACROS])])])
  }

  // ---------------------------------------------------------------- repairing the macros

  function RenameFrom(s: string, i: nat): string
    requires i <= |RENAMED_MACROS|
    decreases |RENAMED_MACROS| - i
  {
    if i == |RENAMED_MACROS| then s
    else RenameFrom(if s == RENAMED_MACROS[i].0 then RENAMED_MACROS[i].1 else s, i + 1)
  }

  function RenamedMacro(v: Json): Json {
    if v.Str? then Str(RenameFrom(v.s, 0)) else v
  }

  function RenameAt(m: Json, key: string): Json {
    if Contains(m, key) && m.fields[key].Str? then Obj(m.fields[key := RenamedMacro(m.fields[key])]) else m
  }

  function RenameKeys(m: Json, i: nat): Json
    requires i <= |MACRO_KEYS|
    decreases |MACRO_KEYS| - i
  {
    if i == |MACRO_KEYS| then m else RenameKeys(RenameAt(m, MACRO_KEYS[i]), i + 1)
  }

  function WithCooldown(m: Json): Json {
    if Contains(m, "cooldown") then m else MergePatch(m, COOLDOWN)
  }

  function MigratedMacros(v: Json): Json {
    if v.Null? then MergePatch(DEFAULT_MACROS, COOLDOWN) else RenameKeys(WithCooldown(v), 0)
  }

  // ---------------------------------------------------------------- the chain of repairs

  datatype Repair = Default(value: Json) | Macros
  {
    function Fix(v: Json): Json {
      match this
      case Default(w) => if v.Null? then w else v
      case Macros => MigratedMacros(v)
    }

    predicate Proper() {
      Default? ==> !value.Null?
    }
  }

  datatype Edit = Edit(path: Path, repair: Repair)

  /** The pointer is evaluated to look at the value; if that is null, it is evaluated again to assign. */
  function ApplyEdit(d: Json, e: Edit): Result<Json> {
    var seen := At(d, e.path);
    var touched :- Touch(d, e.path);
    Put(if seen.Null? then touched else d, e.path, e.repair.Fix(seen))
  }

  function ApplyAll(d: Json, es: seq<Edit>): Result<Json> {
    if es == [] then Ok(d) else
    var before :- ApplyAll(d, es[..|es| - 1]);
    ApplyEdit(before, es[|es| - 1])
  }

  /** default_printer: "/printers/<name>/", to which the code appends a key and parses the whole. */
  function PrinterPointer(name: string, key: string): string {
    "/printers/" + name + "/" + key
  }

  function PrinterPath(name: string, key: string): Result<Path> {
    ParsePointer(PrinterPointer(name, key))
  }

  function PrinterEdits(name: string): Result<seq<Edit>> {
    var sensors :- PrinterPath(name, "monitored_sensors");
    var fans :- PrinterPath(name, "fans");
    var macros :- PrinterPath(name, "default_macros");
    var log :- PrinterPath(name, "log_level");
    Ok([Edit(sensors, Default(SENSORS)), Edit(fans, Default(FANS)), Edit(macros, Macros),
        Edit(["powerscreen_init_script"], Default(Str("/etc/init.d/S99powerscreen"))),
        Edit(log, Default(Str("debug")))])
  }

  function GlobalEdits(b: Build): seq<Edit> {
    [Edit(["display_rotate"], Default(Num(if b.rotated then 3.0 else 0.0))),
     Edit(["touch_calibrated"], Default(Bool(b.calibrate))),
     Edit(["prompt_emergency_stop"], Default(Bool(true))),
     Edit(["display_sleep_sec"], Default(Num(-1.0)))]
  }

  /** All repairs, given the value of `default_printer`. */
  function Edits(printer: Json, b: Build): Result<seq<Edit>> {
    match printer
    case Null => Ok(GlobalEdits(b))
    case Str(name) => var es :- PrinterEdits(name); Ok(es + GlobalEdits(b))
    case _ => Thrown
  }

  /** After `data["config_path"] = ...` and the first look at `default_printer`. */
  function Opened(d: Json, b: Build): Result<Json> {
    if d.Obj? || d.Null? then
      var fields := (if d.Obj? then d.fields else map[])["config_path" := Str(b.configPath)];
      Ok(Obj(fields["default_printer" := Member(Obj(fields), "default_printer")]))
    else Thrown
  }

  function WithoutTheme(d: Json): Result<Json> {
    if d.Obj? then Ok(Obj(d.fields - {"theme"})) else Thrown
  }

  /** Config::init; `file` is the parsed configuration file, if there is one. */
  function Init(file: Option<Json>, b: Build): Result<Json> {
    var start :- Opened(if file.Some? then file.value else FreshTree(b), b);
    var edits :- Edits(Member(start, "default_printer"), b);
    var repaired :- ApplyAll(start, edits);
    WithoutTheme(repaired)
  }

  // ---------------------------------------------------------------- where the printer's settings are

  lemma UnescapeSingle(s: string)
    ensures UnescapeAll([s]) == if Unescape(s).Ok? then Ok([Unescape(s).value]) else Thrown
  {
    assert [s][1..] == [];
    if Unescape(s).Ok? {
      assert [Unescape(s).value] + [] == [Unescape(s).value];
    }
  }

  lemma OneToken(key: string)
    requires '/' !in key && '~' !in key
    ensures UnescapeAll(Split(key)) == Ok([key])
  {
    SplitWhole(key);
    UnescapePlain(key);
    UnescapeSingle(key);
  }

  lemma PointerTokens(root: string, name: string, key: string)
    requires '/' !in root && '~' !in root && '/' !in key && '~' !in key
    ensures var base := UnescapeAll(Split(name));
            ParsePointer("/" + root + "/" + name + "/" + key) ==
            if base.Ok? then Ok([root] + base.value + [key]) else Thrown
  {
    assert ("/" + root + "/" + name + "/" + key)[1..] == root + "/" + (name + "/" + key);
    SplitAt(root, name + "/" + key);
    SplitAt(name, key);
    OneToken(root);
    OneToken(key);
    UnescapeAllAppend(Split(root), Split(name + "/" + key));
    UnescapeAllAppend(Split(name), Split(key));
    var base := UnescapeAll(Split(name));
    if base.Ok? {
      assert [root] + (base.value + [key]) == [root] + base.value + [key];
    }
  }

  lemma PrinterPathShape(name: string, key: string)
    requires '/' !in key && '~' !in key
    ensures var base := UnescapeAll(Split(name));
            PrinterPath(name, key) == if base.Ok? then Ok(["printers"] + base.value + [key]) else Thrown
  {
    assert "/printers/" == "/" + "printers" + "/";
    PointerTokens("printers", name, key);
  }

  /** The printer's name is put into the pointer unescaped, so its settings are those of the member of
      `printers` with that very name exactly if the name has neither a '/' nor a '~'. */
  lemma PrinterPathIff(name: string, key: string)
    requires '/' !in key && '~' !in key
    ensures PrinterPath(name, key) == Ok(["printers", name, key]) <==> '/' !in name && '~' !in name
  {
    PrinterPathShape(name, key);
    SplitWhole(name);
    UnescapePlain(name);
    var base := UnescapeAll(Split(name));
    if '/' !in name {
      UnescapeSingle(name);
      if base.Ok? {
        assert ["printers"] + base.value + [key] == ["printers", base.value[0], key];
      }
    } else if base.Ok? {
      assert |["printers"] + base.value + [key]| != |["printers", name, key]|;
    }
  }
}
