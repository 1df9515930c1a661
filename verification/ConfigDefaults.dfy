/** What Config::init fills in, written out. */
module ConfigDefaults {
  import opened Wrappers
  import opened Json
  import opened ConfigMigration
  import opened ConfigChain
  import opened ConfigTheorems
  import opened ConfigLeaves

  // ---------------------------------------------------------------- the built-in values

  function SensorOf(id: string, name: string, controllable: bool, color: string): Json {
    Obj(map["id" := Str(id), "display_name" := Str(name), "controllable" := Bool(controllable), "color" := Str(color)])
  }

  const DEFAULT_SENSORS :=
    Arr([SensorOf("extruder", "Extruder", true, "red"),
         SensorOf("heater_bed", "Bed", true, "purple"),
         SensorOf("temperature_sensor chamber_temp", "Chamber", false, "blue")])

  const DEFAULT_FANS :=
    Arr([Obj(map["id" := Str("output_pin fan0"), "display_name" := Str("Toolhead Fan")]),
         Obj(map["id" := Str("output_pin fan1"), "display_name" := Str("Back Fan")]),
         Obj(map["id" := Str("output_pin fan2"), "display_name" := Str("Side Fan")])])

  const ALL_COOL :=
    Str("SET_HEATER_TEMPERATURE HEATER=extruder TARGET=0\nSET_HEATER_TEMPERATURE HEATER=heater_bed TARGET=0")

  const COMPLETE_MACROS :=
    Obj(map["load_filament" := Str("_PS_LOAD_MATERIAL"), "unload_filament" := Str("_PS_QUIT_MATERIAL"),
            "cooldown" := ALL_COOL])

  lemma MacrosWritten(v: Json)
    ensures MigratedMacros(Null) == COMPLETE_MACROS && MigratedMacros(DEFAULT_MACROS) == COMPLETE_MACROS
    ensures !v.Null? && !v.Obj? ==> MigratedMacros(v) == Obj(map["cooldown" := ALL_COOL])
  {
    AddsCooldown(DEFAULT_MACROS);
    assert COMPLETE_MACROS.fields == DEFAULT_MACROS.fields["cooldown" := ALL_COOL];
    DefaultMacrosMigrated();
    assert !Contains(DEFAULT_MACROS, "cooldown") by {
      assert "cooldown"[0] != "load_filament"[0] && "cooldown"[0] != "unload_filament"[0];
    }
    if !v.Null? && !v.Obj? {
      AddsCooldown(v);
      var w := Obj(map["cooldown" := ALL_COOL]);
      assert WithCooldown(v) == w;
      RenameKeysUnfold(w);
      assert "cooldown"[0] != "load_filament"[0] && "cooldown"[0] != "unload_filament"[0];
    }
  }

  // ---------------------------------------------------------------- after init

  // A setting that was missing or null has its default, any other is kept.
  ghost predicate Filled(before: Json, after: Json, q: Path, v: Json) {
    Get(after, q) == Some(if At(before, q).Null? then v else At(before, q))
  }

  lemma FilledByInit(d: Json, b: Build, es: seq<Edit>, k: nat)
    requires Init(Some(d), b).Ok? && d.Obj? && !AppendingPrinter(d)
    requires Edits(Member(d, "default_printer"), b) == Ok(es) && k < |es|
    ensures Get(Init(Some(d), b).value, es[k].path) == Some(es[k].repair.Fix(At(d, es[k].path)))
  {
    OpenedPrinter(d, b);
    InitRepairsAll(d, b, k);
    EditsApart(Member(d, "default_printer"), b);
    var p := es[k].path;
    OwnHeadLength(p);
    assert |"config_path"| == 11 && |"default_printer"| == 15;
    OpenedKeeps(d, b, p);
  }

  lemma DefaultFilled(d: Json, b: Build, es: seq<Edit>, k: nat, q: Path, v: Json)
    requires Init(Some(d), b).Ok? && d.Obj? && !AppendingPrinter(d)
    requires Edits(Member(d, "default_printer"), b) == Ok(es) && k < |es| && es[k] == Edit(q, Default(v))
    ensures Filled(d, Init(Some(d), b).value, q, v)
  {
    FilledByInit(d, b, es, k);
  }

  lemma GeneralEdits(d: Json, b: Build, es: seq<Edit>, j: nat)
    requires Edits(Member(d, "default_printer"), b) == Ok(es) && j < 4
    ensures |es| >= 4 && es[|es| - 4 + j] == GlobalEdits(b)[j]
  {
    var printer := Member(d, "default_printer");
    if printer.Str? {
      PrinterEditsPaths(printer.s);
      var ps, gs := PrinterSettings(UnescapeAll(Split(printer.s)).value), GlobalEdits(b);
      assert es == ps + gs && |gs| == 4;
      assert (ps + gs)[|ps| + j] == gs[j];
    } else {
      assert es == GlobalEdits(b);
    }
  }

  lemma GeneralFilled(d: Json, b: Build, j: nat, q: Path, v: Json)
    requires Init(Some(d), b).Ok? && d.Obj? && !AppendingPrinter(d)
    requires j < 4 && GlobalEdits(b)[j] == Edit(q, Default(v))
    ensures Filled(d, Init(Some(d), b).value, q, v)
  {
    OpenedPrinter(d, b);
    InitParts(d, b);
    var es := Edits(Member(d, "default_printer"), b).value;
    GeneralEdits(d, b, es, j);
    DefaultFilled(d, b, es, |es| - 4 + j, q, v);
  }

  /** The settings every configuration has after init. */
  lemma GeneralDefaults(d: Json, b: Build)
    requires Init(Some(d), b).Ok? && d.Obj? && !AppendingPrinter(d)
    ensures var done := Init(Some(d), b).value;
            && Filled(d, done, ["display_rotate"], Num(if b.rotated then 3.0 else 0.0))
            && Filled(d, done, ["touch_calibrated"], Bool(b.calibrate))
            && Filled(d, done, ["prompt_emergency_stop"], Bool(true))
            && Filled(d, done, ["display_sleep_sec"], Num(-1.0))
  {
    GeneralFilled(d, b, 0, ["display_rotate"], Num(if b.rotated then 3.0 else 0.0));
    GeneralFilled(d, b, 1, ["touch_calibrated"], Bool(b.calibrate));
    GeneralFilled(d, b, 2, ["prompt_emergency_stop"], Bool(true));
    GeneralFilled(d, b, 3, ["display_sleep_sec"], Num(-1.0));
  }

  /** Init notes where the file is, and removes the theme. */
  lemma PathAndTheme(d: Json, b: Build)
    requires Init(Some(d), b).Ok?
    ensures var done := Init(Some(d), b).value;
            Get(done, ["config_path"]) == Some(Str(b.configPath)) && Get(done, ["theme"]) == None
  {
    ConfigPathLeaf(d, b, ["config_path"]);
    InitParts(d, b);
  }

  /** The settings of the default printer after init. */
  lemma PrinterDefaults(d: Json, b: Build, base: Path)
    requires Init(Some(d), b).Ok? && d.Obj? && !AppendingPrinter(d) && PrinterBase(d) == Ok(Some(base))
    ensures var done, p := Init(Some(d), b).value, ["printers"] + base;
            && Filled(d, done, p + ["monitored_sensors"], DEFAULT_SENSORS)
            && Filled(d, done, p + ["fans"], DEFAULT_FANS)
            && Filled(d, done, p + ["log_level"], Str("debug"))
            && Filled(d, done, ["powerscreen_init_script"], Str("/etc/init.d/S99powerscreen"))
            && Get(done, p + ["default_macros"]) == Some(MigratedMacros(At(d, p + ["default_macros"])))
            && (At(d, p + ["default_macros"]).Null? ==> Get(done, p + ["default_macros"]) == Some(COMPLETE_MACROS))
            && (var m := At(d, p + ["default_macros"]);
                !m.Null? && !m.Obj? ==> Get(done, p + ["default_macros"]) == Some(Obj(map["cooldown" := ALL_COOL])))
  {
    PrinterEditsPaths(Member(d, "default_printer").s);
    var es := PrinterSettings(base) + GlobalEdits(b);
    FilledByInit(d, b, es, 0);
    FilledByInit(d, b, es, 1);
    FilledByInit(d, b, es, 2);
    FilledByInit(d, b, es, 3);
    FilledByInit(d, b, es, 4);
    MacrosWritten(At(d, ["printers"] + base + ["default_macros"]));
  }

  // ---------------------------------------------------------------- without a file

  lemma GetStep(d: Json, key: string, rest: Path)
    ensures Get(d, [key] + rest) == if Has(d, key) then Get(Child(d, key), rest) else None
  {
    assert ([key] + rest)[1..] == rest;
  }

  lemma FreshPath(b: Build, key: string)
    ensures Get(FreshTree(b), ["printers", "k1", key]) == Get(FreshTree(b).fields["printers"].fields["k1"], [key])
  {
    var d := FreshTree(b);
    FreshTreeShape(b);
    assert ["printers", "k1", key] == ["printers"] + ["k1", key] && ["k1", key] == ["k1"] + [key];
    GetStep(d, "printers", ["k1", key]);
    GetStep(d.fields["printers"], "k1", [key]);
  }

  // A setting of the built-in printer.
  lemma FreshSetting(b: Build, key: string)
    ensures var k1 := FreshTree(b).fields["printers"].fields["k1"];
            Get(FreshTree(b), ["printers"] + ["k1"] + [key]) == if Contains(k1, key) then Some(k1.fields[key]) else None
  {
    FreshPath(b, key);
    KeyGet(FreshTree(b).fields["printers"].fields["k1"], key);
    assert ["printers"] + ["k1"] + [key] == ["printers", "k1", key];
  }

  lemma FreshPrinter(b: Build)
    ensures PrinterBase(FreshTree(b)) == Ok(Some(["k1"])) && !AppendingPrinter(FreshTree(b))
  {
    var d := FreshTree(b);
    FreshTreeShape(b);
    OneToken("k1");
    var p: Path := ["printers"] + ["k1"];
    assert PrinterBase(d) == Ok(Some(["k1"]));
    var printers := Child(d, p[0]);
    assert printers == d.fields["printers"] && printers.Obj?;
    assert p[1..] == ["k1"] && !Appends(printers, ["k1"]) by {
      assert ["k1"][1..] == [];
    }
    assert !Appends(d, p);
  }

  /** What a fresh installation is configured with: the printer that is filled in. */
  lemma FreshInstall(b: Build)
    ensures Init(None, b).Ok?
    ensures var done, p := Init(None, b).value, ["printers"] + ["k1"];
            && Get(done, p + ["monitored_sensors"]) == Some(DEFAULT_SENSORS)
            && Get(done, p + ["fans"]) == Some(DEFAULT_FANS)
            && Get(done, p + ["default_macros"]) == Some(COMPLETE_MACROS)
            && Get(done, p + ["log_level"]) == Some(Str("debug"))
  {
    FreshInstallSucceeds(b);
    FreshPrinter(b);
    PrinterDefaults(FreshTree(b), b, ["k1"]);
    FreshSettings(b);
    MacrosWritten(Null);
  }

  lemma FreshSettings(b: Build)
    ensures var d, p := FreshTree(b), ["printers"] + ["k1"];
            && At(d, p + ["monitored_sensors"]) == DEFAULT_SENSORS
            && At(d, p + ["fans"]) == DEFAULT_FANS
            && At(d, p + ["default_macros"]) == DEFAULT_MACROS
            && At(d, p + ["log_level"]) == Null
  {
    FreshKeys(b);
    FreshSetting(b, "monitored_sensors");
    FreshSetting(b, "fans");
    FreshSetting(b, "default_macros");
    FreshSetting(b, "log_level");
  }

  lemma FreshKeys(b: Build)
    ensures var k1 := FreshTree(b).fields["printers"].fields["k1"];
            && Contains(k1, "monitored_sensors") && k1.fields["monitored_sensors"] == DEFAULT_SENSORS
            && Contains(k1, "fans") && k1.fields["fans"] == DEFAULT_FANS
            && Contains(k1, "default_macros") && k1.fields["default_macros"] == DEFAULT_MACROS
            && !Contains(k1, "log_level")
  {
    assert |"log_level"| == 9 && |"monitored_sensors"| == 17 && |"fans"| == 4 && |"default_macros"| == 14;
    assert |"moonraker_api_key"| == 17 && |"moonraker_host"| == 14 && |"moonraker_port"| == 14;
  }

  lemma KeptByInit(d: Json, b: Build, q: Path, v: Json)
    requires Init(Some(d), b).Ok? && q != [] && !HandledApart(q[0]) && Get(d, q) == Some(v) && Scalar(v)
    requires MacrosPath(d).Some? && !(MacrosPath(d).value <= q)
    ensures Get(Init(Some(d), b).value, q) == Some(v)
  {
    InitKeepsLeaves(d, b, q, v);
    ExpectedOutside(d, b, q, v);
  }

  // What the built-in tree says apart from that comes through init.
  lemma FreshKept(b: Build, q: Path, v: Json)
    requires q != [] && !HandledApart(q[0]) && Get(FreshTree(b), q) == Some(v) && Scalar(v)
    requires MacrosPath(FreshTree(b)).Some? && !(MacrosPath(FreshTree(b)).value <= q)
    ensures Init(None, b).Ok? && Get(Init(None, b).value, q) == Some(v)
  {
    FreshInstallSucceeds(b);
    KeptByInit(FreshTree(b), b, q, v);
  }

  lemma FreshEntryKept(b: Build, key: string, v: Json)
    requires Contains(FreshTree(b), key) && FreshTree(b).fields[key] == v && Scalar(v) && |key| !in {5, 11, 15}
    ensures Init(None, b).Ok? && Get(Init(None, b).value, [key]) == Some(v)
  {
    HandledShort(key);
    KeyGet(FreshTree(b), key);
    MacrosDeep(b);
    FreshKept(b, [key], v);
  }

  lemma MacrosDeep(b: Build)
    ensures MacrosPath(FreshTree(b)).Some? && |MacrosPath(FreshTree(b)).value| == 3
  {
    FreshPrinter(b);
    MacrosAre(FreshTree(b));
  }

  /** The other entries of a fresh installation. */
  lemma FreshEntries(b: Build)
    ensures Init(None, b).Ok?
    ensures var done := Init(None, b).value;
            && Get(done, ["log_path"]) == Some(Str("/usr/data/printer_data/logs/powerscreen.log"))
            && Get(done, ["thumbnail_path"]) == Some(Str(b.thumbDir))
            && Get(done, ["wpa_supplicant"]) == Some(Str("/var/run/wpa_supplicant"))
            && Get(done, ["display_sleep_sec"]) == Some(Num(-1.0))
            && Get(done, ["default_printer"]) == Some(Str("k1"))
  {
    assert |"log_path"| == 8 && |"thumbnail_path"| == 14 && |"wpa_supplicant"| == 14 && |"display_sleep_sec"| == 17;
    assert "thumbnail_path"[0] == 't' && "wpa_supplicant"[0] == 'w';
    FreshEntryKept(b, "log_path", Str("/usr/data/printer_data/logs/powerscreen.log"));
    FreshEntryKept(b, "thumbnail_path", Str(b.thumbDir));
    FreshEntryKept(b, "wpa_supplicant", Str("/var/run/wpa_supplicant"));
    FreshEntryKept(b, "display_sleep_sec", Num(-1.0));
    FreshDefaultPrinter(b);
  }

  lemma FreshDefaultPrinter(b: Build)
    ensures Init(None, b).Ok? && Get(Init(None, b).value, ["default_printer"]) == Some(Str("k1"))
  {
    FreshInstallSucceeds(b);
    KeyGet(FreshTree(b), "default_printer");
    PrinterNameLeaf(FreshTree(b), b, ["default_printer"], Str("k1"));
  }

  lemma HandledShort(key: string)
    requires |key| !in {5, 11, 15}
    ensures !HandledApart(key)
  {
    if HandledApart(key) {
      HandledLength(key);
    }
  }

  lemma PrinterEntryKept(b: Build, key: string, v: Json)
    requires var k1 := FreshTree(b).fields["printers"].fields["k1"]; Contains(k1, key) && k1.fields[key] == v
    requires Scalar(v) && key != "default_macros"
    ensures Init(None, b).Ok? && Get(Init(None, b).value, ["printers"] + ["k1"] + [key]) == Some(v)
  {
    var q := ["printers"] + ["k1"] + [key];
    FreshSetting(b, key);
    HandledShort("printers");
    FreshMacrosApart(b, q);
    FreshKept(b, q, v);
  }

  lemma FreshMacrosApart(b: Build, q: Path)
    requires |q| == 3 && q[2] != "default_macros"
    ensures MacrosPath(FreshTree(b)).Some? && !(MacrosPath(FreshTree(b)).value <= q)
  {
    FreshPrinter(b);
    MacrosAre(FreshTree(b));
    assert MacrosPath(FreshTree(b)).value[2] == PRINTER_KEYS[2];
  }

  /** The connection of the built-in printer. */
  lemma FreshConnection(b: Build)
    ensures Init(None, b).Ok?
    ensures var done, p := Init(None, b).value, ["printers"] + ["k1"];
            && Get(done, p + ["moonraker_api_key"]) == Some(Bool(false))
            && Get(done, p + ["moonraker_host"]) == Some(Str("127.0.0.1"))
            && Get(done, p + ["moonraker_port"]) == Some(Num(7125.0))
  {
    ConnectionKeys(b);
    PrinterEntryKept(b, "moonraker_api_key", Bool(false));
    PrinterEntryKept(b, "moonraker_host", Str("127.0.0.1"));
    PrinterEntryKept(b, "moonraker_port", Num(7125.0));
  }

  lemma ConnectionKeys(b: Build)
    ensures var k1 := FreshTree(b).fields["printers"].fields["k1"];
            && Contains(k1, "moonraker_api_key") && k1.fields["moonraker_api_key"] == Bool(false)
            && Contains(k1, "moonraker_host") && k1.fields["moonraker_host"] == Str("127.0.0.1")
            && Contains(k1, "moonraker_port") && k1.fields["moonraker_port"] == Num(7125.0)
    ensures "default_macros" !in {"moonraker_api_key", "moonraker_host", "moonraker_port"}
  {
    assert "moonraker_host"[10] == 'h' && "moonraker_port"[10] == 'p';
    assert "default_macros"[0] == 'd' && "fans"[0] == 'f' && "monitored_sensors"[2] == 'n';
    assert "moonraker_host"[2] == 'o' && "moonraker_api_key"[2] == 'o' && |"moonraker_api_key"| == 17;
    assert |"moonraker_host"| == 14 && |"moonraker_port"| == 14;
  }
}
