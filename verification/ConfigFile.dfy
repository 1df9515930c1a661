/** The configuration object of config.cpp, whose tree is changed in place. `InitFile` is proved to
    compute ConfigMigration.Init. */
module ConfigFile {
  import opened Wrappers
  import opened Json
  import opened ConfigMigration
  import opened ConfigChain
  import opened ConfigTheorems

  // `d` is the tree after the first `k` of the repairs.
  ghost predicate Reached(start: Json, es: seq<Edit>, k: nat, d: Json) {
    k <= |es| && ApplyAll(start, es[..k]) == Ok(d)
  }

  lemma ReachedFirst(start: Json, es: seq<Edit>)
    ensures Reached(start, es, 0, start)
  {
  }

  lemma ReachedNext(start: Json, es: seq<Edit>, k: nat, d: Json)
    requires Reached(start, es, k, d) && k < |es|
    ensures if ApplyEdit(d, es[k]).Ok? then Reached(start, es, k + 1, ApplyEdit(d, es[k]).value)
            else ApplyAll(start, es).Thrown?
  {
    assert es[..k + 1][..k] == es[..k];
    if ApplyAll(start, es).Ok? {
      PrefixApplied(start, es, k + 1);
    }
  }

  lemma ReachedLast(start: Json, es: seq<Edit>, d: Json)
    requires Reached(start, es, |es|, d)
    ensures ApplyAll(start, es) == Ok(d)
  {
    assert es[..|es|] == es;
  }

  // The prefix and the key make the pointer `p`, and that is where the k-th repair is.
  ghost predicate Leads(prefix: string, key: string, p: Result<Path>, es: seq<Edit>, k: nat, repair: Repair) {
    k < |es| && ParsePointer(prefix + key) == p && (p.Ok? ==> es[k] == Edit(p.value, repair))
  }

  lemma PrinterLeads(name: string, i: nat)
    requires i < 4
    ensures var base, k := UnescapeAll(Split(name)), if i < 3 then i else 4;
            var es := PrinterSettings(if base.Ok? then base.value else []);
            Leads("/printers/" + name + "/", PRINTER_KEYS[i], PrinterPath(name, PRINTER_KEYS[i]), es, k, es[k].repair)
            && PrinterPath(name, PRINTER_KEYS[i]).Ok? == base.Ok?
  {
    SettingPath(name, i);
    assert "/printers/" + name + "/" + PRINTER_KEYS[i] == PrinterPointer(name, PRINTER_KEYS[i]);
  }

  class Config {
    var path: string
    var data: Json
    var defaultPrinter: string

    constructor ()
      ensures path == "" && data == Null && defaultPrinter == ""
    {
      path, data, defaultPrinter := "", Null, "";
    }

    /** `data[pointer]` taken by reference: what is missing is created; the value seen is returned. */
    method Reference(p: Path) returns (r: Result<Json>)
      modifies this`data
      ensures r == (if Touch(old(data), p).Ok? then Ok(At(old(data), p)) else Thrown)
      ensures r.Ok? ==> Ok(data) == Touch(old(data), p)
    {
      var touched := Touch(data, p);
      if touched.Thrown? {
        return Thrown;
      }
      r := Ok(At(data, p));
      data := touched.value;
    }

    method Assign(p: Path, v: Json) returns (ok: bool)
      modifies this`data
      ensures ok <==> Put(old(data), p, v).Ok?
      ensures ok ==> Ok(data) == Put(old(data), p, v)
    {
      var put := Put(data, p, v);
      if put.Ok? {
        data := put.value;
      }
      return put.Ok?;
    }

    /** `if (data[pointer] is null) data[pointer] = v` */
    method FillNull(p: Path, v: Json) returns (ok: bool)
      modifies this`data
      ensures ok <==> ApplyEdit(old(data), Edit(p, Default(v))).Ok?
      ensures ok ==> Ok(data) == ApplyEdit(old(data), Edit(p, Default(v)))
    {
      var seen := Reference(p);
      if seen.Thrown? {
        return false;
      }
      if seen.value.Null? {
        ok := Assign(p, v);
      } else {
        PutSame(old(data), p, seen.value);
        ok := true;
      }
    }

    /** The block that renames macros saved under their old names. */
    method RenameMacros(macros: Json) returns (m: Json)
      ensures m == RenameKeys(macros, 0)
    {
      m := macros;
      for i := 0 to |MACRO_KEYS|
        invariant RenameKeys(m, i) == RenameKeys(macros, 0)
      {
        var key := MACRO_KEYS[i];
        ghost var before := m;
        if Contains(m, key) && m.fields[key].Str? {
          var s := m.fields[key].s;
          for j := 0 to |RENAMED_MACROS|
            invariant RenameFrom(s, j) == RenameFrom(before.fields[key].s, 0)
          {
            if s == RENAMED_MACROS[j].0 {
              s := RENAMED_MACROS[j].1;
            }
          }
          m := Obj(m.fields[key := Str(s)]);
        }
        assert m == RenameAt(before, key);
      }
    }

    method FixMacros(p: Path) returns (ok: bool)
      modifies this`data
      ensures ok <==> ApplyEdit(old(data), Edit(p, Macros)).Ok?
      ensures ok ==> Ok(data) == ApplyEdit(old(data), Edit(p, Macros))
    {
      var seen := Reference(p);
      if seen.Thrown? {
        return false;
      }
      if seen.value.Null? {
        ok := Assign(p, MergePatch(DEFAULT_MACROS, COOLDOWN));
      } else {
        PutSame(old(data), p, seen.value);
        var macros := seen.value;
        if !Contains(macros, "cooldown") {
          macros := MergePatch(macros, COOLDOWN);
        }
        macros := RenameMacros(macros);
        ok := Assign(p, macros);
      }
    }

    /** The pointer `df() + key`. */
    method PrinterReference(key: string) returns (p: Result<Path>)
      ensures p == ParsePointer(defaultPrinter + key)
    {
      p := ParsePointer(defaultPrinter + key);
    }

    /** One setting of the printer: the k-th of the repairs `es` that began with `start`. */
    method FillSetting(ghost at: Result<Path>, ghost es: seq<Edit>, ghost start: Json, ghost k: nat,
                       key: string, v: Json) returns (ok: bool)
      requires Leads(defaultPrinter, key, at, es, k, Default(v)) && Reached(start, es, k, data)
      modifies this`data
      ensures ok ==> at.Ok? && Reached(start, es, k + 1, data)
      ensures !ok ==> at.Thrown? || ApplyAll(start, es).Thrown?
    {
      var p := PrinterReference(key);
      if p.Thrown? {
        return false;
      }
      ReachedNext(start, es, k, data);
      ok := FillNull(p.value, v);
    }

    method FixMacrosSetting(ghost at: Result<Path>, ghost es: seq<Edit>, ghost start: Json, ghost k: nat)
      returns (ok: bool)
      requires Leads(defaultPrinter, "default_macros", at, es, k, Macros) && Reached(start, es, k, data)
      modifies this`data
      ensures ok ==> at.Ok? && Reached(start, es, k + 1, data)
      ensures !ok ==> at.Thrown? || ApplyAll(start, es).Thrown?
    {
      var p := PrinterReference("default_macros");
      if p.Thrown? {
        return false;
      }
      ReachedNext(start, es, k, data);
      ok := FixMacros(p.value);
    }

    /** The repairs that depend on the default printer. */
    method InitPrinter(name: string) returns (ok: bool)
      modifies this`data, this`defaultPrinter
      ensures defaultPrinter == "/printers/" + name + "/"
      ensures var base := UnescapeAll(Split(name));
              && (ok <==> base.Ok? && ApplyAll(old(data), PrinterSettings(base.value)).Ok?)
              && (ok ==> Ok(data) == ApplyAll(old(data), PrinterSettings(base.value)))
    {
      defaultPrinter := "/printers/" + name + "/";
      ghost var base := UnescapeAll(Split(name));
      ghost var es := PrinterSettings(if base.Ok? then base.value else []);
      ReachedFirst(data, es);
      PrinterLeads(name, 0);
      PrinterLeads(name, 1);
      PrinterLeads(name, 2);
      PrinterLeads(name, 3);
      ok := FillPrinter(PrinterPath(name, PRINTER_KEYS[0]), PrinterPath(name, PRINTER_KEYS[1]),
                        PrinterPath(name, PRINTER_KEYS[2]), PrinterPath(name, PRINTER_KEYS[3]), es, data);
    }

    method FillPrinter(ghost sensors: Result<Path>, ghost fans: Result<Path>, ghost macros: Result<Path>,
                       ghost log: Result<Path>, ghost es: seq<Edit>, ghost start: Json)
      returns (ok: bool)
      requires |es| == 5 && Reached(start, es, 0, data)
      requires sensors.Ok? == fans.Ok? == macros.Ok? == log.Ok?
      requires Leads(defaultPrinter, "monitored_sensors", sensors, es, 0, Default(SENSORS))
      requires Leads(defaultPrinter, "fans", fans, es, 1, Default(FANS))
      requires Leads(defaultPrinter, "default_macros", macros, es, 2, Macros)
      requires es[3] == Edit(["powerscreen_init_script"], Default(Str("/etc/init.d/S99powerscreen")))
      requires Leads(defaultPrinter, "log_level", log, es, 4, Default(Str("debug")))
      modifies this`data
      ensures ok <==> sensors.Ok? && ApplyAll(start, es).Ok?
      ensures ok ==> Ok(data) == ApplyAll(start, es)
    {
      ok := FillDevices(sensors, fans, es, start);
      if !ok { return; }
      ok := FillOthers(macros, log, es, start);
    }

    method FillDevices(ghost sensors: Result<Path>, ghost fans: Result<Path>, ghost es: seq<Edit>, ghost start: Json)
      returns (ok: bool)
      requires |es| > 1 && Reached(start, es, 0, data)
      requires Leads(defaultPrinter, "monitored_sensors", sensors, es, 0, Default(SENSORS))
      requires Leads(defaultPrinter, "fans", fans, es, 1, Default(FANS))
      modifies this`data
      ensures ok ==> sensors.Ok? && fans.Ok? && Reached(start, es, 2, data)
      ensures !ok ==> sensors.Thrown? || fans.Thrown? || ApplyAll(start, es).Thrown?
    {
      ok := FillSetting(sensors, es, start, 0, "monitored_sensors", SENSORS);
      if !ok { return; }
      ok := FillSetting(fans, es, start, 1, "fans", FANS);
    }

    method FillOthers(ghost macros: Result<Path>, ghost log: Result<Path>, ghost es: seq<Edit>, ghost start: Json)
      returns (ok: bool)
      requires |es| == 5 && Reached(start, es, 2, data)
      requires Leads(defaultPrinter, "default_macros", macros, es, 2, Macros)
      requires es[3] == Edit(["powerscreen_init_script"], Default(Str("/etc/init.d/S99powerscreen")))
      requires Leads(defaultPrinter, "log_level", log, es, 4, Default(Str("debug")))
      modifies this`data
      ensures ok ==> macros.Ok? && log.Ok? && Ok(data) == ApplyAll(start, es)
      ensures !ok ==> macros.Thrown? || log.Thrown? || ApplyAll(start, es).Thrown?
    {
      ok := FixMacrosSetting(macros, es, start, 2);
      if !ok { return; }
      ok := FillScriptAndLog(log, es, start);
    }

    method FillScriptAndLog(ghost log: Result<Path>, ghost es: seq<Edit>, ghost start: Json) returns (ok: bool)
      requires |es| == 5 && Reached(start, es, 3, data)
      requires es[3] == Edit(["powerscreen_init_script"], Default(Str("/etc/init.d/S99powerscreen")))
      requires Leads(defaultPrinter, "log_level", log, es, 4, Default(Str("debug")))
      modifies this`data
      ensures ok ==> log.Ok? && Ok(data) == ApplyAll(start, es)
      ensures !ok ==> log.Thrown? || ApplyAll(start, es).Thrown?
    {
      ok := FillGlobal(es, start, 3, "powerscreen_init_script", Str("/etc/init.d/S99powerscreen"));
      if !ok { return; }
      ok := FillSetting(log, es, start, 4, "log_level", Str("debug"));
      if !ok { return; }
      ReachedLast(start, es, data);
    }

    /** The repairs that every configuration gets. */
    method InitGlobals(b: Build) returns (ok: bool)
      modifies this`data
      ensures ok <==> ApplyAll(old(data), GlobalEdits(b)).Ok?
      ensures ok ==> Ok(data) == ApplyAll(old(data), GlobalEdits(b))
    {
      ReachedFirst(data, GlobalEdits(b));
      ok := FillGlobals(b, GlobalEdits(b), data);
    }

    method FillGlobals(b: Build, ghost es: seq<Edit>, ghost start: Json) returns (ok: bool)
      requires |es| == 4 && Reached(start, es, 0, data)
      requires es[0] == Edit(["display_rotate"], Default(Num(if b.rotated then 3.0 else 0.0)))
      requires es[1] == Edit(["touch_calibrated"], Default(Bool(b.calibrate)))
      requires es[2] == Edit(["prompt_emergency_stop"], Default(Bool(true)))
      requires es[3] == Edit(["display_sleep_sec"], Default(Num(-1.0)))
      modifies this`data
      ensures ok <==> ApplyAll(start, es).Ok?
      ensures ok ==> Ok(data) == ApplyAll(start, es)
    {
      ok := FillGlobal(es, start, 0, "display_rotate", Num(if b.rotated then 3.0 else 0.0));
      if !ok { return; }
      ok := FillGlobal(es, start, 1, "touch_calibrated", Bool(b.calibrate));
      if !ok { return; }
      ok := FillGlobal(es, start, 2, "prompt_emergency_stop", Bool(true));
      if !ok { return; }
      ok := FillGlobal(es, start, 3, "display_sleep_sec", Num(-1.0));
      if !ok { return; }
      ReachedLast(start, es, data);
    }

    method FillGlobal(ghost es: seq<Edit>, ghost start: Json, ghost k: nat, key: string, v: Json) returns (ok: bool)
      requires k < |es| && es[k] == Edit([key], Default(v)) && Reached(start, es, k, data)
      modifies this`data
      ensures if ok then Reached(start, es, k + 1, data) else ApplyAll(start, es).Thrown?
    {
      ReachedNext(start, es, k, data);
      ok := FillNull([key], v);
    }

    /** `data["config_path"] = ...`, then a look at `default_printer`, which creates it. */
    method OpenTree(b: Build) returns (printer: Result<Json>)
      modifies this`data
      ensures printer.Ok? <==> Opened(old(data), b).Ok?
      ensures printer.Ok? ==> Ok(data) == Opened(old(data), b) && printer.value == Member(data, "default_printer")
    {
      if !(data.Obj? || data.Null?) {
        return Thrown;
      }
      data := Obj((if data.Obj? then data.fields else map[])["config_path" := Str(b.configPath)]);
      TouchKey(data.fields, "default_printer");
      printer := Reference(["default_printer"]);
    }

    /** All repairs, below the default printer if there is one and then the general ones. */
    method RepairAll(printer: Json, b: Build) returns (ok: bool)
      modifies this`data, this`defaultPrinter
      ensures ok <==> Edits(printer, b).Ok? && ApplyAll(old(data), Edits(printer, b).value).Ok?
      ensures ok ==> Ok(data) == ApplyAll(old(data), Edits(printer, b).value)
      ensures ok && printer.Str? ==> defaultPrinter == "/printers/" + printer.s + "/"
    {
      ghost var start := data;
      if !printer.Null? {
        if !printer.Str? {
          return false;
        }
        PrinterEditsPaths(printer.s);
        ghost var base := UnescapeAll(Split(printer.s));
        if base.Ok? {
          AppendApplied(start, PrinterSettings(base.value), GlobalEdits(b));
        }
        ok := InitPrinter(printer.s);
        if !ok { return; }
      }
      ok := InitGlobals(b);
    }

    /** Config::init, up to writing the file back. False when an exception leaves it. */
    method InitFile(file: Option<Json>, b: Build) returns (ok: bool)
      modifies this
      ensures path == b.configPath
      ensures ok <==> Init(file, b).Ok?
      ensures ok ==> Ok(data) == Init(file, b)
      ensures ok ==> var start := Opened(if file.Some? then file.value else FreshTree(b), b).value;
                     var printer := Member(start, "default_printer");
                     printer.Str? ==> defaultPrinter == "/printers/" + printer.s + "/"
    {
      path := b.configPath;
      data := if file.Some? then file.value else FreshTree(b);
      var printer := OpenTree(b);
      if printer.Thrown? {
        return false;
      }
      ok := RepairAll(printer.value, b);
      if !ok { return; }
      if !data.Obj? {
        return false;
      }
      data := Obj(data.fields - {"theme"});
    }
  }

  lemma TouchKey(fields: map<string, Json>, key: string)
    ensures var seen := Member(Obj(fields), key);
            At(Obj(fields), [key]) == seen && Touch(Obj(fields), [key]) == Ok(Obj(fields[key := seen]))
  {
    var p, seen := [key], Member(Obj(fields), key);
    assert p[1..] == [] && p[0] == key && Child(Obj(fields), key) == seen;
    assert Put(seen, p[1..], seen) == Ok(seen);
    assert key in fields ==> Get(seen, p[1..]) == Some(seen);
  }

  lemma {:induction false} AppendApplied(d: Json, es: seq<Edit>, fs: seq<Edit>)
    ensures ApplyAll(d, es + fs) == if ApplyAll(d, es).Ok? then ApplyAll(ApplyAll(d, es).value, fs) else Thrown
  {
    if fs == [] {
      assert es + fs == es;
    } else {
      var n := |fs| - 1;
      assert (es + fs)[..|es| + n] == es + fs[..n];
      AppendApplied(d, es, fs[..n]);
    }
  }
}
