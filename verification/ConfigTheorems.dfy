/** What Config::init promises: it repairs every setting it is responsible for, and doing it again changes
    nothing; and on which trees it succeeds. */
module ConfigTheorems {
  import opened Wrappers
  import opened Json
  import opened ConfigMigration
  import opened ConfigChain

  // ---------------------------------------------------------------- the paths of Config::init

  lemma {:induction false} DivergeLast(p: Path, a: string, b: string)
    requires a != b
    ensures Diverge(p + [a], p + [b])
  {
    if p != [] {
      assert (p + [a])[1..] == p[1..] + [a] && (p + [b])[1..] == p[1..] + [b];
      DivergeLast(p[1..], a, b);
    }
  }

  const PLAIN_KEYS :=
    {"display_rotate", "touch_calibrated", "prompt_emergency_stop", "display_sleep_sec", "powerscreen_init_script"}

  // Either one of the plain settings, or a setting of the printer.
  ghost predicate OwnPath(p: Path) {
    |p| > 0 && (p[0] == "printers" || (|p| == 1 && p[0] in PLAIN_KEYS))
  }

  const PRINTER_KEYS := ["monitored_sensors", "fans", "default_macros", "log_level"]

  function Setting(base: Path, i: nat): Path
    requires i < 4
  {
    ["printers"] + base + [PRINTER_KEYS[i]]
  }

  function PrinterSettings(base: Path): seq<Edit> {
    [Edit(Setting(base, 0), Default(SENSORS)), Edit(Setting(base, 1), Default(FANS)), Edit(Setting(base, 2), Macros),
     Edit(["powerscreen_init_script"], Default(Str("/etc/init.d/S99powerscreen"))),
     Edit(Setting(base, 3), Default(Str("debug")))]
  }

  predicate Plain(key: string) {
    '/' !in key && '~' !in key
  }

  lemma PrinterKeysPlain(i: nat)
    requires i < 4
    ensures Plain(PRINTER_KEYS[i])
  {
  }

  lemma SettingPath(name: string, i: nat)
    requires i < 4
    ensures var base := UnescapeAll(Split(name));
            PrinterPath(name, PRINTER_KEYS[i]) == if base.Ok? then Ok(Setting(base.value, i)) else Thrown
  {
    PrinterKeysPlain(i);
    PrinterPathShape(name, PRINTER_KEYS[i]);
  }

  lemma PrinterEditsPaths(name: string)
    ensures var base := UnescapeAll(Split(name));
            PrinterEdits(name) == if base.Ok? then Ok(PrinterSettings(base.value)) else Thrown
  {
    SettingPath(name, 0);
    SettingPath(name, 1);
    SettingPath(name, 2);
    SettingPath(name, 3);
  }

  lemma PrinterSettingsApart(base: Path)
    ensures Apart(PrinterSettings(base))
  {
    assert PRINTER_KEYS[0][0] == 'm' && PRINTER_KEYS[1][0] == 'f';
    assert PRINTER_KEYS[2][0] == 'd' && PRINTER_KEYS[3][0] == 'l';
    forall i: nat, j: nat | i < 4 && j < 4 && i != j
      ensures Diverge(Setting(base, i), Setting(base, j))
    {
      DivergeLast(["printers"] + base, PRINTER_KEYS[i], PRINTER_KEYS[j]);
    }
    forall i: nat | i < 4
      ensures Diverge(Setting(base, i), ["powerscreen_init_script"])
      ensures Diverge(["powerscreen_init_script"], Setting(base, i))
    {
      assert Setting(base, i)[0] == "printers" && |"printers"| != |"powerscreen_init_script"|;
    }
  }

  lemma GlobalEditsApart(b: Build)
    ensures Apart(GlobalEdits(b))
  {
    var es := GlobalEdits(b);
    assert |es[0].path[0]| == 14 && |es[1].path[0]| == 16 && |es[2].path[0]| == 21 && |es[3].path[0]| == 17;
  }

  lemma ApartTogether(es: seq<Edit>, fs: seq<Edit>)
    requires Apart(es) && Apart(fs)
    requires forall i: nat, j: nat | i < |es| && j < |fs| ::
               Diverge(es[i].path, fs[j].path) && Diverge(fs[j].path, es[i].path)
    ensures Apart(es + fs)
  {
  }

  ghost predicate AllOwn(es: seq<Edit>) {
    forall e <- es :: OwnPath(e.path) && e.repair.Proper()
  }

  lemma PrinterSettingsOwn(base: Path)
    ensures AllOwn(PrinterSettings(base))
  {
    assert "powerscreen_init_script" in PLAIN_KEYS;
  }

  lemma GlobalEditsOwn(b: Build)
    ensures AllOwn(GlobalEdits(b))
  {
  }

  lemma SettingsAwayFromGlobals(base: Path, b: Build, i: nat, j: nat)
    requires i < 5 && j < 4
    ensures var p, q := PrinterSettings(base)[i].path, GlobalEdits(b)[j].path; Diverge(p, q) && Diverge(q, p)
  {
    HeadsDiffer(PrinterSettings(base)[i].path[0], GlobalEdits(b)[j].path[0], j, b);
  }

  /** The repairs never step on each other, and stay clear of the entries that init handles apart. */
  lemma EditsApart(printer: Json, b: Build)
    requires Edits(printer, b).Ok?
    ensures Apart(Edits(printer, b).value) && AllOwn(Edits(printer, b).value)
  {
    GlobalEditsApart(b);
    GlobalEditsOwn(b);
    if printer.Str? {
      PrinterEditsPaths(printer.s);
      var base := UnescapeAll(Split(printer.s)).value;
      var ps, gs := PrinterSettings(base), GlobalEdits(b);
      PrinterSettingsApart(base);
      PrinterSettingsOwn(base);
      forall i: nat, j: nat | i < |ps| && j < |gs|
        ensures Diverge(ps[i].path, gs[j].path) && Diverge(gs[j].path, ps[i].path)
      {
        SettingsAwayFromGlobals(base, b, i, j);
      }
      ApartTogether(ps, gs);
    }
  }

  lemma HeadsDiffer(h: string, g: string, j: nat, b: Build)
    requires h == "printers" || h == "powerscreen_init_script"
    requires j < 4 && g == GlobalEdits(b)[j].path[0]
    ensures h != g
  {
    assert |h| == 8 || |h| == 23;
    assert |g| == 14 || |g| == 16 || |g| == 21 || |g| == 17;
  }

  // ---------------------------------------------------------------- Config::init as a whole

  predicate HandledApart(key: string) {
    key == "config_path" || key == "default_printer" || key == "theme"
  }

  lemma OwnHeadLength(p: Path)
    requires OwnPath(p)
    ensures |p[0]| in {8, 14, 16, 17, 21, 23}
  {
    if p[0] != "printers" {
      assert p[0] in PLAIN_KEYS;
    }
  }

  lemma HandledLength(key: string)
    requires HandledApart(key)
    ensures |key| in {5, 11, 15}
  {
  }

  lemma OwnPathsApart(p: Path, q: Path)
    requires OwnPath(p) && q != [] && HandledApart(q[0])
    ensures Diverge(p, q)
  {
    OwnHeadLength(p);
    HandledLength(q[0]);
  }

  lemma DropTheme(d: Json, q: Path)
    requires d.Obj? && q != []
    ensures Get(WithoutTheme(d).value, q) == if q[0] == "theme" then None else Get(d, q)
  {
  }

  /** The parts of a successful run. */
  lemma InitParts(d: Json, b: Build)
    requires Init(Some(d), b).Ok?
    ensures Opened(d, b).Ok?
    ensures var start := Opened(d, b).value; var edits := Edits(Member(start, "default_printer"), b);
            && edits.Ok? && Apart(edits.value) && AllOwn(edits.value)
            && ApplyAll(start, edits.value).Ok?
            && Init(Some(d), b) == WithoutTheme(ApplyAll(start, edits.value).value)
            && ApplyAll(start, edits.value).value.Obj?
  {
    EditsApart(Member(Opened(d, b).value, "default_printer"), b);
  }

  // Opening concerns two entries only.
  lemma OpenedKeeps(d: Json, b: Build, p: Path)
    requires d.Obj? && p != [] && p[0] != "config_path" && p[0] != "default_printer"
    ensures var start := Opened(d, b).value;
            && Get(start, p) == Get(d, p)
            && (Appends(start, p) <==> Appends(d, p))
            && (Straight(start, p) <==> Straight(d, p))
  {
    assert Child(Opened(d, b).value, p[0]) == Child(d, p[0]);
  }

  lemma OpenedPrinter(d: Json, b: Build)
    requires d.Obj? || d.Null?
    ensures Member(Opened(d, b).value, "default_printer") == Member(d, "default_printer")
  {
    assert "config_path" != "default_printer" by { assert |"config_path"| != |"default_printer"|; }
  }

  /** Entries of other names come through the whole chain as they were opened. */
  lemma InitElsewhere(d: Json, b: Build, q: Path)
    requires Init(Some(d), b).Ok? && (q == ["config_path"] || q == ["default_printer"])
    ensures Get(Init(Some(d), b).value, q) == Get(Opened(d, b).value, q)
  {
    InitParts(d, b);
    var start := Opened(d, b).value;
    var edits := Edits(Member(start, "default_printer"), b).value;
    forall e <- edits
      ensures Diverge(e.path, q)
    {
      OwnPathsApart(e.path, q);
    }
    AllElsewhere(start, edits, q);
    DropTheme(ApplyAll(start, edits).value, q);
    assert "config_path"[0] != 't' && "default_printer"[0] != 't' && "theme"[0] == 't';
    KeyGet(start, q[0]);
  }

  lemma KeyGet(d: Json, key: string)
    requires d.Obj?
    ensures Get(d, [key]) == if Contains(d, key) then Some(Member(d, key)) else None
  {
    assert [key][1..] == [];
  }

  // ---------------------------------------------------------------- settings behind the end of an array

  /** Where the default printer's settings are, if there is a default printer. */
  function PrinterBase(d: Json): Result<Option<Path>> {
    match Member(d, "default_printer")
    case Null => Ok(None)
    case Str(name) => var base :- UnescapeAll(Split(name)); Ok(Some(base))
    case _ => Thrown
  }

  /** The printer's name leads behind the end of an array: it has a "-" where an array or null is. */
  predicate AppendingPrinter(d: Json) {
    var base := PrinterBase(d);
    base.Ok? && base.value.Some? && Appends(d, ["printers"] + base.value.value)
  }

  lemma PrinterKeyWord(i: nat)
    requires i < 4
    ensures |PRINTER_KEYS[i]| > 1 && 'a' <= PRINTER_KEYS[i][0] <= 'z'
  {
  }

  lemma SettingAppends(d: Json, base: Path, i: nat)
    requires i < 4
    ensures Appends(d, Setting(base, i)) <==> Appends(d, ["printers"] + base)
  {
    PrinterKeyWord(i);
    AppendsBefore(d, ["printers"] + base, PRINTER_KEYS[i]);
  }

  // Where the k-th repair is one of the printer's settings, and which one.
  predicate IsSetting(d: Json, k: nat) {
    PrinterBase(d).Ok? && PrinterBase(d).value.Some? && k < 5 && k != 3
  }

  function SettingIndex(k: nat): nat {
    if k == 4 then 3 else k
  }

  lemma GlobalShape(b: Build, j: nat)
    requires j < 4
    ensures var p := GlobalEdits(b)[j].path; |p| == 1 && p[0] != "printers"
  {
    assert |GlobalEdits(b)[j].path[0]| > |"printers"|;
  }

  lemma SettingShape(base: Path, k: nat)
    requires k < 5
    ensures var p := PrinterSettings(base)[k].path;
            if k == 3 then |p| == 1 && p[0] != "printers" else p == Setting(base, SettingIndex(k))
  {
    assert |"powerscreen_init_script"| != |"printers"|;
  }

  /** A repair is one of the printer's settings, or one entry of the root that is not `printers`. */
  lemma EditShape(d: Json, b: Build, k: nat)
    requires Edits(Member(d, "default_printer"), b).Ok?
    requires k < |Edits(Member(d, "default_printer"), b).value|
    ensures PrinterBase(d).Ok?
    ensures var p := Edits(Member(d, "default_printer"), b).value[k].path;
            if IsSetting(d, k) then p == Setting(PrinterBase(d).value.value, SettingIndex(k))
            else |p| == 1 && p[0] != "printers"
  {
    var printer := Member(d, "default_printer");
    if printer.Str? {
      PrinterEditsPaths(printer.s);
      var ps := PrinterSettings(UnescapeAll(Split(printer.s)).value);
      assert Edits(printer, b).value == ps + GlobalEdits(b);
      if k < 5 {
        SettingShape(PrinterBase(d).value.value, k);
      } else {
        GlobalShape(b, k - 5);
      }
    } else {
      GlobalShape(b, k);
    }
  }

  /** A repair appends exactly if it is one of the printer's settings and the printer's name does. */
  lemma RepairAppends(d: Json, b: Build, k: nat)
    requires d.Obj? && Edits(Member(d, "default_printer"), b).Ok?
    requires k < |Edits(Member(d, "default_printer"), b).value|
    ensures Appends(d, Edits(Member(d, "default_printer"), b).value[k].path) <==> AppendingPrinter(d) && IsSetting(d, k)
  {
    EditShape(d, b, k);
    if IsSetting(d, k) {
      SettingAppends(d, PrinterBase(d).value.value, SettingIndex(k));
    }
  }

  // ---------------------------------------------------------------- what init repairs

  lemma ChainRepairs(d: Json, b: Build, es: seq<Edit>, k: nat)
    requires d.Obj? && Edits(Member(d, "default_printer"), b) == Ok(es) && ApplyAll(d, es).Ok? && k < |es|
    ensures Get(ApplyAll(d, es).value, es[k].path) ==
            if AppendingPrinter(d) && IsSetting(d, k) then None else Some(es[k].repair.Fix(At(d, es[k].path)))
  {
    EditsApart(Member(d, "default_printer"), b);
    EditShape(d, b, k);
    if !AppendingPrinter(d) {
      AllArePlaces(d, b);
      AllApplied(d, es, k);
    } else if IsSetting(d, k) {
      var base := PrinterBase(d).value.value;
      ChainGrows(d, b, base, es);
      AppendsThrough(ApplyAll(d, es).value, ["printers"] + base, [PRINTER_KEYS[SettingIndex(k)]]);
    } else {
      OtherHeads(es, k);
      OneKeyApplied(d, es, k);
    }
  }

  lemma DivergeFromKey(p: Path, q: Path)
    requires Diverge(p, q) && |q| == 1
    ensures p != [] && p[0] != q[0]
  {
    assert !Diverge(p[1..], q[1..]);
  }

  lemma OtherHeads(es: seq<Edit>, k: nat)
    requires Apart(es) && k < |es| && |es[k].path| == 1
    ensures forall i: nat | i < |es| && i != k :: es[i].path != [] && es[i].path[0] != es[k].path[0]
  {
    forall i: nat | i < |es| && i != k
      ensures es[i].path != [] && es[i].path[0] != es[k].path[0]
    {
      DivergeFromKey(es[i].path, es[k].path);
    }
  }

  /** Every setting init is responsible for holds its repaired value afterwards, there and not null; only
      the settings of a printer whose name appends are still missing. */
  lemma InitRepairsAll(d: Json, b: Build, k: nat)
    requires Init(Some(d), b).Ok?
    requires k < |Edits(Member(Opened(d, b).value, "default_printer"), b).value|
    ensures var start := Opened(d, b).value; var e := Edits(Member(start, "default_printer"), b).value[k];
            && Get(Init(Some(d), b).value, e.path) ==
                 (if AppendingPrinter(d) && IsSetting(d, k) then None else Some(e.repair.Fix(At(start, e.path))))
            && !e.repair.Fix(At(start, e.path)).Null?
            && e.repair.Fix(e.repair.Fix(At(start, e.path))) == e.repair.Fix(At(start, e.path))
  {
    InitParts(d, b);
    var start := Opened(d, b).value;
    var edits := Edits(Member(start, "default_printer"), b).value;
    OpenedAppends(d, b);
    OpenedPrinter(d, b);
    ChainRepairs(start, b, edits, k);
    OwnHeadLength(edits[k].path);
    DropTheme(ApplyAll(start, edits).value, edits[k].path);
    FixTwice(edits[k].repair, At(start, edits[k].path));
  }

  lemma AllArePlaces(d: Json, b: Build)
    requires d.Obj? && Edits(Member(d, "default_printer"), b).Ok? && !AppendingPrinter(d)
    ensures Places(d, Edits(Member(d, "default_printer"), b).value)
  {
    var es := Edits(Member(d, "default_printer"), b).value;
    forall e <- es
      ensures !Appends(d, e.path)
    {
      var k: nat :| k < |es| && es[k] == e;
      RepairAppends(d, b, k);
    }
  }

  lemma OpenedAppends(d: Json, b: Build)
    requires Opened(d, b).Ok?
    ensures AppendingPrinter(Opened(d, b).value) <==> AppendingPrinter(d)
  {
    OpenedPrinter(d, b);
    if d.Obj? && PrinterBase(d).Ok? && PrinterBase(d).value.Some? {
      assert |"printers"| == 8 && |"config_path"| == 11 && |"default_printer"| == 15;
      OpenedKeeps(d, b, ["printers"] + PrinterBase(d).value.value);
    }
  }

  lemma EntryKept(d: Json, b: Build, key: string)
    requires Init(Some(d), b).Ok? && (key == "config_path" || key == "default_printer")
    ensures var start, done := Opened(d, b).value, Init(Some(d), b).value;
            done.Obj? && Contains(done, key) && done.fields[key] == Member(start, key)
  {
    InitParts(d, b);
    InitElsewhere(d, b, [key]);
    KeyGet(Opened(d, b).value, key);
    KeyGet(Init(Some(d), b).value, key);
  }

  lemma OpenedAgain(d: Json, b: Build)
    requires Init(Some(d), b).Ok?
    ensures var done := Init(Some(d), b).value;
            && Opened(done, b) == Ok(done)
            && Member(done, "default_printer") == Member(Opened(d, b).value, "default_printer")
  {
    var done := Init(Some(d), b).value;
    EntryKept(d, b, "config_path");
    EntryKept(d, b, "default_printer");
    assert "config_path" != "default_printer" by { assert |"config_path"| != |"default_printer"|; }
    assert done.fields["config_path" := Str(b.configPath)] == done.fields;
    assert done.fields["default_printer" := Member(done, "default_printer")] == done.fields;
  }

  // ---------------------------------------------------------------- doing it again

  lemma AgainUnchanged(d: Json, b: Build)
    requires Init(Some(d), b).Ok? && !AppendingPrinter(d)
    ensures Init(Some(Init(Some(d), b).value), b) == Init(Some(d), b)
  {
    InitParts(d, b);
    OpenedAgain(d, b);
    var edits := Edits(Member(Opened(d, b).value, "default_printer"), b).value;
    var done := Init(Some(d), b).value;
    forall e <- edits
      ensures Get(done, e.path).Some? && e.repair.Fix(Get(done, e.path).value) == Get(done, e.path).value
    {
      var k: nat :| k < |edits| && edits[k] == e;
      InitRepairsAll(d, b, k);
    }
    AllAgain(done, edits);
    assert done.fields - {"theme"} == done.fields;
  }

  // One repair, whose path may lead through the growing array.
  lemma StepGrows(d: Json, e: Edit, base: Path)
    requires d.Obj? && Appends(d, ["printers"] + base) && GrowsOrPlain(e, base) && ApplyEdit(d, e).Ok?
    ensures var p, r := ["printers"] + base, ApplyEdit(d, e).value;
            && r.Obj? && Appends(r, p)
            && GrowingLength(r, p) >= GrowingLength(d, p) + if p <= e.path then 1 else 0
  {
    var p, seen := ["printers"] + base, At(d, e.path);
    var touched := Touch(d, e.path).value;
    if p <= e.path {
      var rest := e.path[|p|..];
      assert p + rest == e.path;
      AppendsThrough(d, p, rest);
      assert seen.Null?;
      PutGrows(d, p, rest, seen);
      PutGrows(touched, p, rest, e.repair.Fix(seen));
      assert e.path[0] == "printers";
    } else {
      KeyApplied(d, e);
      assert Child(ApplyEdit(d, e).value, "printers") == Child(d, "printers");
    }
  }

  ghost predicate GrowsOrPlain(e: Edit, base: Path) {
    ["printers"] + base <= e.path || (|e.path| == 1 && e.path[0] != "printers")
  }

  lemma {:induction false} ManyGrow(d: Json, es: seq<Edit>, base: Path)
    requires d.Obj? && Appends(d, ["printers"] + base) && ApplyAll(d, es).Ok?
    requires forall e <- es :: GrowsOrPlain(e, base)
    ensures var p, r := ["printers"] + base, ApplyAll(d, es).value;
            && r.Obj? && Appends(r, p)
            && GrowingLength(r, p) >= GrowingLength(d, p) + if es != [] && p <= es[0].path then 1 else 0
  {
    if es != [] {
      var n := |es| - 1;
      ManyGrow(d, es[..n], base);
      assert GrowsOrPlain(es[n], base);
      StepGrows(ApplyAll(d, es[..n]).value, es[n], base);
    }
  }

  lemma ChainGrows(d: Json, b: Build, base: Path, es: seq<Edit>)
    requires d.Obj? && Edits(Member(d, "default_printer"), b) == Ok(es) && PrinterBase(d) == Ok(Some(base))
    requires Appends(d, ["printers"] + base) && ApplyAll(d, es).Ok?
    ensures var p, r := ["printers"] + base, ApplyAll(d, es).value;
            r.Obj? && Appends(r, p) && GrowingLength(r, p) > GrowingLength(d, p)
  {
    forall e <- es
      ensures GrowsOrPlain(e, base)
    {
      var k: nat :| k < |es| && es[k] == e;
      EditShape(d, b, k);
    }
    PrinterEditsPaths(Member(d, "default_printer").s);
    assert IsSetting(d, 0) && es != [];
    EditShape(d, b, 0);
    ManyGrow(d, es, base);
  }

  // Dropping the theme does not concern the printers.
  lemma ThemeGrows(d: Json, p: Path)
    requires d.Obj? && p != [] && p[0] == "printers" && Appends(d, p)
    ensures var r := WithoutTheme(d).value; Appends(r, p) && GrowingLength(r, p) == GrowingLength(d, p)
  {
    assert |"printers"| != |"theme"|;
    assert Child(WithoutTheme(d).value, p[0]) == Child(d, p[0]);
  }

  lemma AgainGrows(d: Json, b: Build)
    requires Init(Some(d), b).Ok? && AppendingPrinter(d)
    ensures Init(Some(Init(Some(d), b).value), b) != Init(Some(d), b)
  {
    InitParts(d, b);
    OpenedAppends(d, b);
    OpenedPrinter(d, b);
    OpenedAgain(d, b);
    var start, done := Opened(d, b).value, Init(Some(d), b).value;
    var edits, base := Edits(Member(start, "default_printer"), b).value, PrinterBase(d).value.value;
    var p := ["printers"] + base;
    ChainGrows(start, b, base, edits);
    ThemeGrows(ApplyAll(start, edits).value, p);
    if ApplyAll(done, edits).Ok? {
      ChainGrows(done, b, base, edits);
      ThemeGrows(ApplyAll(done, edits).value, p);
    }
  }

  /** Running init again on its own result changes nothing, whatever tree it started from, exactly if the
      printer's name does not append; if it does, every run makes an array longer. */
  lemma InitIdempotent(d: Json, b: Build)
    requires Init(Some(d), b).Ok?
    ensures Init(Some(Init(Some(d), b).value), b) == Init(Some(d), b) <==> !AppendingPrinter(d)
  {
    if AppendingPrinter(d) {
      AgainGrows(d, b);
    } else {
      AgainUnchanged(d, b);
    }
  }

  // ---------------------------------------------------------------- when init succeeds

  // The settings of the printer, if there is one, can be reached.
  ghost predicate Reachable(d: Json, base: Option<Path>) {
    d.Obj? && (base.Some? ==> Put(d, Setting(base.value, 0), Null).Ok?)
  }

  lemma WordNotArray(key: string)
    requires |key| > 1 && 'a' <= key[0] <= 'z'
    ensures !ArrayToken(key)
  {
    assert key[0] in key;
  }

  lemma PrinterKeysNotArrays(i: nat)
    requires i < 4
    ensures !ArrayToken(PRINTER_KEYS[i])
  {
    PrinterKeyWord(i);
    WordNotArray(PRINTER_KEYS[i]);
  }

  lemma SettingReachable(d: Json, base: Path, i: nat, j: nat, v: Json, w: Json)
    requires i < 4 && j < 4 && Put(d, Setting(base, i), v).Ok?
    ensures Put(d, Setting(base, j), w).Ok?
    ensures Put(Put(d, Setting(base, i), v).value, Setting(base, j), w).Ok?
  {
    PrinterKeysNotArrays(i);
    PrinterKeysNotArrays(j);
    PutSibling(d, ["printers"] + base, PRINTER_KEYS[i], PRINTER_KEYS[j], v, w);
    SiblingsAlike(d, ["printers"] + base, PRINTER_KEYS[i], PRINTER_KEYS[j], v, w);
  }

  ghost predicate OwnPlace(p: Path, base: Option<Path>) {
    || (|p| == 1 && p[0] != "printers")
    || (base.Some? && exists i: nat :: i < 4 && p == Setting(base.value, i))
  }

  lemma PutReachable(d: Json, p: Path, v: Json, base: Option<Path>)
    requires Reachable(d, base) && OwnPlace(p, base)
    ensures Put(d, p, v).Ok? && Reachable(Put(d, p, v).value, base)
  {
    if |p| == 1 && p[0] != "printers" {
      KeyPut(d, p[0], v);
      assert p == [p[0]];
      if base.Some? {
        PutThroughMember(d, Put(d, p, v).value, Setting(base.value, 0), Null);
      }
    } else {
      var i: nat :| i < 4 && p == Setting(base.value, i);
      SettingReachable(d, base.value, 0, i, Null, v);
      SettingReachable(d, base.value, i, 0, v, Null);
    }
  }

  lemma EditSucceeds(d: Json, e: Edit, base: Option<Path>)
    requires Reachable(d, base) && OwnPlace(e.path, base)
    ensures ApplyEdit(d, e).Ok? && Reachable(ApplyEdit(d, e).value, base)
  {
    var seen := At(d, e.path);
    PutReachable(d, e.path, seen, base);
    PutReachable(if seen.Null? then Touch(d, e.path).value else d, e.path, e.repair.Fix(seen), base);
  }

  lemma {:induction false} ChainSucceeds(d: Json, es: seq<Edit>, base: Option<Path>)
    requires Reachable(d, base) && forall e <- es :: OwnPlace(e.path, base)
    ensures ApplyAll(d, es).Ok? && Reachable(ApplyAll(d, es).value, base)
  {
    if es != [] {
      ChainSucceeds(d, es[..|es| - 1], base);
      EditSucceeds(ApplyAll(d, es[..|es| - 1]).value, es[|es| - 1], base);
    }
  }

  lemma EditsOwn(d: Json, b: Build)
    requires PrinterBase(d).Ok?
    ensures Edits(Member(d, "default_printer"), b).Ok?
    ensures forall e <- Edits(Member(d, "default_printer"), b).value :: OwnPlace(e.path, PrinterBase(d).value)
  {
    var base := PrinterBase(d).value;
    GlobalsOwn(b, base);
    if base.Some? {
      PrinterEditsPaths(Member(d, "default_printer").s);
      SettingsOwn(base.value);
    }
  }

  lemma GlobalsOwn(b: Build, base: Option<Path>)
    ensures forall e <- GlobalEdits(b) :: OwnPlace(e.path, base)
  {
    assert forall e <- GlobalEdits(b) :: |e.path| == 1 && |e.path[0]| > |"printers"|;
  }

  lemma SettingsOwn(base: Path)
    ensures forall e <- PrinterSettings(base) :: OwnPlace(e.path, Some(base))
  {
    assert |"powerscreen_init_script"| != |"printers"|;
  }

  /** Init throws on no other trees than these: the root is neither an object nor null; the default printer
      is neither a string nor null; its name has a stray '~'; or a step on the way to its settings is not
      possible. */
  lemma InitSucceedsExactly(d: Json, b: Build)
    ensures Init(Some(d), b).Ok? <==>
            && (d.Obj? || d.Null?)
            && PrinterBase(d).Ok?
            && (PrinterBase(d).value.Some? ==> Opens(d, Setting(PrinterBase(d).value.value, 0)))
  {
    if d.Obj? {
      var start := Opened(d, b).value;
      OpenedPrinter(d, b);
      if PrinterBase(d).Ok? {
        var base := PrinterBase(d).value;
        EditsOwn(d, b);
        var es := Edits(Member(d, "default_printer"), b).value;
        if base.Some? {
          OpenedReachable(d, b, base.value);
          PutOpens(d, Setting(base.value, 0), Null);
        }
        if Reachable(start, base) {
          ChainSucceeds(start, es, base);
        } else if ApplyAll(start, es).Ok? {
          FirstReached(start, Member(d, "default_printer").s, b);
        }
      } else if Member(d, "default_printer").Str? {
        PrinterEditsPaths(Member(d, "default_printer").s);
      }
    } else if d.Null? {
      NullRoot(b);
    }
  }

  lemma OpenedReachable(d: Json, b: Build, base: Path)
    requires d.Obj?
    ensures Put(Opened(d, b).value, Setting(base, 0), Null).Ok? <==> Put(d, Setting(base, 0), Null).Ok?
  {
    assert "printers" != "config_path" && "printers" != "default_printer" by {
      assert |"printers"| == 8 && |"config_path"| == 11 && |"default_printer"| == 15;
    }
    PutThroughMember(Opened(d, b).value, d, Setting(base, 0), Null);
  }

  // A chain that succeeds has reached the first of the printer's settings.
  lemma FirstReached(start: Json, name: string, b: Build)
    requires Edits(Str(name), b).Ok? && ApplyAll(start, Edits(Str(name), b).value).Ok?
    ensures UnescapeAll(Split(name)).Ok? && Put(start, Setting(UnescapeAll(Split(name)).value, 0), Null).Ok?
  {
    PrinterEditsPaths(name);
    var es := Edits(Str(name), b).value;
    PrefixApplied(start, es, 1);
    assert es[..1] == [es[0]] && [es[0]][..0] == [];
    assert ApplyEdit(start, es[0]).Ok?;
    PutAnyValue(start, es[0].path, At(start, es[0].path), Null);
  }

  lemma NullRoot(b: Build)
    ensures Init(Some(Null), b).Ok?
  {
    var start := Opened(Null, b).value;
    assert "config_path" != "default_printer" by { assert |"config_path"| != |"default_printer"|; }
    assert Member(start, "default_printer") == Null;
    GlobalsOwn(b, None);
    ChainSucceeds(start, GlobalEdits(b), None);
  }

  lemma OpensThreeDeep(d: Json, a: string, b: string, c: string)
    requires d.Obj? && Member(d, a).Obj? && Member(Member(d, a), b).Obj?
    ensures Opens(d, [a, b, c])
  {
    var p := [a, b, c];
    assert p[1..] == [b, c] && [b, c][1..] == [c];
    OpensStep(d, p);
    OpensStep(Child(d, a), [b, c]);
    OpensStep(Child(Child(d, a), b), [c]);
  }

  lemma FreshTreeShape(b: Build)
    ensures var d := FreshTree(b);
            && Member(d, "default_printer") == Str("k1")
            && Member(d, "printers").Obj? && Member(Member(d, "printers"), "k1").Obj?
  {
  }

  /** Without a file, init succeeds. */
  lemma FreshInstallSucceeds(b: Build)
    ensures Init(None, b).Ok?
  {
    FreshTreeShape(b);
    OneToken("k1");
    assert Setting(["k1"], 0) == ["printers", "k1", PRINTER_KEYS[0]];
    OpensThreeDeep(FreshTree(b), "printers", "k1", PRINTER_KEYS[0]);
    InitSucceedsExactly(FreshTree(b), b);
  }

  /** A printer named "-" whose `printers` is an array or missing: init goes through, but never settles. */
  lemma DashPrinter(d: Json, b: Build)
    requires d.Obj? && Member(d, "default_printer") == Str("-")
    requires Member(d, "printers").Arr? || Member(d, "printers").Null?
    ensures Init(Some(d), b).Ok? && Init(Some(Init(Some(d), b).value), b) != Init(Some(d), b)
  {
    OneToken("-");
    var base: Path := ["-"];
    var p := Setting(base, 0);
    assert PrinterBase(d) == Ok(Some(base));
    assert p == ["printers", "-", PRINTER_KEYS[0]];
    assert p[1..] == ["-", PRINTER_KEYS[0]] && p[1..][1..] == [PRINTER_KEYS[0]] && p[1..][1..][1..] == [];
    DashIsNoIndex();
    PrinterKeysNotArrays(0);
    var printers := Child(d, "printers");
    assert CanStep(Child(printers, "-"), PRINTER_KEYS[0]);
    assert Put(Child(printers, "-"), [PRINTER_KEYS[0]], Null).Ok?;
    assert Put(printers, ["-", PRINTER_KEYS[0]], Null).Ok?;
    assert Put(d, p, Null).Ok?;
    PutOpens(d, p, Null);
    InitSucceedsExactly(d, b);
    assert (["printers"] + base)[1..] == ["-"];
    assert Appends(d, ["printers"] + base);
    InitIdempotent(d, b);
  }
}
