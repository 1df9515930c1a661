/** What Config::init leaves alone. */
module ConfigLeaves {
  import opened Wrappers
  import opened Json
  import opened ConfigMigration
  import opened ConfigChain
  import opened ConfigTheorems

  // ---------------------------------------------------------------- the user's values

  /** Where the macros of the default printer are. */
  function MacrosPath(d: Json): Option<Path> {
    var printer := Member(d, "default_printer");
    if printer.Str? then
      var p := PrinterPath(printer.s, "default_macros");
      if p.Ok? then Some(p.value) else None
    else None
  }

  /** A value that is neither null nor an object. */
  predicate Leaf(v: Json) {
    !v.Null? && !v.Obj?
  }

  /** What becomes of a leaf `v` at path `q` of the tree. */
  function Expected(d: Json, b: Build, q: Path, v: Json): Option<Json>
    requires q != []
  {
    var macros := MacrosPath(d);
    if q == ["config_path"] then Some(Str(b.configPath))
    else if q[0] == "config_path" || q[0] == "theme" then None
    else if macros.Some? && q == macros.value then Some(MigratedMacros(v))
    else if macros.Some? && macros.value < q && !At(d, macros.value).Obj? then None
    else if macros.Some? && (q == macros.value + ["load_filament"] || q == macros.value + ["unload_filament"])
    then Some(RenamedMacro(v))
    else Some(v)
  }

  // The leaves inside the macros.
  lemma MigratedLeaf(m: Json, rest: Path)
    requires Get(m, rest).Some? && Leaf(Get(m, rest).value)
    ensures Get(MigratedMacros(m), rest) ==
            if rest == [] then Some(MigratedMacros(m))
            else if !m.Obj? then None
            else if rest == ["load_filament"] || rest == ["unload_filament"] then Some(RenamedMacro(Get(m, rest).value))
            else Get(m, rest)
  {
    if rest != [] {
      AddsCooldown(m);
      var w := WithCooldown(m);
      RenameKeysUnfold(w);
      if m.Obj? {
        assert Get(w, rest) == Get(m, rest);
        RenameAtLeaf(w, "load_filament", rest);
        assert "load_filament" != "unload_filament";
        RenameAtLeaf(RenameAt(w, "load_filament"), "unload_filament", rest);
      } else {
        assert m.Arr? && IsIndex(rest[0]) && '0' <= rest[0][0] <= '9';
        assert "cooldown"[0] == 'c' && "load_filament"[0] == 'l' && "unload_filament"[0] == 'u';
        assert w.fields.Keys == {"cooldown"};
      }
    }
  }

  lemma RenameAtLeaf(m: Json, key: string, rest: Path)
    requires m.Obj? && rest != [] && Get(m, rest).Some? && Leaf(Get(m, rest).value)
    ensures Get(RenameAt(m, key), rest) ==
            if rest == [key] then Some(RenamedMacro(Get(m, rest).value)) else Get(m, rest)
    ensures Leaf(Get(RenameAt(m, key), rest).value)
  {
    if rest[0] == key && rest != [key] {
      assert rest[1..] != [];
      assert !m.fields[key].Str?;
    }
  }

  /** A leaf the repairs do not go through: any scalar, and any array that is not on the way of one. */
  ghost predicate Whole(v: Json, q: Path, es: seq<Edit>) {
    Leaf(v) && (v.Arr? ==> forall e <- es :: !(q < e.path))
  }

  lemma {:induction false} PathCases(p: Path, q: Path)
    ensures Diverge(p, q) || p <= q || q < p
  {
    if p != [] && q != [] && p[0] == q[0] {
      PathCases(p[1..], q[1..]);
      assert p == [p[0]] + p[1..] && q == [q[0]] + q[1..];
    }
  }

  // A successful repair beside, above or below such a leaf.
  lemma RepairCases(d: Json, e: Edit, q: Path, v: Json)
    requires ApplyEdit(d, e).Ok? && Get(d, q) == Some(v) && Whole(v, q, [e])
    ensures Diverge(e.path, q) || e.path <= q
  {
    PathCases(e.path, q);
    assert e in [e];
    if Scalar(v) {
      ScalarBlocks(d, e.path, At(d, e.path), q);
    }
  }

  /** A leaf that no macro repair covers survives the chain. */
  lemma {:induction false} ChainKeepsLeaf(d: Json, es: seq<Edit>, q: Path, v: Json)
    requires ApplyAll(d, es).Ok? && Get(d, q) == Some(v) && Whole(v, q, es)
    requires forall e <- es :: e.repair.Macros? ==> Diverge(e.path, q)
    ensures Get(ApplyAll(d, es).value, q) == Some(v)
  {
    if es != [] {
      var n := |es| - 1;
      ChainKeepsLeaf(d, es[..n], q, v);
      var before, e := ApplyAll(d, es[..n]).value, es[n];
      RepairCases(before, e, q, v);
      if Diverge(e.path, q) {
        ApplyElsewhere(before, e, q);
      } else {
        NotDiverging(e.path, q);
        var rest := q[|e.path|..];
        assert q == e.path + rest;
        GetThrough(before, e.path, rest);
        assert !At(before, e.path).Null?;
        PutSame(before, e.path, At(before, e.path));
      }
    }
  }

  lemma {:induction false} NotDiverging(p: Path, q: Path)
    requires p <= q
    ensures !Diverge(p, q)
  {
    if p != [] {
      NotDiverging(p[1..], q[1..]);
    }
  }

  lemma MacrosEdit(d: Json, b: Build, k: nat)
    requires Edits(Member(d, "default_printer"), b).Ok?
    requires k < |Edits(Member(d, "default_printer"), b).value|
    ensures var e := Edits(Member(d, "default_printer"), b).value[k];
            e.repair.Macros? <==> (Member(d, "default_printer").Str? && k == 2)
    ensures Member(d, "default_printer").Str? && k == 2 ==>
              MacrosPath(d) == Some(Edits(Member(d, "default_printer"), b).value[k].path)
    ensures Member(d, "default_printer").Null? ==> MacrosPath(d) == None
  {
    var printer := Member(d, "default_printer");
    if printer.Str? {
      PrinterEditsPaths(printer.s);
      SettingPath(printer.s, 2);
      var ps := PrinterSettings(UnescapeAll(Split(printer.s)).value);
      var es := Edits(printer, b).value;
      assert es == ps + GlobalEdits(b) && |ps| == 5;
      if k < 5 {
        assert es[k] == ps[k];
      } else {
        assert es[k] == GlobalEdits(b)[k - 5];
        GlobalsDefault(b, k - 5);
      }
    } else {
      GlobalsDefault(b, k);
    }
  }

  lemma GlobalsDefault(b: Build, k: nat)
    requires k < 4
    ensures GlobalEdits(b)[k].repair.Default?
  {
  }

  // A leaf at or below the macros entry.
  lemma ChainMacroLeaf(d: Json, es: seq<Edit>, q: Path, v: Json)
    requires |es| > 2 && es[2].repair == Macros && Apart(es) && Places(d, es) && ApplyAll(d, es).Ok?
    requires es[2].path <= q && Get(d, q) == Some(v) && Leaf(v)
    ensures var mp := es[2].path;
            Get(ApplyAll(d, es).value, q) ==
            if q == mp then Some(MigratedMacros(v))
            else if !At(d, mp).Obj? then None
            else if q == mp + ["load_filament"] || q == mp + ["unload_filament"] then Some(RenamedMacro(v))
            else Some(v)
  {
    var mp, rest := es[2].path, q[|es[2].path|..];
    assert q == mp + rest;
    AllApplied(d, es, 2);
    GetThrough(d, mp, rest);
    GetThrough(ApplyAll(d, es).value, mp, rest);
    MigratedLeaf(At(d, mp), rest);
    assert q == mp ==> rest == [];
    assert rest == ["load_filament"] <==> q == mp + ["load_filament"];
    assert rest == ["unload_filament"] <==> q == mp + ["unload_filament"];
  }

  // A leaf elsewhere is not on the way to the macros, or the macros could not have been repaired.
  lemma ChainMacrosApart(d: Json, es: seq<Edit>, q: Path, v: Json)
    requires |es| > 2 && ApplyAll(d, es).Ok?
    requires !es[0].repair.Macros? && !es[1].repair.Macros?
    requires !(es[2].path <= q) && Get(d, q) == Some(v) && Whole(v, q, es)
    ensures Diverge(es[2].path, q)
  {
    PrefixApplied(d, es, 2);
    PrefixApplied(d, es, 3);
    assert es[..3][..2] == es[..2] && es[..2] == [es[0], es[1]];
    ChainKeepsLeaf(d, es[..2], q, v);
    RepairCases(ApplyAll(d, es[..2]).value, es[2], q, v);
  }

  // At most the third repair is one of macros, and then it is the one MacrosPath names.
  ghost predicate MacrosThird(d: Json, es: seq<Edit>) {
    match MacrosPath(d)
    case None => forall e <- es :: !e.repair.Macros?
    case Some(p) => |es| > 2 && es[2] == Edit(p, Macros) && !es[0].repair.Macros? && !es[1].repair.Macros?
                    && forall e <- es :: e.repair.Macros? ==> e == es[2]
  }

  lemma EditsMacrosThird(d: Json, b: Build)
    requires Edits(Member(d, "default_printer"), b).Ok?
    ensures MacrosThird(d, Edits(Member(d, "default_printer"), b).value)
  {
    var es := Edits(Member(d, "default_printer"), b).value;
    OnlyMacrosEdit(d, b, es);
    MacrosEdit(d, b, 0);
    MacrosEdit(d, b, 1);
    MacrosEdit(d, b, 2);
  }

  /** The chain and the leaves: only what the macro repair covers changes. */
  lemma ChainLeaf(d: Json, b: Build, es: seq<Edit>, q: Path, v: Json)
    requires d.Obj? && Edits(Member(d, "default_printer"), b) == Ok(es) && Apart(es) && ApplyAll(d, es).Ok?
    requires q != [] && Get(d, q) == Some(v) && Whole(v, q, es) && !HandledApart(q[0])
    ensures Get(ApplyAll(d, es).value, q) == Expected(d, b, q, v)
  {
    EditsMacrosThird(d, b);
    match MacrosPath(d)
    case None =>
      ChainKeepsLeaf(d, es, q, v);
    case Some(p) =>
      if p <= q {
        MacrosArePlaces(d, b, es, q);
        ChainMacroLeaf(d, es, q, v);
        ExpectedInside(d, b, q, v);
      } else {
        ChainMacrosApart(d, es, q, v);
        ChainKeepsLeaf(d, es, q, v);
        ExpectedOutside(d, b, q, v);
      }
  }

  lemma ExpectedInside(d: Json, b: Build, q: Path, v: Json)
    requires q != [] && !HandledApart(q[0]) && MacrosPath(d).Some? && MacrosPath(d).value <= q
    ensures var mp := MacrosPath(d).value;
            Expected(d, b, q, v) ==
            if q == mp then Some(MigratedMacros(v))
            else if !At(d, mp).Obj? then None
            else if q == mp + ["load_filament"] || q == mp + ["unload_filament"] then Some(RenamedMacro(v))
            else Some(v)
  {
  }

  lemma ExpectedOutside(d: Json, b: Build, q: Path, v: Json)
    requires q != [] && !HandledApart(q[0]) && MacrosPath(d).Some? && !(MacrosPath(d).value <= q)
    ensures Expected(d, b, q, v) == Some(v)
  {
    var mp := MacrosPath(d).value;
    assert mp <= mp + ["load_filament"] && mp <= mp + ["unload_filament"];
  }

  lemma MacrosAre(d: Json)
    requires PrinterBase(d).Ok? && PrinterBase(d).value.Some?
    ensures MacrosPath(d) == Some(Setting(PrinterBase(d).value.value, 2))
  {
    SettingPath(Member(d, "default_printer").s, 2);
  }

  lemma SettingBehind(d: Json, base: Path, i: nat, q: Path)
    requires Appends(d, ["printers"] + base) && i < 4 && Setting(base, i) <= q
    ensures Get(d, q) == None
  {
    SettingAppends(d, base, i);
    var p := Setting(base, i);
    AppendsThrough(d, p, q[|p|..]);
    assert p + q[|p|..] == q;
  }

  // If there is something at the macros, the printer's name does not append.
  lemma MacrosArePlaces(d: Json, b: Build, es: seq<Edit>, q: Path)
    requires d.Obj? && Edits(Member(d, "default_printer"), b) == Ok(es)
    requires MacrosPath(d).Some? && MacrosPath(d).value <= q && Get(d, q).Some?
    ensures Places(d, es)
  {
    if AppendingPrinter(d) {
      MacrosAre(d);
      SettingBehind(d, PrinterBase(d).value.value, 2, q);
    }
    AllArePlaces(d, b);
  }

  lemma OnlyMacrosEdit(d: Json, b: Build, es: seq<Edit>)
    requires Edits(Member(d, "default_printer"), b) == Ok(es)
    ensures forall e <- es :: e.repair.Macros? ==> Member(d, "default_printer").Str? && |es| > 2 && e == es[2]
  {
    forall k: nat | k < |es|
      ensures es[k].repair.Macros? ==> Member(d, "default_printer").Str? && k == 2
    {
      MacrosEdit(d, b, k);
    }
  }

  lemma MacrosHead(d: Json)
    requires MacrosPath(d).Some?
    ensures |MacrosPath(d).value| > 0 && MacrosPath(d).value[0] == "printers"
  {
    SettingPath(Member(d, "default_printer").s, 2);
  }

  lemma ConfigPathLeaf(d: Json, b: Build, q: Path)
    requires Init(Some(d), b).Ok? && q != [] && q[0] == "config_path"
    ensures Get(Init(Some(d), b).value, q) == if q == ["config_path"] then Some(Str(b.configPath)) else None
  {
    InitElsewhere(d, b, ["config_path"]);
    GetThrough(Init(Some(d), b).value, ["config_path"], q[1..]);
    assert q == ["config_path"] + q[1..];
    assert Get(Opened(d, b).value, ["config_path"]) == Some(Str(b.configPath)) by {
      assert "config_path" != "default_printer" by { assert |"config_path"| != |"default_printer"|; }
    }
  }

  lemma PrinterNameLeaf(d: Json, b: Build, q: Path, v: Json)
    requires Init(Some(d), b).Ok? && q != [] && q[0] == "default_printer"
    requires d.Obj? && Get(d, q) == Some(v) && Leaf(v)
    ensures q == ["default_printer"] && Get(Init(Some(d), b).value, q) == Some(v)
  {
    InitParts(d, b);
    var printer := Member(d, "default_printer");
    assert "config_path" != "default_printer" by { assert |"config_path"| != |"default_printer"|; }
    assert Member(Opened(d, b).value, "default_printer") == printer;
    assert Get(d, q) == Get(printer, q[1..]);
    assert q == ["default_printer"] + q[1..];
    InitElsewhere(d, b, ["default_printer"]);
  }

  lemma OtherLeaf(d: Json, b: Build, q: Path, v: Json)
    requires Init(Some(d), b).Ok? && q != [] && !HandledApart(q[0])
    requires d.Obj? && Get(d, q) == Some(v) && Whole(v, q, Edits(Member(d, "default_printer"), b).value)
    ensures Get(Init(Some(d), b).value, q) == Expected(Opened(d, b).value, b, q, v)
  {
    InitParts(d, b);
    OpenedPrinter(d, b);
    var start := Opened(d, b).value;
    var es := Edits(Member(start, "default_printer"), b).value;
    DropTheme(ApplyAll(start, es).value, q);
    OpenedKeeps(d, b, q);
    ChainLeaf(start, b, es, q, v);
  }

  lemma OpenedKeepsMacros(d: Json, b: Build)
    requires d.Obj?
    ensures MacrosPath(Opened(d, b).value) == MacrosPath(d)
    ensures MacrosPath(d).Some? ==> At(Opened(d, b).value, MacrosPath(d).value) == At(d, MacrosPath(d).value)
  {
    OpenedPrinter(d, b);
    if MacrosPath(d).Some? {
      MacrosHead(d);
      assert |"printers"| == 8 && |"config_path"| == 11 && |"default_printer"| == 15;
      OpenedKeeps(d, b, MacrosPath(d).value);
    }
  }

  lemma NotMacros(d: Json, q: Path)
    requires q != [] && HandledApart(q[0]) && MacrosPath(d).Some?
    ensures !(MacrosPath(d).value <= q)
  {
    MacrosHead(d);
    HandledLength(q[0]);
    assert |"printers"| == 8;
  }

  /** Every leaf of the user's file keeps its value, except: `config_path`, which names the file itself;
      `theme`, which is removed; the two macro entries, where an old name becomes the new one; and a
      `default_macros` that is not an object, which is replaced by one. (An array that the printer's
      settings are in keeps its leaves, but may get longer.) */
  lemma InitKeepsLeaves(d: Json, b: Build, q: Path, v: Json)
    requires Init(Some(d), b).Ok?
    requires q != [] && Get(d, q) == Some(v) && Whole(v, q, Edits(Member(d, "default_printer"), b).value)
    ensures Get(Init(Some(d), b).value, q) == Expected(d, b, q, v)
  {
    if !HandledApart(q[0]) {
      OtherLeaf(d, b, q, v);
      OpenedKeepsMacros(d, b);
    } else {
      HandledKeyLeaf(d, b, q, v);
      ExpectedHandled(d, b, q, v);
    }
  }

  lemma ExpectedHandled(d: Json, b: Build, q: Path, v: Json)
    requires q != [] && HandledApart(q[0])
    ensures Expected(d, b, q, v) ==
            if q == ["config_path"] then Some(Str(b.configPath))
            else if q[0] == "config_path" || q[0] == "theme" then None
            else Some(v)
  {
    if MacrosPath(d).Some? {
      NotMacros(d, q);
    }
  }

  lemma HandledKeyLeaf(d: Json, b: Build, q: Path, v: Json)
    requires Init(Some(d), b).Ok? && q != [] && HandledApart(q[0])
    requires d.Obj? && Get(d, q) == Some(v) && Leaf(v)
    ensures Get(Init(Some(d), b).value, q) ==
            if q == ["config_path"] then Some(Str(b.configPath))
            else if q[0] == "config_path" || q[0] == "theme" then None
            else Some(v)
  {
    if q[0] == "config_path" {
      ConfigPathLeaf(d, b, q);
    } else if q[0] == "default_printer" {
      PrinterNameLeaf(d, b, q, v);
      assert |"config_path"| != |"default_printer"| && |"theme"| != |"default_printer"|;
    } else {
      InitParts(d, b);
      var start := Opened(d, b).value;
      DropTheme(ApplyAll(start, Edits(Member(start, "default_printer"), b).value).value, q);
      assert |"config_path"| != |"theme"|;
    }
  }

  /** Nothing else changes: at any path that diverges from the repaired ones what is present is what it
      was, and what is absent still appears as null, unless the printer's name appends; and if no array
      is on the way of a repair, what is absent is still absent. */
  lemma InitChangesNothingElse(d: Json, b: Build, q: Path)
    requires Init(Some(d), b).Ok? && d.Obj?
    requires q != [] && !HandledApart(q[0])
    requires forall e <- Edits(Member(d, "default_printer"), b).value :: Diverge(e.path, q)
    ensures Get(d, q).Some? ==> Get(Init(Some(d), b).value, q) == Get(d, q)
    ensures !AppendingPrinter(d) ==> At(Init(Some(d), b).value, q) == At(d, q)
    ensures (forall e <- Edits(Member(d, "default_printer"), b).value :: Straight(d, e.path)) ==>
              Get(Init(Some(d), b).value, q) == Get(d, q)
  {
    InitParts(d, b);
    OpenedPrinter(d, b);
    OpenedAppends(d, b);
    OpenedKeeps(d, b, q);
    var start := Opened(d, b).value;
    var es := Edits(Member(start, "default_printer"), b).value;
    AllElsewhere(start, es, q);
    DropTheme(ApplyAll(start, es).value, q);
    if !AppendingPrinter(d) {
      AllArePlaces(start, b);
      AllPlaces(start, es, q);
    }
    if forall e <- es :: Straight(d, e.path) {
      forall e <- es
        ensures Straight(start, e.path)
      {
        OwnHeadLength(e.path);
        assert |"config_path"| == 11 && |"default_printer"| == 15;
        OpenedKeeps(d, b, e.path);
      }
      AllStraight(start, es, q);
    }
  }
}
