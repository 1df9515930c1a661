/** What a repair of the macros does, and what a chain of repairs does. */
module ConfigChain {
  import opened Wrappers
  import opened Json
  import opened ConfigMigration

  // ---------------------------------------------------------------- the macro repair

  lemma AddsCooldown(m: Json)
    ensures MergePatch(m, COOLDOWN) == Obj((if m.Obj? then m.fields else map[])["cooldown" := Str(COOLDOWN_SCRIPT)])
  {
    assert COOLDOWN.fields.Keys == {"cooldown"};
    var fields := if m.Obj? then m.fields else map[];
    assert MergePatch(m, COOLDOWN).fields == fields["cooldown" := Str(COOLDOWN_SCRIPT)];
  }

  /** A macro name is renamed exactly if it is an old name, and the result is never an old name. */
  lemma RenameMeaning(s: string)
    ensures RenameFrom(s, 0) ==
            if s == "_POWERSCREEN_LOAD_MATERIAL" then "_PS_LOAD_MATERIAL"
            else if s == "_POWERSCREEN_QUIT_MATERIAL" then "_PS_QUIT_MATERIAL"
            else s
    ensures RenameFrom(RenameFrom(s, 0), 0) == RenameFrom(s, 0)
  {
    assert NEW_LOAD[1] == 'P' && NEW_LOAD[2] == 'S' && NEW_UNLOAD[2] == 'S';
    assert OLD_LOAD[2] == 'O' && OLD_UNLOAD[2] == 'O' && OLD_LOAD[13] == 'L' && OLD_UNLOAD[13] == 'Q';
    assert NEW_LOAD != OLD_UNLOAD && NEW_LOAD != OLD_LOAD && NEW_UNLOAD != OLD_LOAD && NEW_UNLOAD != OLD_UNLOAD;
    var r0 := if s == RENAMED_MACROS[0].0 then RENAMED_MACROS[0].1 else s;
    var r1 := if r0 == RENAMED_MACROS[1].0 then RENAMED_MACROS[1].1 else r0;
    assert RenameFrom(s, 0) == RenameFrom(r0, 1) == RenameFrom(r1, 2) == r1;
    assert RenameFrom(r1, 0) == RenameFrom(r1, 1) == RenameFrom(r1, 2) == r1;
  }

  lemma RenameKeysUnfold(m: Json)
    ensures RenameKeys(m, 0) == RenameAt(RenameAt(m, "load_filament"), "unload_filament")
  {
    var m1 := RenameAt(m, MACRO_KEYS[0]);
    assert RenameKeys(m, 0) == RenameKeys(m1, 1) == RenameKeys(RenameAt(m1, MACRO_KEYS[1]), 2);
  }

  lemma RenameAtTwice(m: Json, key: string)
    requires m.Obj?
    ensures Contains(RenameAt(m, key), key) && RenameAt(m, key).fields[key].Str? ==>
            RenamedMacro(RenameAt(m, key).fields[key]) == RenameAt(m, key).fields[key]
  {
    if Contains(m, key) && m.fields[key].Str? {
      RenameMeaning(m.fields[key].s);
    }
  }

  lemma RenameKeysTwice(w: Json)
    requires Contains(w, "cooldown")
    ensures Contains(RenameKeys(w, 0), "cooldown") && RenameKeys(RenameKeys(w, 0), 0) == RenameKeys(w, 0)
  {
    RenameKeysUnfold(w);
    var m, m1 := RenameKeys(w, 0), RenameAt(w, "load_filament");
    RenameAtTwice(w, "load_filament");
    RenameAtTwice(m1, "unload_filament");
    assert Member(m, "load_filament") == Member(m1, "load_filament");
    assert RenameAt(m, "load_filament").fields == m.fields;
    assert RenameAt(m, "unload_filament").fields == m.fields;
    RenameKeysUnfold(m);
  }

  lemma DefaultMacrosMigrated()
    ensures var w := MergePatch(DEFAULT_MACROS, COOLDOWN); Contains(w, "cooldown") && RenameKeys(w, 0) == w
  {
    AddsCooldown(DEFAULT_MACROS);
    var w := MergePatch(DEFAULT_MACROS, COOLDOWN);
    RenameMeaning(NEW_LOAD);
    RenameMeaning(NEW_UNLOAD);
    assert RenameAt(w, "load_filament").fields == w.fields;
    assert RenameAt(w, "unload_filament").fields == w.fields;
    RenameKeysUnfold(w);
  }

  /** Migrated macros are an object with a cooldown entry, and migrating them again changes nothing. */
  lemma MigratedTwice(v: Json)
    ensures var m := MigratedMacros(v);
            Contains(m, "cooldown") && MigratedMacros(m) == m
  {
    if v.Null? {
      DefaultMacrosMigrated();
    } else {
      AddsCooldown(v);
      RenameKeysTwice(WithCooldown(v));
    }
  }

  lemma FixTwice(r: Repair, v: Json)
    requires r.Proper()
    ensures !r.Fix(v).Null? && r.Fix(r.Fix(v)) == r.Fix(v)
  {
    MigratedTwice(v);
  }

  // ---------------------------------------------------------------- the chain

  ghost predicate Apart(es: seq<Edit>) {
    forall i: nat, j: nat | i < |es| && j < |es| && i != j :: Diverge(es[i].path, es[j].path)
  }

  /** Unless its path appends, a repair is one assignment of the repaired value. */
  lemma ApplyOnce(d: Json, e: Edit)
    requires !Appends(d, e.path)
    ensures ApplyEdit(d, e) == Put(d, e.path, e.repair.Fix(At(d, e.path)))
  {
    var p, seen := e.path, At(d, e.path);
    PutAnyValue(d, p, seen, e.repair.Fix(seen));
    if Put(d, p, seen).Ok? {
      PutTwice(d, p, seen, e.repair.Fix(seen));
    }
  }

  lemma ApplyElsewhere(d: Json, e: Edit, q: Path)
    requires ApplyEdit(d, e).Ok? && Diverge(e.path, q)
    ensures Get(d, q).Some? ==> Get(ApplyEdit(d, e).value, q) == Get(d, q)
    ensures !Appends(d, e.path) ==> At(ApplyEdit(d, e).value, q) == At(d, q)
    ensures !Appends(d, e.path) && !Appends(d, q) ==> !Appends(ApplyEdit(d, e).value, q)
  {
    var seen := At(d, e.path);
    if Appends(d, e.path) {
      PutElsewhere(d, e.path, seen, q);
      PutElsewhere(if seen.Null? then Touch(d, e.path).value else d, e.path, e.repair.Fix(seen), q);
    } else {
      ApplyOnce(d, e);
      PutElsewhere(d, e.path, e.repair.Fix(seen), q);
      if !Appends(d, q) {
        PutKeepsPlaces(d, e.path, e.repair.Fix(seen), q);
      }
    }
  }

  lemma {:induction false} StraightIsPlace(d: Json, p: Path)
    requires Straight(d, p)
    ensures !Appends(d, p)
    decreases |p|
  {
    if p != [] {
      StraightIsPlace(Child(d, p[0]), p[1..]);
    }
  }

  lemma ApplyStraight(d: Json, e: Edit, q: Path)
    requires ApplyEdit(d, e).Ok? && Diverge(e.path, q) && Straight(d, e.path)
    ensures Get(ApplyEdit(d, e).value, q) == Get(d, q)
    ensures Straight(d, q) ==> Straight(ApplyEdit(d, e).value, q)
  {
    StraightIsPlace(d, e.path);
    ApplyOnce(d, e);
    PutStraight(d, e.path, e.repair.Fix(At(d, e.path)), q);
  }

  // No repair adds to an array.
  ghost predicate Places(d: Json, es: seq<Edit>) {
    forall e <- es :: !Appends(d, e.path)
  }

  lemma {:induction false} AllElsewhere(d: Json, es: seq<Edit>, q: Path)
    requires ApplyAll(d, es).Ok? && forall e <- es :: Diverge(e.path, q)
    ensures Get(d, q).Some? ==> Get(ApplyAll(d, es).value, q) == Get(d, q)
  {
    if es != [] {
      var n := |es| - 1;
      AllElsewhere(d, es[..n], q);
      ApplyElsewhere(ApplyAll(d, es[..n]).value, es[n], q);
    }
  }

  lemma {:induction false} AllPlaces(d: Json, es: seq<Edit>, q: Path)
    requires ApplyAll(d, es).Ok? && Apart(es) && Places(d, es) && forall e <- es :: Diverge(e.path, q)
    ensures At(ApplyAll(d, es).value, q) == At(d, q)
    ensures !Appends(d, q) ==> !Appends(ApplyAll(d, es).value, q)
    decreases |es|
  {
    if es != [] {
      var n := |es| - 1;
      AllPlaces(d, es[..n], q);
      AllPlaces(d, es[..n], es[n].path);
      ApplyElsewhere(ApplyAll(d, es[..n]).value, es[n], q);
    }
  }

  lemma {:induction false} AllStraight(d: Json, es: seq<Edit>, q: Path)
    requires ApplyAll(d, es).Ok? && Apart(es)
    requires forall e <- es :: Straight(d, e.path) && Diverge(e.path, q)
    ensures Get(ApplyAll(d, es).value, q) == Get(d, q)
    ensures Straight(d, q) ==> Straight(ApplyAll(d, es).value, q)
    decreases |es|
  {
    if es != [] {
      var n := |es| - 1;
      AllStraight(d, es[..n], q);
      AllStraight(d, es[..n], es[n].path);
      ApplyStraight(ApplyAll(d, es[..n]).value, es[n], q);
    }
  }

  lemma AppliedThere(d: Json, e: Edit)
    requires ApplyEdit(d, e).Ok? && !Appends(d, e.path)
    ensures Get(ApplyEdit(d, e).value, e.path) == Some(e.repair.Fix(At(d, e.path)))
  {
    ApplyOnce(d, e);
    PutThenGet(d, e.path, e.repair.Fix(At(d, e.path)), []);
    assert e.path + [] == e.path;
  }

  /** After the whole chain every setting holds its own repair of what it held before the chain. */
  lemma {:induction false} AllApplied(d: Json, es: seq<Edit>, k: nat)
    requires ApplyAll(d, es).Ok? && Apart(es) && Places(d, es) && k < |es|
    ensures Get(ApplyAll(d, es).value, es[k].path) == Some(es[k].repair.Fix(At(d, es[k].path)))
  {
    var n := |es| - 1;
    var before := ApplyAll(d, es[..n]).value;
    if k == n {
      AllPlaces(d, es[..n], es[n].path);
      AppliedThere(before, es[n]);
    } else {
      AllApplied(d, es[..n], k);
      ApplyElsewhere(before, es[n], es[k].path);
    }
  }

  // Below other members of the root nothing happens, whatever the arrays do.
  lemma {:induction false} AllOtherHeads(d: Json, es: seq<Edit>, q: Path)
    requires d.Obj? && ApplyAll(d, es).Ok? && q != [] && forall e <- es :: e.path != [] && e.path[0] != q[0]
    ensures ApplyAll(d, es).value.Obj? && Get(ApplyAll(d, es).value, q) == Get(d, q)
  {
    if es != [] {
      var n := |es| - 1;
      AllOtherHeads(d, es[..n], q);
    }
  }

  lemma KeyPut(d: Json, key: string, v: Json)
    requires d.Obj?
    ensures Put(d, [key], v) == Ok(Obj(d.fields[key := v]))
    ensures Get(Obj(d.fields[key := v]), [key]) == Some(v)
  {
    assert [key][1..] == [];
  }

  lemma KeyApplied(d: Json, e: Edit)
    requires d.Obj? && |e.path| == 1
    ensures ApplyEdit(d, e) == Ok(Obj(d.fields[e.path[0] := e.repair.Fix(At(d, e.path))]))
    ensures Get(ApplyEdit(d, e).value, e.path) == Some(e.repair.Fix(At(d, e.path)))
  {
    assert e.path == [e.path[0]];
    ApplyOnce(d, e);
    KeyPut(d, e.path[0], e.repair.Fix(At(d, e.path)));
  }

  lemma {:induction false} OneKeyApplied(d: Json, es: seq<Edit>, k: nat)
    requires d.Obj? && ApplyAll(d, es).Ok? && k < |es| && |es[k].path| == 1
    requires forall i: nat | i < |es| && i != k :: es[i].path != [] && es[i].path[0] != es[k].path[0]
    ensures ApplyAll(d, es).value.Obj?
    ensures Get(ApplyAll(d, es).value, es[k].path) == Some(es[k].repair.Fix(At(d, es[k].path)))
  {
    var n := |es| - 1;
    if k == n {
      AllOtherHeads(d, es[..n], es[n].path);
      KeyApplied(ApplyAll(d, es[..n]).value, es[n]);
    } else {
      OneKeyApplied(d, es[..n], k);
    }
  }

  lemma {:induction false} AllAgain(d: Json, es: seq<Edit>)
    requires forall e <- es :: Get(d, e.path).Some? && e.repair.Fix(Get(d, e.path).value) == Get(d, e.path).value
    ensures ApplyAll(d, es) == Ok(d)
  {
    if es != [] {
      var n := |es| - 1;
      AllAgain(d, es[..n]);
      PutSame(d, es[n].path, Get(d, es[n].path).value);
    }
  }

  lemma {:induction false} PrefixApplied(d: Json, es: seq<Edit>, k: nat)
    requires ApplyAll(d, es).Ok? && k <= |es|
    ensures ApplyAll(d, es[..k]).Ok?
  {
    if k == |es| {
      assert es[..k] == es;
    } else {
      var n := |es| - 1;
      assert es[..n][..k] == es[..k];
      PrefixApplied(d, es[..n], k);
    }
  }
}
