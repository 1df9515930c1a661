/** The panel of exclude_object_panel.cpp, updated in place. Every method is proved to make the step of
    the same name in ExcludeProtocol. */
module ExcludePanel {
  import opened Wrappers
  import opened Numbers
  import opened Json
  import opened ExcludeState
  import opened BedMap
  import opened ExcludeProtocol

  lemma {:induction false} ParsePrefix(items: seq<Json>, known: seq<Object>, k: nat)
    requires ParseObjects(items, known).Ok? && k <= |items|
    ensures ParseObjects(items[..k], known).Ok?
  {
    if k == |items| {
      assert items[..k] == items;
    } else {
      var n := |items| - 1;
      assert items[..n][..k] == items[..k];
      ParsePrefix(items[..n], known, k);
    }
  }

  /** The loop over the polygon, and the box around the center if it found nothing. */
  method FindBox(o: map<string, Json>) returns (r: Result<Box>)
    ensures r == BoxOf(o)
  {
    var box, haveBox := NO_BOX, false;
    if HasArray(o, "polygon") {
      var pts := o["polygon"].items;
      for k := 0 to |pts|
        invariant haveBox <==> Vertices(pts[..k]) != []
        invariant box == if haveBox then Hull(Vertices(pts[..k])) else NO_BOX
      {
        assert pts[..k + 1][..k] == pts[..k];
        var v := VertexOf(pts[k]);
        ghost var vs := Vertices(pts[..k]);
        if v == None {
          assert Vertices(pts[..k + 1]) == vs + [] == vs;
          continue;
        }
        assert Vertices(pts[..k + 1]) == vs + [v.value];
        assert (vs + [v.value])[..|vs|] == vs && (vs + [v.value])[|vs|] == v.value;
        if !haveBox {
          box, haveBox := Box(v.value.x, v.value.y, v.value.x, v.value.y), true;
        } else {
          box := Box(MinR(box.x0, v.value.x), MinR(box.y0, v.value.y),
                     MaxR(box.x1, v.value.x), MaxR(box.y1, v.value.y));
        }
      }
      assert pts[..|pts|] == pts;
    }
    if !haveBox && HasArray(o, "center") && |o["center"].items| >= 2 {
      var c := o["center"].items;
      if !c[0].Num? || !c[1].Num? {
        return Thrown;
      }
      box := Box(c[0].n - CENTER_HALF, c[1].n - CENTER_HALF, c[0].n + CENTER_HALF, c[1].n + CENTER_HALF);
    }
    return Ok(box);
  }

  class ExcludeObjectPanel {
    const layout: Layout
    var objects: seq<Object>
    var currentObject: string
    var lastSignature: string
    var shown: seq<Row>
    var drawn: seq<Drawn>
    ghost var mapped: seq<Box>
    var bed: Bed
    var hasCountCb: bool
    var lastCount: nat
    var counts: seq<nat>
    var hasAvailabilityCb: bool
    var lastAvailable: bool
    var availability: seq<bool>
    var pending: int
    var sent: seq<string>

    ghost function St(): State
      reads this
    {
      State(objects, currentObject)
    }

    ghost function ScreenView(): Screen
      reads this
    {
      Screen(lastSignature, shown, mapped, bed)
    }

    ghost function ToldView(): Told
      reads this
    {
      Told(hasCountCb, lastCount, counts, hasAvailabilityCb, lastAvailable, availability)
    }

    ghost function View(): Panel
      reads this
    {
      Panel(St(), ScreenView(), ToldView(), Dialog(pending, sent))
    }

    /** The drawn boxes are the mapped ones, at the map's scale. */
    ghost predicate Valid()
      reads this
    {
      drawn == DrawAll(bed, layout, mapped)
    }

    constructor (layout: Layout, hasCountCb: bool, hasAvailabilityCb: bool)
      ensures Valid() && this.layout == layout && View() == NewPanel(hasCountCb, hasAvailabilityCb)
    {
      this.layout := layout;
      objects, currentObject, lastSignature, shown, drawn, mapped, bed := [], "", "", [], [], [], DEFAULT_BED;
      this.hasCountCb, lastCount, counts := hasCountCb, 0, [];
      this.hasAvailabilityCb, lastAvailable, availability := hasAvailabilityCb, false, [];
      pending, sent := -1, [];
    }

    /** One entry of `objects`, with the flag of the last known object of its name. */
    method ReadObject(o: Json) returns (r: Result<Object>)
      ensures r == ParseObject(o, objects)
    {
      if !o.Obj? {
        return Thrown;
      }
      var name := NameOf(o.fields);
      if name.Thrown? {
        return Thrown;
      }
      var box := FindBox(o.fields);
      if box.Thrown? {
        return Thrown;
      }
      var excluded := false;
      for k := 0 to |objects|
        invariant excluded == LastFlag(objects[..k], name.value)
      {
        assert objects[..k + 1][..k] == objects[..k];
        if objects[k].name == name.value {
          excluded := objects[k].excluded;
        }
      }
      assert objects[..|objects|] == objects;
      return Ok(Object(name.value, box.value, excluded));
    }

    method ReadObjects(items: seq<Json>) returns (ok: bool)
      modifies this`objects
      ensures ok <==> ParseObjects(items, old(objects)).Ok?
      ensures if ok then Ok(objects) == ParseObjects(items, old(objects)) else objects == old(objects)
    {
      var next: seq<Object> := [];
      for k := 0 to |items|
        invariant objects == old(objects) && ParseObjects(items[..k], objects) == Ok(next)
      {
        assert items[..k + 1][..k] == items[..k];
        var o := ReadObject(items[k]);
        if o.Thrown? {
          assert ParseObjects(items[..k + 1], objects).Thrown?;
          if ParseObjects(items, objects).Ok? {
            ParsePrefix(items, objects, k + 1);
          }
          return false;
        }
        next := next + [o.value];
      }
      assert items[..|items|] == items;
      objects := next;
      return true;
    }

    /** Marks exactly the objects whose names are listed. */
    method MarkExcluded(items: seq<Json>)
      modifies this`objects
      ensures objects == Marked(old(objects), Names(items))
    {
      for i := 0 to |objects|
        invariant |objects| == |old(objects)|
        invariant forall j: nat | j < |objects| ::
                    objects[j] == if j < i then old(objects)[j].(excluded := false) else old(objects)[j]
      {
        objects := objects[i := objects[i].(excluded := false)];
      }
      for k := 0 to |items|
        invariant objects == Marked(old(objects), Names(items[..k]))
      {
        assert Names(items[..k + 1]) == Names(items[..k]) + if items[k].Str? then {items[k].s} else {} by {
          assert forall i: nat | i < k :: items[..k + 1][i] == items[..k][i] == items[i];
          assert items[..k + 1][k] == items[k];
        }
        if !items[k].Str? {
          continue;
        }
        MarkOne(items[k].s);
      }
      assert items[..|items|] == items;
    }

    method MarkOne(name: string)
      modifies this`objects
      ensures |objects| == |old(objects)|
      ensures forall j: nat | j < |objects| ::
                objects[j] ==
                if old(objects)[j].name == name then old(objects)[j].(excluded := true) else old(objects)[j]
    {
      for i := 0 to |objects|
        invariant |objects| == |old(objects)|
        invariant forall j: nat | j < |objects| ::
                    objects[j] ==
                    if j < i && old(objects)[j].name == name then old(objects)[j].(excluded := true)
                    else old(objects)[j]
      {
        if objects[i].name == name {
          objects := objects[i := objects[i].(excluded := true)];
        }
      }
    }

    /** merge; false when an exception leaves it, and then nothing has changed. */
    method MergeStatus(status: Json) returns (ok: bool)
      modifies this`objects, this`currentObject
      ensures ok <==> Merge(old(St()), status).Ok?
      ensures if ok then Ok(St()) == Merge(old(St()), status) else St() == old(St())
    {
      if !status.Obj? {
        return true;
      }
      if HasArray(status.fields, "objects") {
        var read := ReadObjects(status.fields["objects"].items);
        if !read {
          return false;
        }
      }
      if HasArray(status.fields, "excluded_objects") {
        MarkExcluded(status.fields["excluded_objects"].items);
      }
      if "current_object" in status.fields {
        var current := status.fields["current_object"];
        currentObject := if current.Str? then current.s else "";
      }
      return true;
    }

    method SignatureText() returns (sig: string)
      ensures sig == Signature(St())
    {
      sig := currentObject + "|";
      for k := 0 to |objects|
        invariant sig == currentObject + "|" + EntriesText(objects[..k])
      {
        assert objects[..k + 1][..k] == objects[..k];
        sig := sig + (objects[k].name + (if objects[k].excluded then "!" else "") + ",");
        assert sig == currentObject + "|" + (EntriesText(objects[..k]) + EntryText(objects[k]));
      }
      assert objects[..|objects|] == objects;
    }

    method Availability()
      modifies this`lastCount, this`counts, this`lastAvailable, this`availability
      ensures ToldView() == UpdateAvailability(old(ToldView()), |objects|)
    {
      if |objects| != lastCount {
        lastCount := |objects|;
        if hasCountCb {
          counts := counts + [lastCount];
        }
      }
      var available := objects != [];
      if available != lastAvailable {
        lastAvailable := available;
        if hasAvailabilityCb {
          availability := availability + [available];
        }
      }
    }

    /** Clears the list and the map and fills them again. */
    method RebuildScreen(env: Env)
      modifies this`shown, this`drawn, this`mapped, this`bed
      ensures Valid() && ScreenView() == Rebuild(old(ScreenView()), St(), env)
    {
      bed := LoadBed(bed, env.axisMin, env.axisMax);
      shown, drawn, mapped := [], [], Boxes(St());
      if objects == [] {
        return;
      }
      for i := 0 to |objects|
        invariant drawn == [] && mapped == Boxes(St()) && bed == LoadBed(old(bed), env.axisMin, env.axisMax)
        invariant |shown| == i && forall j: nat | j < i :: shown[j] == RowOf(St(), j)
      {
        shown := shown + [RowOf(State(objects, currentObject), i)];
      }
      for i := 0 to |objects|
        invariant shown == Rows(St()) && mapped == Boxes(St()) && bed == LoadBed(old(bed), env.axisMin, env.axisMax)
        invariant |drawn| == i && forall j: nat | j < i :: drawn[j] == Draw(bed, layout, objects[j].box)
      {
        drawn := drawn + [Draw(bed, layout, objects[i].box)];
      }
    }

    method RebuildOnChange(env: Env)
      requires Valid()
      modifies this`lastSignature, this`shown, this`drawn, this`mapped, this`bed
      ensures Valid() && ScreenView() == RebuildIfChanged(old(ScreenView()), St(), env)
    {
      var sig := SignatureText();
      if sig != lastSignature {
        lastSignature := sig;
        RebuildScreen(env);
      }
    }

    /** What consume and sync_from_state do after merging. */
    method Settle(env: Env)
      requires Valid()
      modifies this`lastCount, this`counts, this`lastAvailable, this`availability,
               this`lastSignature, this`shown, this`drawn, this`mapped, this`bed
      ensures Valid() && View() == Refresh(old(View()), St(), env)
    {
      Availability();
      RebuildOnChange(env);
    }

    /** notify_status_update; `status` is its exclude_object part. */
    method Consume(status: Json, env: Env) returns (ok: bool)
      requires Valid()
      modifies this
      ensures Valid()
      ensures ok <==> ConsumeStatus(old(View()), status, env).Ok?
      ensures if ok then Ok(View()) == ConsumeStatus(old(View()), status, env) else View() == old(View())
    {
      if status.Null? {
        return true;
      }
      ghost var before := View();
      ok := MergeStatus(status);
      assert View() == before.(st := St());
      if ok {
        Settle(env);
        assert View() == Refresh(before, St(), env);
      }
    }

    method SyncFromState(full: Json, env: Env) returns (ok: bool)
      requires Valid()
      modifies this
      ensures Valid()
      ensures ok <==> SyncFull(old(View()), full, env).Ok?
      ensures if ok then Ok(View()) == SyncFull(old(View()), full, env) else View() == old(View())
    {
      ghost var before := View();
      ok := true;
      if full.Obj? {
        ok := MergeStatus(full);
      }
      assert View() == before.(st := St());
      if ok {
        Settle(env);
        assert View() == Refresh(before, St(), env);
      }
    }

    method Foreground(full: Json, env: Env) returns (ok: bool)
      requires Valid()
      modifies this
      ensures Valid()
      ensures ok <==> OpenPanel(old(View()), full, env).Ok?
      ensures if ok then Ok(View()) == OpenPanel(old(View()), full, env) else View() == old(View())
    {
      ok := SyncFromState(full, env);
      if ok {
        RebuildScreen(env);
      }
    }

    method AskAbout(index: int)
      modifies this`pending
      ensures View() == AskFor(old(View()), index)
    {
      if index < 0 || index >= |objects| || objects[index].excluded {
        return;
      }
      pending := index;
    }

    method CancelDialog()
      modifies this`pending
      ensures View() == old(View()).(dialog := Dialog(-1, old(sent)))
    {
      pending := -1;
    }

    method ExcludePending(env: Env)
      requires Valid()
      modifies this
      ensures Valid() && View() == DoExclude(old(View()), env)
    {
      if pending < 0 || pending >= |objects| {
        return;
      }
      sent := sent + [GcodeFor(objects[pending].name)];
      objects := objects[pending := objects[pending].(excluded := true)];
      pending := -1;
      lastSignature := SignatureText();
      RebuildScreen(env);
    }
  }
}
