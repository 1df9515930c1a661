/** Theorems about whole runs of the exclude-object panel. */
module ExcludeRuns {
  import opened Wrappers
  import opened Sequences
  import opened Json
  import opened ExcludeState
  import opened BedMap
  import opened ExcludeTheorems
  import opened ExcludeProtocol
  import opened ExcludeSignature

  // ---------------------------------------------------------------- what the screen shows

  predicate IsReport(e: Event) {
    e.Consume? || e.Sync? || e.Open?
  }

  function StatusOf(e: Event): Json
    requires IsReport(e)
  {
    match e
    case Consume(status) => status
    case Sync(full) => full
    case Open(full) => full
  }

  /** A report that is taken in: it merges without an exception, and a status message is not null. */
  predicate Taken(st: State, e: Event) {
    IsReport(e) && Merge(st, StatusOf(e)).Ok? && !(e.Consume? && e.status.Null?)
  }

  predicate Confirms(p: Panel, e: Event) {
    e.Confirm? && 0 <= p.dialog.pending < |p.st.objects|
  }

  // What the three kinds of report have in common, and that other reports do nothing.
  lemma TakenSteps(p: Panel, e: Timed)
    requires IsReport(e.event)
    ensures !Taken(p.st, e.event) ==> After(p, e) == p
    ensures Taken(p.st, e.event) ==>
              var st := Merge(p.st, StatusOf(e.event)).value; var r := Refresh(p, st, e.env);
              After(p, e) == if e.event.Open? then r.(screen := Rebuild(r.screen, st, e.env)) else r
  {
  }

  /** The events after which the screen is drawn again, when it was last drawn for `drawn`: opening,
      confirming, the first report, and reports of a display with another signature. */
  predicate Redraws(p: Panel, e: Timed, drawn: Option<State>) {
    if Taken(p.st, e.event)
    then e.event.Open? || drawn.None? || Signature(After(p, e).st) != Signature(drawn.value)
    else Confirms(p, e.event)
  }

  function DrawnAfter(p: Panel, e: Timed, drawn: Option<State>): Option<State> {
    if Redraws(p, e, drawn) then Some(After(p, e).st) else drawn
  }

  /** The state at the last of these events, or `drawn` if there was none. */
  function LastDrawn(p: Panel, evs: seq<Timed>, drawn: Option<State>): Option<State>
    decreases |evs|
  {
    if evs == [] then drawn else LastDrawn(After(p, evs[0]), evs[1..], DrawnAfter(p, evs[0], drawn))
  }

  /** The rows are those of `drawn`, whose signature is remembered and is also that of the present state. */
  ghost predicate ShowsRows(p: Panel, drawn: Option<State>) {
    match drawn
    case None => p.screen.lastSignature == "" && p.screen.shown == [] && p.st == State([], "")
    case Some(d) => p.screen.lastSignature == Signature(d) == Signature(p.st) && p.screen.shown == Rows(d)
  }

  ghost predicate ShowsBoxes(p: Panel, drawn: Option<State>) {
    p.screen.mapped == if drawn.Some? then Boxes(drawn.value) else []
  }

  lemma StepShows(p: Panel, e: Timed, drawn: Option<State>)
    requires ShowsRows(p, drawn)
    ensures ShowsRows(After(p, e), DrawnAfter(p, e, drawn))
    ensures ShowsBoxes(p, drawn) ==> ShowsBoxes(After(p, e), DrawnAfter(p, e, drawn))
  {
    if IsReport(e.event) {
      TakenSteps(p, e);
      SignatureNotEmpty(After(p, e).st);
    }
  }

  /** Whatever the names are, the screen always shows the state at the last redrawing, and that state has
      the signature of the present one. */
  lemma {:induction false} RunShows(p: Panel, evs: seq<Timed>, drawn: Option<State>)
    requires ShowsRows(p, drawn)
    ensures ShowsRows(Run(p, evs), LastDrawn(p, evs, drawn))
    ensures ShowsBoxes(p, drawn) ==> ShowsBoxes(Run(p, evs), LastDrawn(p, evs, drawn))
    decreases |evs|
  {
    if evs != [] {
      StepShows(p, evs[0], drawn);
      RunShows(After(p, evs[0]), evs[1..], DrawnAfter(p, evs[0], drawn));
    }
  }

  /** What a new panel shows after any run: nothing before the first report, and then rows and boxes of the
      state last drawn. So the rows are up to date exactly if that state has the rows of the present one,
      and the boxes exactly if it has its boxes. Rows that are out of date take a collision: two states
      with one signature, not both of them clean. */
  lemma ScreenAfterRun(hasCountCb: bool, hasAvailabilityCb: bool, evs: seq<Timed>)
    ensures var p := NewPanel(hasCountCb, hasAvailabilityCb);
            var q, d := Run(p, evs), LastDrawn(p, evs, None);
            if d.None? then q.st == p.st && q.screen.shown == [] && q.screen.mapped == [] else
            && q.screen.shown == Rows(d.value) && q.screen.mapped == Boxes(d.value)
            && (q.screen.shown == Rows(q.st) <==> Rows(d.value) == Rows(q.st))
            && (q.screen.mapped == Boxes(q.st) <==> Boxes(d.value) == Boxes(q.st))
            && |q.screen.mapped| == |d.value.objects|
            && (forall i: nat | i < |d.value.objects| :: q.screen.mapped[i] == d.value.objects[i].box)
            && Signature(d.value) == Signature(q.st)
            && (Clean(d.value) && Clean(q.st) ==> q.screen.shown == Rows(q.st))
  {
    var p := NewPanel(hasCountCb, hasAvailabilityCb);
    RunShows(p, evs, None);
    var q, d := Run(p, evs), LastDrawn(p, evs, None);
    if d.Some? && Clean(d.value) && Clean(q.st) {
      CleanRows(d.value, q.st);
    }
  }

  lemma CleanRows(a: State, b: State)
    requires Clean(a) && Clean(b) && Signature(a) == Signature(b)
    ensures Rows(a) == Rows(b)
  {
    SignatureDecides(a, b);
    AlikeRows(a, b);
  }

  // The object's name with blanks for underscores, or a word for an object without a name.
  ghost predicate IsTitle(title: string, name: string) {
    if name == "" then title == "Object"
    else |title| == |name| && forall k: nat | k < |name| :: title[k] == if name[k] == '_' then ' ' else name[k]
  }

  /** A row says which object it is, is dimmed exactly if the object is excluded, and is highlighted exactly
      if its object is the current one and still printed. */
  lemma RowsMeaning(st: State, i: nat)
    requires i < |st.objects|
    ensures var r, o := Rows(st)[i], st.objects[i];
            && r.number == i + 1 && IsTitle(r.title, o.name)
            && r.status == (if o.excluded then "Excluded"
                            else if o.name == st.current then "Printing now"
                            else "Printing")
            && (r.dimmed <==> o.excluded) && (r.dimmed <==> r.status == "Excluded")
            && (r.highlighted <==> !o.excluded && o.name == st.current)
            && (r.highlighted <==> r.status == "Printing now")
            && '_' !in r.title && ('_' !in o.name && o.name != "" ==> r.title == o.name)
  {
    assert "Excluded"[0] != "Printing"[0] && "Excluded"[0] != "Printing now"[0] && |"Printing"| != |"Printing now"|;
    assert '_' !in "Object";
  }

  // ---------------------------------------------------------------- the bed of the map

  /** The limits at each redrawing. */
  function RedrawEnvs(p: Panel, evs: seq<Timed>, drawn: Option<State>): seq<Env>
    decreases |evs|
  {
    if evs == [] then [] else
    (if Redraws(p, evs[0], drawn) then [evs[0].env] else [])
    + RedrawEnvs(After(p, evs[0]), evs[1..], DrawnAfter(p, evs[0], drawn))
  }

  /** The bed is the last of these limits that are valid, or `start` if none was. */
  ghost predicate LastValid(bed: Bed, start: Bed, envs: seq<Env>) {
    if envs == [] then bed == start else
    var e := envs[|envs| - 1];
    if Limits(e.axisMin, e.axisMax) then
      [Num(bed.minX), Num(bed.minY)] <= e.axisMin.items && [Num(bed.maxX), Num(bed.maxY)] <= e.axisMax.items
    else LastValid(bed, start, envs[..|envs| - 1])
  }

  lemma {:induction false} LastValidFirst(bed: Bed, start: Bed, env: Env, envs: seq<Env>)
    requires LastValid(bed, LoadBed(start, env.axisMin, env.axisMax), envs)
    ensures LastValid(bed, start, [env] + envs)
    decreases |envs|
  {
    var all := [env] + envs;
    if envs == [] {
      assert all[..0] == [];
    } else {
      assert all[..|all| - 1] == [env] + envs[..|envs| - 1] && all[|all| - 1] == envs[|envs| - 1];
      if !Limits(all[|all| - 1].axisMin, all[|all| - 1].axisMax) {
        LastValidFirst(bed, start, env, envs[..|envs| - 1]);
      }
    }
  }

  lemma StepBed(p: Panel, e: Timed, drawn: Option<State>)
    requires ShowsRows(p, drawn)
    ensures After(p, e).screen.bed ==
            if Redraws(p, e, drawn) then LoadBed(p.screen.bed, e.env.axisMin, e.env.axisMax) else p.screen.bed
  {
    if IsReport(e.event) {
      TakenSteps(p, e);
      SignatureNotEmpty(After(p, e).st);
    }
  }

  /** After any run the map shows the bed of the last valid limits found at a redrawing. */
  lemma {:induction false} RunBed(p: Panel, evs: seq<Timed>, drawn: Option<State>)
    requires ShowsRows(p, drawn)
    ensures LastValid(Run(p, evs).screen.bed, p.screen.bed, RedrawEnvs(p, evs, drawn))
    decreases |evs|
  {
    if evs != [] {
      var q, next := After(p, evs[0]), DrawnAfter(p, evs[0], drawn);
      var rest := RedrawEnvs(q, evs[1..], next);
      StepShows(p, evs[0], drawn);
      StepBed(p, evs[0], drawn);
      RunBed(q, evs[1..], next);
      if Redraws(p, evs[0], drawn) {
        LastValidFirst(Run(p, evs).screen.bed, p.screen.bed, evs[0].env, rest);
      } else {
        assert RedrawEnvs(p, evs, drawn) == rest;
      }
    }
  }

  // ---------------------------------------------------------------- clean displays

  /** The screen shows a fresh rendering of the state; only a panel that has never shown anything may differ. */
  ghost predicate Fresh(p: Panel) {
    if p.screen.lastSignature == "" then p.st == State([], "") && p.screen.shown == []
    else p.screen.lastSignature == Signature(p.st) && p.screen.shown == Rows(p.st)
  }

  // A fresh panel shows its own state.
  function Present(p: Panel): Option<State> {
    if p.screen.lastSignature == "" then None else Some(p.st)
  }

  lemma CleanIsFresh(p: Panel, drawn: Option<State>)
    requires ShowsRows(p, drawn) && Clean(p.st) && (drawn.Some? ==> Clean(drawn.value))
    ensures Fresh(p)
  {
    SignatureNotEmpty(p.st);
    if drawn.Some? {
      CleanRows(drawn.value, p.st);
    }
  }

  /** Every event keeps the shown rows a fresh rendering, as long as displays stay clean; after a report that
      was taken in and after a confirmation they are the rows of the state, even the first time. */
  lemma StepKeepsFresh(p: Panel, e: Timed)
    requires Fresh(p) && Clean(p.st) && Clean(After(p, e).st)
    ensures Fresh(After(p, e))
    ensures Taken(p.st, e.event) || Confirms(p, e.event) ==> After(p, e).screen.shown == Rows(After(p, e).st)
  {
    StepShows(p, e, Present(p));
    CleanIsFresh(After(p, e), DrawnAfter(p, e, Present(p)));
  }

  ghost predicate AlwaysClean(p: Panel, evs: seq<Timed>)
    decreases |evs|
  {
    Clean(p.st) && (evs == [] || AlwaysClean(After(p, evs[0]), evs[1..]))
  }

  lemma {:induction false} LastDrawnClean(p: Panel, evs: seq<Timed>, drawn: Option<State>)
    requires AlwaysClean(p, evs) && (drawn.Some? ==> Clean(drawn.value))
    ensures Clean(Run(p, evs).st)
    ensures LastDrawn(p, evs, drawn).Some? ==> Clean(LastDrawn(p, evs, drawn).value)
    decreases |evs|
  {
    if evs != [] {
      assert AlwaysClean(After(p, evs[0]), evs[1..]);
      LastDrawnClean(After(p, evs[0]), evs[1..], DrawnAfter(p, evs[0], drawn));
    }
  }

  /** After any run whose displays stay clean, the rows and highlights on the screen are those of the state. */
  lemma RunKeepsFresh(p: Panel, evs: seq<Timed>)
    requires Fresh(p) && AlwaysClean(p, evs)
    ensures Fresh(Run(p, evs))
  {
    RunShows(p, evs, Present(p));
    LastDrawnClean(p, evs, Present(p));
    CleanIsFresh(Run(p, evs), LastDrawn(p, evs, Present(p)));
  }

  /** The first report, opening and confirming, and reports that change a name, a flag or the current object. */
  ghost predicate Alters(p: Panel, e: Timed, drawn: Option<State>) {
    if Taken(p.st, e.event) then e.event.Open? || drawn.None? || !Alike(p.st, After(p, e).st) else Confirms(p, e.event)
  }

  ghost function LastAltered(p: Panel, evs: seq<Timed>, drawn: Option<State>): Option<State>
    decreases |evs|
  {
    if evs == [] then drawn else
    LastAltered(After(p, evs[0]), evs[1..], if Alters(p, evs[0], drawn) then Some(After(p, evs[0]).st) else drawn)
  }

  /** With clean displays these are exactly the events that draw the screen again, so after any such run the
      state last drawn is the one they last left. */
  lemma {:induction false} LastDrawnWhenClean(p: Panel, evs: seq<Timed>, drawn: Option<State>)
    requires ShowsRows(p, drawn) && AlwaysClean(p, evs)
    ensures LastDrawn(p, evs, drawn) == LastAltered(p, evs, drawn)
    decreases |evs|
  {
    if evs != [] {
      var q := After(p, evs[0]);
      assert AlwaysClean(q, evs[1..]);
      if drawn.Some? {
        SignatureDecides(p.st, q.st);
      }
      StepShows(p, evs[0], drawn);
      LastDrawnWhenClean(q, evs[1..], DrawnAfter(p, evs[0], drawn));
    }
  }

  // ---------------------------------------------------------------- stale rows

  // One report that does not open the panel redraws all or nothing.
  lemma StaleExactly(p: Panel, e: Timed)
    requires (e.event.Consume? || e.event.Sync?) && Taken(p.st, e.event)
    ensures var s, q := p.screen, After(p, e);
            && (q.screen.shown == Rows(q.st) <==> Signature(q.st) != s.lastSignature || s.shown == Rows(q.st))
            && (q.screen.mapped == Boxes(q.st) <==> Signature(q.st) != s.lastSignature || s.mapped == Boxes(q.st))
  {
    TakenSteps(p, e);
  }

  function Strings(names: seq<string>): seq<Json> {
    seq(|names|, i requires 0 <= i < |names| => Str(names[i]))
  }

  /** A full report of objects without polygons. */
  function Report(names: seq<string>, excluded: seq<string>, current: string): Json {
    Obj(map["objects" := Arr(seq(|names|, i requires 0 <= i < |names| => Obj(map["name" := Str(names[i])]))),
            "excluded_objects" := Arr(Strings(excluded)), "current_object" := Str(current)])
  }

  function Reported(names: seq<string>, excluded: seq<string>, current: string): State {
    State(seq(|names|, i requires 0 <= i < |names| => Object(names[i], NO_BOX, names[i] in excluded)), current)
  }

  lemma {:induction false} ParseNamed(items: seq<Json>, names: seq<string>, known: seq<Object>)
    requires |items| == |names| && forall i: nat | i < |items| :: items[i] == Obj(map["name" := Str(names[i])])
    ensures var r := ParseObjects(items, known);
            r.Ok? && forall i: nat | i < |items| :: r.value[i].name == names[i] && r.value[i].box == NO_BOX
    decreases |items|
  {
    if items != [] {
      ParseNamed(items[..|items| - 1], names[..|items| - 1], known);
    }
  }

  lemma MergeReport(st: State, names: seq<string>, excluded: seq<string>, current: string)
    ensures Merge(st, Report(names, excluded, current)) == Ok(Reported(names, excluded, current))
  {
    var f := Report(names, excluded, current).fields;
    ParseNamed(f["objects"].items, names, st.objects);
    var marks := Strings(excluded);
    assert forall s :: s in Names(marks) <==> s in excluded by {
      assert forall i: nat | i < |excluded| :: marks[i] == Str(excluded[i]);
    }
    var objects := ParseObjects(f["objects"].items, st.objects).value;
    assert Marked(objects, Names(marks)) == Reported(names, excluded, current).objects;
  }

  // A new panel that takes in two reports.
  function TwoReports(first: Json, second: Json, env: Env): Panel {
    Run(NewPanel(true, true), [Timed(Consume(first), env), Timed(Consume(second), env)])
  }

  lemma RunTwo(p: Panel, e: Timed, f: Timed)
    ensures Run(p, [e, f]) == After(After(p, e), f)
  {
    assert [e, f][1..] == [f] && [f][1..] == [];
    assert Run(p, [e, f]) == Run(After(p, e), [f]) == Run(After(After(p, e), f), []);
  }

  lemma StaysStale(names: seq<string>, excluded: seq<string>, current: string,
                   names': seq<string>, excluded': seq<string>, current': string, env: Env)
    requires var a, b := Reported(names, excluded, current), Reported(names', excluded', current');
             Signature(a) == Signature(b) && Rows(a) != Rows(b)
    ensures var q := TwoReports(Report(names, excluded, current), Report(names', excluded', current'), env);
            q.st == Reported(names', excluded', current') && q.screen.shown != Rows(q.st)
  {
    var first, second := Report(names, excluded, current), Report(names', excluded', current');
    var p, e, f := NewPanel(true, true), Timed(Consume(first), env), Timed(Consume(second), env);
    RunTwo(p, e, f);
    MergeReport(p.st, names, excluded, current);
    SignatureNotEmpty(Reported(names, excluded, current));
    MergeReport(After(p, e).st, names', excluded', current');
    TakenSteps(p, e);
    StaleExactly(After(p, e), f);
  }

  /** Two objects reported where one with a comma in its name was shown: the old row stays. */
  lemma CommaGoesStale(left: string, right: string, current: string, env: Env)
    ensures var q := TwoReports(Report([left + "," + right], [], current), Report([left, right], [], current), env);
            q.st == Reported([left, right], [], current) && q.screen.shown != Rows(q.st)
  {
    var name := left + "," + right;
    var a, b := Reported([name], [], current), Reported([left, right], [], current);
    var o := Object(name, NO_BOX, false);
    assert name[..|left|] == left && name[|left| + 1..] == right;
    assert a.objects == [o] && Swapped(a, 0, Halves(o, |left|)) == b;
    HalvesText(o, |left|);
    SwappedSignature(a, 0, Halves(o, |left|));
    assert |Rows(a)| != |Rows(b)|;
    StaysStale([name], [], current, [left, right], [], current, env);
  }

  /** An object reported as excluded where one with '!' at the end of its name was shown: it stays undimmed. */
  lemma BangGoesStale(name: string, current: string, env: Env)
    ensures var q := TwoReports(Report([name + "!"], [], current), Report([name], [name], current), env);
            q.st == Reported([name], [name], current) && q.screen.shown != Rows(q.st)
  {
    var a, b := Reported([name + "!"], [], current), Reported([name], [name], current);
    var o := Object(name + "!", NO_BOX, false);
    assert a.objects == [o] && o.name[..|name|] == name && Swapped(a, 0, [Banged(o)]) == b;
    BangedText(o);
    EntriesOne(Banged(o));
    SwappedSignature(a, 0, [Banged(o)]);
    assert Rows(a)[0].dimmed != Rows(b)[0].dimmed;
    StaysStale([name + "!"], [], current, [name], [name], current, env);
  }

  /** A '|' in the current object: the old title stays. */
  lemma BarGoesStale(current: string, more: string, name: string, env: Env)
    ensures var first, second := Report([name], [], current + "|" + more), Report([more + "|" + name], [], current);
            var q := TwoReports(first, second, env);
            q.st == Reported([more + "|" + name], [], current) && q.screen.shown != Rows(q.st)
  {
    var long := current + "|" + more;
    var a, b := Reported([name], [], long), Reported([more + "|" + name], [], current);
    assert long[..|current|] == current && long[|current| + 1..] == more;
    assert a.objects == [Object(name, NO_BOX, false)] && Shifted(a, |current|) == b;
    ShiftedSignature(a, |current|);
    ShiftedTitle(more, name);
    assert Rows(a)[0].title != Rows(b)[0].title;
    StaysStale([name], [], long, [more + "|" + name], [], current, env);
  }

  // ---------------------------------------------------------------- stale boxes

  // An object with a center and no polygon.
  function Centered(name: string, x: real, y: real): Json {
    Obj(map["objects" := Arr([Obj(map["name" := Str(name), "center" := Arr([Num(x), Num(y)])])])])
  }

  lemma MergeCentered(st: State, name: string, x: real, y: real)
    requires st.objects == [] || st.objects == [Object(name, st.objects[0].box, false)]
    ensures Merge(st, Centered(name, x, y)) ==
            var box := Box(x - CENTER_HALF, y - CENTER_HALF, x + CENTER_HALF, y + CENTER_HALF);
            Ok(State([Object(name, box, false)], st.current))
  {
    var o := map["name" := Str(name), "center" := Arr([Num(x), Num(y)])];
    assert "polygon" !in o by {
      assert "polygon"[0] != "name"[0] && "polygon"[0] != "center"[0];
    }
    assert "name"[0] != "center"[0];
    assert o["name"] == Str(name) && o["center"] == Arr([Num(x), Num(y)]);
    assert "current_object"[0] != "objects"[0] && "excluded_objects"[0] != "objects"[0];
    var box := Box(x - CENTER_HALF, y - CENTER_HALF, x + CENTER_HALF, y + CENTER_HALF);
    assert BoxOf(o) == Ok(box);
    assert ParseObject(Obj(o), st.objects) == Ok(Object(name, box, false));
    var items := [Obj(o)];
    ParseOne(items, st.objects);
  }

  /** One object whose center moves: the map keeps the old box. */
  lemma MapGoesStale(name: string, x: real, y: real, x': real, y': real, env: Env)
    requires x != x' || y != y'
    ensures var q := TwoReports(Centered(name, x, y), Centered(name, x', y'), env);
            && q.screen.shown == Rows(q.st) && |q.screen.mapped| == 1 == |q.st.objects|
            && q.screen.mapped[0] == Box(x - CENTER_HALF, y - CENTER_HALF, x + CENTER_HALF, y + CENTER_HALF)
            && q.st.objects[0].box == Box(x' - CENTER_HALF, y' - CENTER_HALF, x' + CENTER_HALF, y' + CENTER_HALF)
            && q.screen.mapped[0] != q.st.objects[0].box
  {
    var p := NewPanel(true, true);
    var e, f := Timed(Consume(Centered(name, x, y)), env), Timed(Consume(Centered(name, x', y')), env);
    RunTwo(p, e, f);
    MergeCentered(p.st, name, x, y);
    var q := After(p, e);
    SignatureNotEmpty(q.st);
    MergeCentered(q.st, name, x', y');
    TakenSteps(p, e);
    TakenSteps(q, f);
    EntriesSame(q.st.objects, After(q, f).st.objects);
    AlikeRows(q.st, After(q, f).st);
  }

  // ---------------------------------------------------------------- the callbacks

  // The number of objects after each report that was taken in.
  function Counts(p: Panel, evs: seq<Timed>): seq<nat>
    decreases |evs|
  {
    if evs == [] then [] else
    var q := After(p, evs[0]);
    StepCounts(p, evs[0]) + Counts(q, evs[1..])
  }

  function StepCounts(p: Panel, e: Timed): seq<nat> {
    if Taken(p.st, e.event) then [|After(p, e).st.objects|] else []
  }

  function Available(counts: seq<nat>): (flags: seq<bool>)
    ensures |flags| == |counts|
  {
    if counts == [] then [] else [counts[0] > 0] + Available(counts[1..])
  }

  // What a callback is given, if it is set.
  function Given<T>(isSet: bool, values: seq<T>): seq<T> {
    if isSet then values else []
  }

  lemma StepReports(p: Panel, e: Timed)
    ensures var t, u := p.told, After(p, e).told; var ns := StepCounts(p, e);
            && u.hasCountCb == t.hasCountCb && u.hasAvailabilityCb == t.hasAvailabilityCb
            && u.counts == t.counts + Given(t.hasCountCb, Changes(t.lastCount, ns))
            && u.lastCount == ([t.lastCount] + ns)[|ns|]
            && u.availability == t.availability + Given(t.hasAvailabilityCb, Changes(t.lastAvailable, Available(ns)))
            && u.lastAvailable == ([t.lastAvailable] + Available(ns))[|ns|]
  {
    if Taken(p.st, e.event) {
      TakenSteps(p, e);
      ToldOnce(p.told, |After(p, e).st.objects|);
    } else if IsReport(e.event) {
      TakenSteps(p, e);
    }
  }

  lemma ToldOnce(t: Told, n: nat)
    ensures var u := UpdateAvailability(t, n);
            && u.hasCountCb == t.hasCountCb && u.hasAvailabilityCb == t.hasAvailabilityCb
            && u.lastCount == n && u.lastAvailable == (n > 0)
            && u.counts == t.counts + Given(t.hasCountCb, Changes(t.lastCount, [n]))
            && u.availability == t.availability + Given(t.hasAvailabilityCb, Changes(t.lastAvailable, Available([n])))
  {
    assert [n][1..] == [] && Available([n]) == [n > 0];
    assert [n > 0][1..] == [];
  }

  lemma {:induction false} AvailableAppend(xs: seq<nat>, ys: seq<nat>)
    ensures Available(xs + ys) == Available(xs) + Available(ys)
  {
    if xs == [] {
      assert xs + ys == ys;
    } else {
      assert (xs + ys)[1..] == xs[1..] + ys;
      AvailableAppend(xs[1..], ys);
    }
  }

  lemma GivenJoin<T>(isSet: bool, a: seq<T>, b: seq<T>, c: seq<T>, before: T, mid: T, xs: seq<T>, ys: seq<T>)
    requires b == a + Given(isSet, Changes(before, xs)) && c == b + Given(isSet, Changes(mid, ys))
    requires mid == ([before] + xs)[|xs|]
    ensures c == a + Given(isSet, Changes(before, xs + ys))
  {
    if isSet {
      ChangesJoin(a, b, c, before, mid, xs, ys);
    }
  }

  /** Over any run, what each callback is told, if it is set, are the object counts, or whether there are any,
      with adjacent repeats removed. */
  lemma {:induction false} CallbacksReportChanges(p: Panel, evs: seq<Timed>)
    ensures var s, t, ns := p.told, Run(p, evs).told, Counts(p, evs);
            && t.counts == s.counts + Given(s.hasCountCb, Changes(s.lastCount, ns))
            && t.availability == s.availability + Given(s.hasAvailabilityCb, Changes(s.lastAvailable, Available(ns)))
    decreases |evs|
  {
    if evs != [] {
      var q := After(p, evs[0]);
      var ns, rest := StepCounts(p, evs[0]), Counts(q, evs[1..]);
      StepReports(p, evs[0]);
      CallbacksReportChanges(q, evs[1..]);
      var t, u, w := p.told, q.told, Run(p, evs).told;
      GivenJoin(t.hasCountCb, t.counts, u.counts, w.counts, t.lastCount, u.lastCount, ns, rest);
      AvailableAppend(ns, rest);
      GivenJoin(t.hasAvailabilityCb, t.availability, u.availability, w.availability, t.lastAvailable, u.lastAvailable,
                Available(ns), Available(rest));
    }
  }

  // ---------------------------------------------------------------- the dialog

  function NamesOf(st: State): (names: seq<string>)
    ensures |names| == |st.objects|
  {
    seq(|st.objects|, i requires 0 <= i < |st.objects| => st.objects[i].name)
  }

  // Reports only, and each leaves the same names in the same places.
  predicate NamesKept(p: Panel, evs: seq<Timed>)
    decreases |evs|
  {
    evs == [] ||
    (IsReport(evs[0].event) && NamesOf(After(p, evs[0]).st) == NamesOf(p.st) && NamesKept(After(p, evs[0]), evs[1..]))
  }

  lemma {:induction false} ReportsKeepNames(p: Panel, evs: seq<Timed>)
    requires NamesKept(p, evs)
    ensures NamesOf(Run(p, evs).st) == NamesOf(p.st) && Run(p, evs).dialog == p.dialog
    decreases |evs|
  {
    if evs != [] {
      TakenSteps(p, evs[0]);
      ReportsKeepNames(After(p, evs[0]), evs[1..]);
    }
  }

  /** Confirming after any reports that keep the sequence of names excludes the object that was asked about,
      once: the G-code names it, it is marked and shown so, and confirming again does nothing. */
  lemma ConfirmExcludesAsked(p: Panel, index: nat, evs: seq<Timed>, env: Env)
    requires Askable(p.st, index) && NamesKept(AskFor(p, index), evs)
    ensures var q := Run(AskFor(p, index), evs); var r := DoExclude(q, env);
            && r.dialog.sent == p.dialog.sent + ["EXCLUDE_OBJECT NAME=" + p.st.objects[index].name]
            && index < |q.st.objects| && r.st == Exclude(q.st, index)
            && |r.st.objects| == |q.st.objects| && r.st.objects[index].excluded && Rows(r.st)[index].dimmed
            && (forall i: nat | i < |q.st.objects| && i != index :: r.st.objects[i] == q.st.objects[i])
            && r.screen.shown == Rows(r.st) && r.screen.lastSignature == Signature(r.st)
            && r.screen.mapped == Boxes(r.st)
            && DoExclude(r, env) == r
  {
    ReportsKeepNames(AskFor(p, index), evs);
    var q := Run(AskFor(p, index), evs);
    assert NamesOf(q.st)[index] == NamesOf(AskFor(p, index).st)[index];
  }

  /** The name that stands at `index` after a report, `known` before it: a list of objects that is read
      without an exception decides it, by its own entry there; any other report leaves it. */
  function ListedAt(e: Event, index: nat, known: Option<string>): Option<string>
    requires IsReport(e)
  {
    var status := StatusOf(e);
    if !(status.Obj? && HasArray(status.fields, "objects")) then known else
    var items := status.fields["objects"].items;
    if ParseObjects(items, []).Thrown? then known
    else if index < |items| then NameIn(items[index])
    else None
  }

  function ListedAfter(evs: seq<Timed>, index: nat, known: Option<string>): Option<string>
    requires forall e <- evs :: IsReport(e.event)
  {
    if evs == [] then known else ListedAfter(evs[1..], index, ListedAt(evs[0].event, index, known))
  }

  function NameAt(st: State, index: nat): Option<string> {
    if index < |st.objects| then Some(st.objects[index].name) else None
  }

  lemma MergeLists(st: State, status: Json, index: nat)
    requires Merge(st, status).Ok?
    ensures NameAt(Merge(st, status).value, index) ==
            if !(status.Obj? && HasArray(status.fields, "objects")) then NameAt(st, index)
            else if index < |status.fields["objects"].items| then NameIn(status.fields["objects"].items[index])
            else None
  {
    if status.Obj? && HasArray(status.fields, "objects") {
      var items := status.fields["objects"].items;
      if index < |items| {
        ParseAt(items, st.objects, index);
      }
    }
  }

  lemma StepLists(p: Panel, e: Timed, index: nat)
    requires IsReport(e.event)
    ensures NameAt(After(p, e).st, index) == ListedAt(e.event, index, NameAt(p.st, index))
    ensures After(p, e).dialog == p.dialog
  {
    TakenSteps(p, e);
    var status := StatusOf(e.event);
    if status.Obj? && HasArray(status.fields, "objects") {
      ParseOther(status.fields["objects"].items, p.st.objects, []);
    }
    if Taken(p.st, e.event) {
      MergeLists(p.st, status, index);
    }
  }

  lemma {:induction false} RunLists(p: Panel, evs: seq<Timed>, index: nat)
    requires forall e <- evs :: IsReport(e.event)
    ensures NameAt(Run(p, evs).st, index) == ListedAfter(evs, index, NameAt(p.st, index))
    ensures Run(p, evs).dialog == p.dialog
    decreases |evs|
  {
    if evs != [] {
      StepLists(p, evs[0], index);
      RunLists(After(p, evs[0]), evs[1..], index);
    }
  }

  /** The dialog remembers a place, not an object: after any reports, confirming names the object that the
      last list of objects has in that place, or nothing if that list is shorter. So the object asked
      about is the one that is excluded exactly if that list has its name there. */
  lemma ConfirmSendsListed(p: Panel, index: nat, evs: seq<Timed>, env: Env)
    requires Askable(p.st, index) && forall e <- evs :: IsReport(e.event)
    ensures var asked := p.st.objects[index].name; var listed := ListedAfter(evs, index, Some(asked));
            var r := DoExclude(Run(AskFor(p, index), evs), env);
            && r.dialog.sent == p.dialog.sent + (if listed.Some? then ["EXCLUDE_OBJECT NAME=" + listed.value] else [])
            && (r.dialog.sent == p.dialog.sent + ["EXCLUDE_OBJECT NAME=" + asked] <==> listed == Some(asked))
  {
    RunLists(AskFor(p, index), evs, index);
    var asked := p.st.objects[index].name;
    var listed := ListedAfter(evs, index, Some(asked));
    if listed.Some? {
      GcodeTellsNames(p.dialog.sent, listed.value, asked);
    } else {
      assert |p.dialog.sent + []| != |p.dialog.sent + [GcodeFor(asked)]|;
    }
  }

  lemma GcodeTellsNames(sent: seq<string>, a: string, b: string)
    ensures sent + [GcodeFor(a)] == sent + [GcodeFor(b)] <==> a == b
  {
    assert (sent + [GcodeFor(a)])[|sent|] == GcodeFor(a) && (sent + [GcodeFor(b)])[|sent|] == GcodeFor(b);
    assert GcodeFor(a)[|GcodeFor("")|..] == a && GcodeFor(b)[|GcodeFor("")|..] == b;
  }

  // A new panel is told of some objects, the first is asked about, others are listed, and it is confirmed.
  function AskedFirst(names: seq<string>, later: seq<string>, env: Env): Panel {
    var p := After(NewPanel(true, true), Timed(Consume(Report(names, [], "")), env));
    DoExclude(Run(AskFor(p, 0), [Timed(Sync(Report(later, [], "")), env)]), env)
  }

  /** Asked about the first object, the panel excludes whichever is first when it is confirmed, or none. */
  lemma ReorderedMisses(names: seq<string>, later: seq<string>, env: Env)
    requires names != []
    ensures AskedFirst(names, later, env).dialog.sent == if later == [] then [] else [GcodeFor(later[0])]
  {
    var p := After(NewPanel(true, true), Timed(Consume(Report(names, [], "")), env));
    var e := Timed(Sync(Report(later, [], "")), env);
    MergeReport(State([], ""), names, [], "");
    assert p.st == Reported(names, [], "") && p.dialog == Dialog(-1, []);
    MergeReport(p.st, later, [], "");
    assert [e][1..] == [];
    assert Run(AskFor(p, 0), [e]) == After(AskFor(p, 0), e);
  }

  /** Only an object that is listed and not yet excluded can be asked about: with nothing pending, asking and
      confirming sends something exactly if it is one. Cancelling takes the question back. */
  lemma OnlyPrintedAreAsked(p: Panel, index: int, env: Env, e: Env)
    requires p.dialog.pending == -1
    ensures var q := AskFor(p, index);
            && (DoExclude(q, env).dialog.sent != p.dialog.sent <==>
                  0 <= index < |p.st.objects| && !p.st.objects[index].excluded)
            && After(q, Timed(Cancel, e)) == p && DoExclude(p, env) == p
  {
    if Askable(p.st, index) {
      assert |DoExclude(AskFor(p, index), env).dialog.sent| == |p.dialog.sent| + 1;
    }
  }

  /** Objects a and b, and a is asked about. Listed in the same order again, a is excluded; in the other order,
      b is; listed no more, none is. */
  lemma ReorderedExample(env: Env)
    ensures AskedFirst(["a", "b"], ["a", "b"], env).dialog.sent == ["EXCLUDE_OBJECT NAME=a"]
    ensures AskedFirst(["a", "b"], ["b", "a"], env).dialog.sent == ["EXCLUDE_OBJECT NAME=b"]
    ensures AskedFirst(["a", "b"], [], env).dialog.sent == []
  {
    var names := ["a", "b"];
    ReorderedMisses(names, ["a", "b"], env);
    ReorderedMisses(names, ["b", "a"], env);
    ReorderedMisses(names, [], env);
    LiteralCommand("a");
    LiteralCommand("b");
  }

  lemma LiteralCommand(name: string)
    requires |name| == 1
    ensures GcodeFor(name) == "EXCLUDE_OBJECT NAME=" + name
    ensures name == "a" ==> GcodeFor(name) == "EXCLUDE_OBJECT NAME=a"
    ensures name == "b" ==> GcodeFor(name) == "EXCLUDE_OBJECT NAME=b"
  {
    assert "EXCLUDE_OBJECT NAME=" + "a" == "EXCLUDE_OBJECT NAME=a";
    assert "EXCLUDE_OBJECT NAME=" + "b" == "EXCLUDE_OBJECT NAME=b";
  }
}
