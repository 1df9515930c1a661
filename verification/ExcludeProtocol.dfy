/** The panel as a machine: status reports, the periodic look at the full state, and the dialog. The
    class in ExcludePanel makes exactly these steps. */
module ExcludeProtocol {
  import opened Wrappers
  import opened Json
  import opened ExcludeState
  import opened BedMap

  /** The axis limits the rest of the program holds while a step runs. */
  datatype Env = Env(axisMin: Json, axisMax: Json)

  /** What is on the screen: the rows, and the boxes on the map as drawn for `bed`. */
  datatype Screen = Screen(lastSignature: string, shown: seq<Row>, mapped: seq<Box>, bed: Bed)

  /** The two callbacks: whether they are set, the value each was last compared with, and what it was given. */
  datatype Told = Told(hasCountCb: bool, lastCount: nat, counts: seq<nat>,
                       hasAvailabilityCb: bool, lastAvailable: bool, availability: seq<bool>)

  /** The object waiting for confirmation, and the G-code sent so far. */
  datatype Dialog = Dialog(pending: int, sent: seq<string>)

  datatype Panel = Panel(st: State, screen: Screen, told: Told, dialog: Dialog)

  /** The panel as its constructor leaves it, with the callbacks that are set. */
  function NewPanel(hasCountCb: bool, hasAvailabilityCb: bool): Panel {
    Panel(State([], ""), Screen("", [], [], DEFAULT_BED),
          Told(hasCountCb, 0, [], hasAvailabilityCb, false, []), Dialog(-1, []))
  }

  datatype Event =
    | Consume(status: Json)
    | Sync(full: Json)
    | Open(full: Json)
    | Ask(index: int)
    | Cancel
    | Confirm

  function Boxes(st: State): (boxes: seq<Box>)
    ensures |boxes| == |st.objects|
  {
    seq(|st.objects|, i requires 0 <= i < |st.objects| => st.objects[i].box)
  }

  function TellCount(t: Told, n: nat): Told {
    if n == t.lastCount then t else t.(lastCount := n, counts := t.counts + if t.hasCountCb then [n] else [])
  }

  function TellAvailable(t: Told, available: bool): Told {
    if available == t.lastAvailable then t
    else t.(lastAvailable := available,
            availability := t.availability + if t.hasAvailabilityCb then [available] else [])
  }

  /** update_availability */
  function UpdateAvailability(t: Told, n: nat): Told {
    TellAvailable(TellCount(t, n), n > 0)
  }

  function Rebuild(s: Screen, st: State, env: Env): Screen {
    Screen(s.lastSignature, Rows(st), Boxes(st), LoadBed(s.bed, env.axisMin, env.axisMax))
  }

  function RebuildIfChanged(s: Screen, st: State, env: Env): Screen {
    var sig := Signature(st);
    if sig == s.lastSignature then s else Rebuild(s.(lastSignature := sig), st, env)
  }

  // The common end of consume and sync_from_state.
  function Refresh(p: Panel, st: State, env: Env): Panel {
    Panel(st, RebuildIfChanged(p.screen, st, env), UpdateAvailability(p.told, |st.objects|), p.dialog)
  }

  function ConsumeStatus(p: Panel, status: Json, env: Env): Result<Panel> {
    if status.Null? then Ok(p) else
    var st :- Merge(p.st, status);
    Ok(Refresh(p, st, env))
  }

  function SyncFull(p: Panel, full: Json, env: Env): Result<Panel> {
    var st :- if full.Obj? then Merge(p.st, full) else Ok(p.st);
    Ok(Refresh(p, st, env))
  }

  /** foreground */
  function OpenPanel(p: Panel, full: Json, env: Env): Result<Panel> {
    var q :- SyncFull(p, full, env);
    Ok(q.(screen := Rebuild(q.screen, q.st, env)))
  }

  predicate Askable(st: State, index: int) {
    0 <= index < |st.objects| && !st.objects[index].excluded
  }

  function AskFor(p: Panel, index: int): Panel {
    if Askable(p.st, index) then p.(dialog := p.dialog.(pending := index)) else p
  }

  function GcodeFor(name: string): string {
    "EXCLUDE_OBJECT NAME=" + name
  }

  function Exclude(st: State, index: nat): State
    requires index < |st.objects|
  {
    st.(objects := st.objects[index := st.objects[index].(excluded := true)])
  }

  function DoExclude(p: Panel, env: Env): Panel {
    var i := p.dialog.pending;
    if !(0 <= i < |p.st.objects|) then p else
    var st := Exclude(p.st, i);
    Panel(st, Rebuild(p.screen.(lastSignature := Signature(st)), st, env), p.told,
          Dialog(-1, p.dialog.sent + [GcodeFor(p.st.objects[i].name)]))
  }

  /** An exception leaves the panel as it was: merging builds the new list before it stores it. */
  function Next(p: Panel, e: Event, env: Env): Panel {
    match e
    case Consume(status) => var r := ConsumeStatus(p, status, env); if r.Ok? then r.value else p
    case Sync(full) => var r := SyncFull(p, full, env); if r.Ok? then r.value else p
    case Open(full) => var r := OpenPanel(p, full, env); if r.Ok? then r.value else p
    case Ask(index) => AskFor(p, index)
    case Cancel => p.(dialog := p.dialog.(pending := -1))
    case Confirm => DoExclude(p, env)
  }

  /** An event, and the limits at the time. */
  datatype Timed = Timed(event: Event, env: Env)

  function After(p: Panel, e: Timed): Panel {
    Next(p, e.event, e.env)
  }

  function Run(p: Panel, evs: seq<Timed>): Panel
    decreases |evs|
  {
    if evs == [] then p else Run(After(p, evs[0]), evs[1..])
  }
}
