/** The calibration protocol: what the input driver (lv_tc.c) and the calibration screen
    (lv_tc_screen.c) do, as a state machine over touch samples, timers and button clicks. The classes
    in TouchScreen are proved to make exactly these steps; the theorems are about whole runs. */
module TouchProtocol {
  import opened Wrappers
  import opened TouchGeometry

  datatype Contact = Released | Pressed

  datatype Sample = Sample(contact: Contact, point: Point)

  /** What LVGL is told; `None` is a coordinate with no defined value (NaN converted to an integer). */
  datatype Report = Report(contact: Contact, point: Option<Point>)

  /** The cursor image; `Unplaced` is a new one, visible where LVGL puts it. */
  datatype Indicator = Unplaced | Hidden | At(point: Option<Point>)

  type Points = ps: seq<Point> | |ps| == 3 witness [Point(0, 0), Point(0, 0), Point(0, 0)]

  const STEP_INIT: nat := 0
  const STEP_FIRST: nat := 1
  const STEP_FINISH: nat := 4
  const RECALIB_TIMEOUT_S: nat := 30
  const ORIGIN := Point(0, 0)

  /** The statics of lv_tc.c. `saved` are the coefficients handed to the save callback so far. */
  datatype Driver = Driver(calib: Coeff, lastPoint: Point, lastContact: Contact,
                           registered: bool, hasSaveCb: bool, saved: seq<Coeff>)

  /** The screen object, with the LVGL timers it has created and that still exist: `delays` start-delay
      timers, and recalibration timers by number with their remaining ticks. `recal` is the one the
      object remembers. `ready` are the coefficients announced as final. */
  datatype Screen = Screen(scr: Points, tch: Points, step: nat, inputEnabled: bool, indicator: Indicator,
                           delays: nat, ticks: map<nat, nat>, recal: Option<nat>, nextTimer: nat,
                           ready: seq<Coeff>)

  datatype Machine = Machine(tc: Driver, screen: Screen)

  datatype Event =
    | Read(sample: Sample, active: bool)  // `active`: the calibration screen is the one being shown
    | StartCall
    | DelayElapsed
    | RecalTick(id: nat)
    | RecalibrateClick
    | AcceptClick

  // ---------------------------------------------------------------- the steps

  /** lv_tc_screen_finish */
  function Finish(s: Screen): Screen {
    s.(ticks := s.ticks[s.nextTimer := RECALIB_TIMEOUT_S], recal := Some(s.nextTimer), nextTimer := s.nextTimer + 1)
  }

  /** lv_tc_screen_step */
  function GoTo(m: Machine, step: nat, p: Point): Machine
    requires step <= STEP_FINISH
  {
    var tch := if step > STEP_FIRST then m.screen.tch[step - 2 := p] else m.screen.tch;
    var s := m.screen.(step := step, tch := tch);
    if step == STEP_FINISH then
      m.(tc := m.tc.(calib := ComputeCoeff(s.scr, s.tch)), screen := Finish(s))
    else
      m.(screen := s.(indicator := if step == STEP_INIT then Hidden else At(Some(s.scr[step - 1]))))
  }

  function DropRecalTimer(s: Screen): Screen {
    if s.recal.Some? then s.(ticks := s.ticks - {s.recal.value}, recal := None) else s
  }

  /** lv_tc_screen_start_with_config */
  function Start(m: Machine): Machine {
    var n := GoTo(m.(screen := DropRecalTimer(m.screen)), STEP_INIT, ORIGIN);
    n.(tc := n.tc.(registered := true), screen := n.screen.(delays := n.screen.delays + 1))
  }

  /** lv_tc_screen_start_delay_timer; the timer runs once */
  function DelayTimer(m: Machine): Machine
    requires m.screen.delays > 0
  {
    GoTo(m.(screen := m.screen.(delays := m.screen.delays - 1)), STEP_FIRST, ORIGIN)
  }

  /** lv_tc_screen_recalibrate_timer; LVGL counts down first and deletes the timer after its last run */
  function RecalTimer(m: Machine, id: nat): Machine
    requires id in m.screen.ticks && m.screen.ticks[id] > 0
  {
    var left: nat := m.screen.ticks[id] - 1;
    if left == 0 then
      var n := Start(m);
      n.(screen := n.screen.(ticks := n.screen.ticks - {id}))
    else
      m.(screen := m.screen.(ticks := m.screen.ticks[id := left]))
  }

  /** lv_tc_screen_ready */
  function Ready(m: Machine): Machine {
    var tc := if m.tc.hasSaveCb then m.tc.(saved := m.tc.saved + [m.tc.calib]) else m.tc;
    var s := DropRecalTimer(m.screen);
    Machine(tc, s.(ready := s.ready + [m.tc.calib]))
  }

  /** lv_tc_screen_process_input */
  function ProcessInput(m: Machine, p: Point, d: Display): Machine {
    if m.screen.step <= STEP_INIT then m
    else if m.screen.step < STEP_FINISH then
      GoTo(m.(screen := m.screen.(inputEnabled := false)), m.screen.step + 1, p)
    else
      m.(screen := m.screen.(indicator := At(Transform(m.tc.calib, d, p))))
  }

  /** lv_tc_screen_input_cb; the sample is LVGL's own business again once the step is FINISH */
  function Input(m: Machine, s: Sample, d: Display): Machine {
    var n := if m.screen.inputEnabled && s.contact.Pressed? then ProcessInput(m, s.point, d) else m;
    if s.contact.Released? then n.(screen := n.screen.(inputEnabled := true)) else n
  }

  /** _lv_tc_transform_point_indev: what is remembered, and what is reported */
  function Remember(tc: Driver, s: Sample): Driver {
    if s.contact.Pressed? then tc.(lastPoint := s.point, lastContact := Pressed)
    else if tc.lastContact.Pressed? then tc.(lastContact := Released)
    else tc
  }

  function Reported(tc: Driver, s: Sample, d: Display): Option<Point> {
    if s.contact.Pressed? then Transform(tc.calib, d, s.point)
    else if tc.lastContact.Pressed? then Transform(tc.calib, d, tc.lastPoint)
    else Some(ORIGIN)
  }

  /** lv_tc_indev_drv_read_cb */
  function ReadSample(m: Machine, s: Sample, active: bool, d: Display): (r: (Machine, Report)) {
    var offered := m.tc.registered && active;
    var n := if offered then Input(m, s, d) else m;
    if offered && n.screen.step < STEP_FINISH then
      (n, Report(Released, Some(ORIGIN)))
    else
      (n.(tc := Remember(n.tc, s)), Report(s.contact, Reported(n.tc, s, d)))
  }

  predicate Possible(m: Machine, e: Event) {
    match e
    case DelayElapsed => m.screen.delays > 0
    case RecalTick(id) => id in m.screen.ticks && m.screen.ticks[id] > 0
    case _ => true
  }

  function Next(m: Machine, e: Event, d: Display): Machine
    requires Possible(m, e)
  {
    match e
    case Read(s, active) => ReadSample(m, s, active, d).0
    case StartCall => Start(m)
    case DelayElapsed => DelayTimer(m)
    case RecalTick(id) => RecalTimer(m, id)
    case RecalibrateClick => Start(m)
    case AcceptClick => Ready(m)
  }

  predicate Runs(m: Machine, evs: seq<Event>, d: Display)
    decreases |evs|
  {
    evs == [] || (Possible(m, evs[0]) && Runs(Next(m, evs[0], d), evs[1..], d))
  }

  function Run(m: Machine, evs: seq<Event>, d: Display): Machine
    requires Runs(m, evs, d)
    decreases |evs|
  {
    if evs == [] then m else Run(Next(m, evs[0], d), evs[1..], d)
  }

  /** A freshly created screen; the driver may be in any state. */
  ghost predicate Boot(m: Machine) {
    && m.screen.step == STEP_INIT
    && m.screen.inputEnabled
    && m.screen.indicator == Unplaced
    && m.screen.delays == 0
    && m.screen.ticks == map[]
    && m.screen.recal == None
  }

  lemma {:induction false} RunAppend(m: Machine, a: seq<Event>, b: seq<Event>, d: Display)
    requires Runs(m, a, d) && Runs(Run(m, a, d), b, d)
    ensures Runs(m, a + b, d) && Run(m, a + b, d) == Run(Run(m, a, d), b, d)
    decreases |a|
  {
    if a == [] {
      assert a + b == b;
    } else {
      assert (a + b)[1..] == a[1..] + b;
      RunAppend(Next(m, a[0], d), a[1..], b, d);
    }
  }

  lemma RunOne(m: Machine, e: Event, d: Display)
    requires Possible(m, e)
    ensures Runs(m, [e], d) && Run(m, [e], d) == Next(m, e, d)
  {
    assert [e][1..] == [];
    assert Runs(Next(m, e, d), [], d) && Run(Next(m, e, d), [], d) == Next(m, e, d);
  }
}
