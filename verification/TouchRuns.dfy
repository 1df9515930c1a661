/** Theorems about whole runs of the calibration protocol. */
module TouchRuns {
  import opened Wrappers
  import opened TouchGeometry
  import opened TouchProtocol

  // ---------------------------------------------------------------- which presses count

  /** A press counts when it begins a burst: the sample before it was a release, or it is the very first
      sample and input was enabled when the session began. */
  predicate BurstStart(ss: seq<Sample>, armed: bool, i: nat)
    requires i < |ss|
  {
    ss[i].contact.Pressed? && if i == 0 then armed else ss[i - 1].contact.Released?
  }

  function BurstIndices(ss: seq<Sample>, armed: bool): (idx: seq<nat>)
    ensures forall k: nat | k < |idx| :: idx[k] < |ss|
  {
    if ss == [] then [] else
    var n := |ss| - 1;
    BurstIndices(ss[..n], armed) + if BurstStart(ss, armed, n) then [n] else []
  }

  function Bursts(ss: seq<Sample>, armed: bool): (ps: seq<Point>)
    ensures |ps| == |BurstIndices(ss, armed)|
  {
    var idx := BurstIndices(ss, armed);
    seq(|idx|, k requires 0 <= k < |idx| => ss[idx[k]].point)
  }

  // The flag after the samples, while a session is still collecting.
  function Armed(ss: seq<Sample>, armed: bool): bool {
    if ss == [] then armed else ss[|ss| - 1].contact.Released?
  }

  lemma BurstsExtend(ss: seq<Sample>, armed: bool, s: Sample)
    ensures Bursts(ss + [s], armed) ==
            Bursts(ss, armed) + if s.contact.Pressed? && Armed(ss, armed) then [s.point] else []
  {
    var all := ss + [s];
    assert all[..|ss|] == ss;
    var idx, more := BurstIndices(ss, armed), BurstIndices(all, armed);
    assert BurstStart(all, armed, |ss|) <==> s.contact.Pressed? && Armed(ss, armed);
    assert forall k: nat | k < |idx| :: more[k] == idx[k] && all[idx[k]] == ss[idx[k]];
  }

  predicate LiftedBetween(ss: seq<Sample>, i: nat, j: nat) {
    exists r: nat :: i < r < j && r < |ss| && ss[r].contact.Released?
  }

  /** `BurstIndices` lists exactly the counting presses in order, and between any two of them the
      finger was lifted. */
  lemma {:induction false} BurstIndicesMeaning(ss: seq<Sample>, armed: bool)
    ensures var idx := BurstIndices(ss, armed);
            && (forall i: nat | i < |ss| :: i in idx <==> BurstStart(ss, armed, i))
            && (forall j: nat, k: nat | j < k < |idx| :: idx[j] < idx[k])
            && (forall j: nat, k: nat | j < k < |idx| :: LiftedBetween(ss, idx[j], idx[k]))
  {
    var idx := BurstIndices(ss, armed);
    if ss != [] {
      var n := |ss| - 1;
      BurstIndicesMeaning(ss[..n], armed);
      forall i: nat | i < n
        ensures BurstStart(ss, armed, i) <==> BurstStart(ss[..n], armed, i)
      {
      }
      forall j: nat, k: nat | j < k < |idx|
        ensures LiftedBetween(ss, idx[j], idx[k])
      {
        if idx[k] == n {
          assert idx[j] in BurstIndices(ss[..n], armed);
          assert BurstStart(ss[..n], armed, idx[j]) && BurstStart(ss, armed, n);
          assert LiftedBetween(ss, idx[j], n) by { assert idx[j] < n - 1 < n && ss[n - 1].contact.Released?; }
        } else {
          var before := BurstIndices(ss[..n], armed);
          assert idx[j] == before[j] && idx[k] == before[k];
          assert LiftedBetween(ss[..n], before[j], before[k]);
          var r: nat :| before[j] < r < before[k] && r < n && ss[..n][r].contact.Released?;
          assert ss[r].contact.Released?;
        }
      }
    }
  }

  // ---------------------------------------------------------------- sessions

  /** What a bystander writes down: nothing while the calibration waits to begin, and from each
      STEP_FIRST on whether input was enabled then and every sample the screen was offered since. */
  datatype Session = Waiting | Live(armed: bool, samples: seq<Sample>)

  function Watch(m: Machine, w: Session, e: Event): Session
    requires Possible(m, e)
  {
    match e
    case DelayElapsed => Live(m.screen.inputEnabled, [])
    case StartCall => Waiting
    case RecalibrateClick => Waiting
    case RecalTick(id) => if m.screen.ticks[id] == 1 then Waiting else w
    case Read(s, active) => if active && m.tc.registered && w.Live? then w.(samples := w.samples + [s]) else w
    case AcceptClick => w
  }

  function WatchRun(m: Machine, w: Session, evs: seq<Event>, d: Display): Session
    requires Runs(m, evs, d)
    decreases |evs|
  {
    if evs == [] then w else WatchRun(Next(m, evs[0], d), Watch(m, w, evs[0]), evs[1..], d)
  }

  function Min(a: nat, b: nat): nat {
    if a < b then a else b
  }

  ghost predicate TimersTracked(s: Screen) {
    && (s.recal.Some? ==> s.recal.value in s.ticks)
    && (forall id <- s.ticks :: id < s.nextTimer && 1 <= s.ticks[id] <= RECALIB_TIMEOUT_S)
  }

  /** What holds at every moment: the step, the stored touch points and the coefficients are what the
      session's samples say, whatever happened before the session. */
  ghost predicate Consistent(m: Machine, w: Session) {
    var s := m.screen;
    && s.step <= STEP_FINISH
    && TimersTracked(s)
    && (s.step == STEP_INIT ==> s.indicator == Hidden || (s.indicator == Unplaced && s.delays == 0))
    && (STEP_FIRST <= s.step < STEP_FINISH ==> s.indicator == At(Some(s.scr[s.step - 1])))
    && match w
       case Waiting => s.step == STEP_INIT
       case Live(armed, ss) =>
         var bs := Bursts(ss, armed);
         && s.step == STEP_FIRST + Min(3, |bs|)
         && s.tch[..s.step - 1] == bs[..s.step - 1]
         && (s.step < STEP_FINISH ==> s.inputEnabled == Armed(ss, armed))
         && (s.step == STEP_FINISH ==> m.tc.calib == ComputeCoeff(s.scr, s.tch))
  }

  predicate Counts(m: Machine, s: Sample) {
    m.screen.step < STEP_FINISH && m.screen.inputEnabled && s.contact.Pressed?
  }

  lemma CountingInput(m: Machine, armed: bool, ss: seq<Sample>, s: Sample, d: Display)
    requires Consistent(m, Live(armed, ss)) && Counts(m, s)
    ensures Consistent(Input(m, s, d), Live(armed, ss + [s]))
  {
    BurstsExtend(ss, armed, s);
    var more, n := Bursts(ss + [s], armed), Input(m, s, d).screen;
    assert n.step == m.screen.step + 1 && n.tch == m.screen.tch[m.screen.step - 1 := s.point];
    assert n.tch[..n.step - 1] == m.screen.tch[..m.screen.step - 1] + [s.point] == more[..n.step - 1];
  }

  lemma OtherInput(m: Machine, armed: bool, ss: seq<Sample>, s: Sample, d: Display)
    requires Consistent(m, Live(armed, ss)) && !Counts(m, s)
    ensures Consistent(Input(m, s, d), Live(armed, ss + [s]))
  {
    BurstsExtend(ss, armed, s);
    var bs, more, n := Bursts(ss, armed), Bursts(ss + [s], armed), Input(m, s, d).screen;
    assert n.step == m.screen.step && n.tch == m.screen.tch;
    assert more[..n.step - 1] == bs[..n.step - 1];
  }

  lemma InputInSession(m: Machine, armed: bool, ss: seq<Sample>, s: Sample, d: Display)
    requires Consistent(m, Live(armed, ss))
    ensures Consistent(Input(m, s, d), Live(armed, ss + [s]))
  {
    if Counts(m, s) {
      CountingInput(m, armed, ss, s, d);
    } else {
      OtherInput(m, armed, ss, s, d);
    }
  }

  lemma ReadKeepsConsistent(m: Machine, w: Session, s: Sample, active: bool, d: Display)
    requires Consistent(m, w)
    ensures Consistent(ReadSample(m, s, active, d).0, Watch(m, w, Read(s, active)))
  {
    if active && m.tc.registered && w.Live? {
      InputInSession(m, w.armed, w.samples, s, d);
    }
  }

  lemma StartConsistent(m: Machine, w: Session)
    requires Consistent(m, w)
    ensures Consistent(Start(m), Waiting)
  {
  }

  lemma DelayConsistent(m: Machine, w: Session)
    requires Consistent(m, w) && m.screen.delays > 0
    ensures Consistent(DelayTimer(m), Live(m.screen.inputEnabled, []))
  {
  }

  lemma TickConsistent(m: Machine, w: Session, id: nat)
    requires Consistent(m, w) && Possible(m, RecalTick(id))
    ensures Consistent(RecalTimer(m, id), Watch(m, w, RecalTick(id)))
  {
    StartConsistent(m, w);
  }

  /** Every event keeps the machine consistent with the session. */
  lemma StepKeepsConsistent(m: Machine, w: Session, e: Event, d: Display)
    requires Consistent(m, w) && Possible(m, e)
    ensures Consistent(Next(m, e, d), Watch(m, w, e))
  {
    match e
    case Read(s, active) => ReadKeepsConsistent(m, w, s, active, d);
    case DelayElapsed => DelayConsistent(m, w);
    case RecalTick(id) => TickConsistent(m, w, id);
    case AcceptClick =>
    case _ => StartConsistent(m, w);
  }

  lemma {:induction false} RunKeepsConsistent(m: Machine, w: Session, evs: seq<Event>, d: Display)
    requires Consistent(m, w) && Runs(m, evs, d)
    ensures Consistent(Run(m, evs, d), WatchRun(m, w, evs, d))
    decreases |evs|
  {
    if evs != [] {
      StepKeepsConsistent(m, w, evs[0], d);
      RunKeepsConsistent(Next(m, evs[0], d), Watch(m, w, evs[0]), evs[1..], d);
    }
  }

  /** Any interleaving of samples, delay timers (stale ones included), recalibration ticks and button
      clicks, from a new screen: the step is in 0..4, the stored touch points are exactly the first
      counting presses since the last STEP_FIRST, and at FINISH the coefficients are theirs. */
  lemma EveryReachableState(m: Machine, evs: seq<Event>, d: Display)
    requires Boot(m) && Runs(m, evs, d)
    ensures Consistent(Run(m, evs, d), WatchRun(m, Waiting, evs, d))
  {
    RunKeepsConsistent(m, Waiting, evs, d);
  }

  // ---------------------------------------------------------------- a completed calibration

  function Reads(ss: seq<Sample>, active: bool): (evs: seq<Event>)
    ensures |evs| == |ss|
  {
    if ss == [] then [] else [Read(ss[0], active)] + Reads(ss[1..], active)
  }

  lemma {:induction false} ReadsRun(m: Machine, ss: seq<Sample>, d: Display, armed: bool, before: seq<Sample>)
    requires m.tc.registered
    ensures Runs(m, Reads(ss, true), d)
    ensures WatchRun(m, Live(armed, before), Reads(ss, true), d) == Live(armed, before + ss)
    ensures Run(m, Reads(ss, true), d).tc.registered
    ensures Run(m, Reads(ss, true), d).screen.scr == m.screen.scr
    decreases |ss|
  {
    if ss == [] {
      assert before + ss == before;
    } else {
      var evs := Reads(ss, true);
      assert evs[1..] == Reads(ss[1..], true);
      assert before + ss == before + [ss[0]] + ss[1..];
      ReadsRun(Next(m, evs[0], d), ss[1..], d, armed, before + [ss[0]]);
    }
  }

  // A session of three or more counting presses finishes.
  lemma SessionFinishes(m: Machine, ss: seq<Sample>, d: Display)
    requires Consistent(m, Live(m.screen.inputEnabled, [])) && m.tc.registered
    requires |Bursts(ss, m.screen.inputEnabled)| >= 3
    ensures Runs(m, Reads(ss, true), d)
    ensures var n := Run(m, Reads(ss, true), d);
            && n.screen.step == STEP_FINISH && n.tc.registered
            && Consistent(n, Live(m.screen.inputEnabled, ss))
  {
    ReadsRun(m, ss, d, m.screen.inputEnabled, []);
    RunKeepsConsistent(m, Live(m.screen.inputEnabled, []), Reads(ss, true), d);
    assert [] + ss == ss;
  }

  /** The finger is put on the three cursors in order: whatever else the samples hold (held contacts,
      repeated releases, further touches), the first three counting presses are the panel's readings of
      the three cursors. */
  ghost predicate TouchesCursors(panel: Affine, scr: Points, ss: seq<Sample>, armed: bool) {
    var bs := Bursts(ss, armed);
    |bs| >= 3 && forall i: nat | i < 3 :: ToReal(bs[i]) == Apply(panel, ToReal(scr[i]))
  }

  /** End to end: if the panel is any invertible affine image of the screen and the cursors are not
      collinear, a session that touches the three cursors ends at FINISH with coefficients under which
      the panel's reading of any screen point q is reported as q (rotated as the display is). */
  lemma CompletedCalibrationIsExact(m: Machine, ss: seq<Sample>, panel: Affine, d: Display)
    requires Consistent(m, Live(m.screen.inputEnabled, [])) && m.tc.registered
    requires Determinant(panel) != 0.0 && Divisor(ToTriple(m.screen.scr)) != 0.0
    requires TouchesCursors(panel, m.screen.scr, ss, m.screen.inputEnabled)
    ensures Runs(m, Reads(ss, true), d)
    ensures var n := Run(m, Reads(ss, true), d);
            && n.screen.step == STEP_FINISH
            && forall q: Point, raw: Point | ToReal(raw) == Apply(panel, ToReal(q)) ::
                 Transform(n.tc.calib, d, raw) == Some(Rotate(d, q))
  {
    var armed := m.screen.inputEnabled;
    ReadsRun(m, ss, d, armed, []);
    RunKeepsConsistent(m, Live(armed, []), Reads(ss, true), d);
    assert [] + ss == ss;
    var n := Run(m, Reads(ss, true), d);
    var bs := Bursts(ss, armed);
    assert n.screen.tch == n.screen.tch[..3] == bs[..3];
    assert n.screen.tch[0] == bs[0] && n.screen.tch[1] == bs[1] && n.screen.tch[2] == bs[2];
    assert ToTriple(n.screen.tch) == ApplyAll(panel, ToTriple(n.screen.scr));
    forall q: Point, raw: Point | ToReal(raw) == Apply(panel, ToReal(q))
      ensures Transform(n.tc.calib, d, raw) == Some(Rotate(d, q))
    {
      CalibrationUndoesPanelInteger(panel, n.screen.scr, n.screen.tch, d, q, raw);
    }
  }

  /** The same from the delay timer on, for the cursors the screen chooses itself: no condition on the
      cursors is left. */
  lemma AutomaticCalibrationIsExact(m: Machine, w: Session, ss: seq<Sample>, panel: Affine, d: Display,
                                    hor: int, ver: int)
    requires Consistent(m, w) && Possible(m, DelayElapsed) && m.tc.registered
    requires hor >= 1 && ver >= 1 && m.screen.scr == AutoPoints(hor, ver)
    requires Determinant(panel) != 0.0
    requires TouchesCursors(panel, m.screen.scr, ss, m.screen.inputEnabled)
    ensures Runs(m, [DelayElapsed] + Reads(ss, true), d)
    ensures var n := Run(m, [DelayElapsed] + Reads(ss, true), d);
            && n.screen.step == STEP_FINISH
            && forall q: Point, raw: Point | ToReal(raw) == Apply(panel, ToReal(q)) ::
                 Transform(n.tc.calib, d, raw) == Some(Rotate(d, q))
  {
    AutoPointsNotCollinear(hor, ver);
    StepKeepsConsistent(m, w, DelayElapsed, d);
    CompletedCalibrationIsExact(DelayTimer(m), ss, panel, d);
    var evs := [DelayElapsed] + Reads(ss, true);
    assert evs[0] == DelayElapsed && evs[1..] == Reads(ss, true);
  }

  /** A screen that waits for a delay timer has been started, so it is registered; the cursors never change. */
  lemma {:induction false} RunRegisters(m: Machine, evs: seq<Event>, d: Display)
    requires m.screen.delays > 0 ==> m.tc.registered
    requires Runs(m, evs, d)
    ensures var n := Run(m, evs, d);
            && (n.screen.delays > 0 ==> n.tc.registered)
            && n.screen.scr == m.screen.scr
    decreases |evs|
  {
    if evs != [] {
      RunRegisters(Next(m, evs[0], d), evs[1..], d);
    }
  }

  /** End to end from a new screen with automatic cursors: after any events whatever, once a start-delay
      timer fires and the three cursors are touched, the calibration is exact. */
  lemma NewScreenCalibrates(m: Machine, evs: seq<Event>, ss: seq<Sample>, panel: Affine, d: Display, hor: int, ver: int)
    requires Boot(m) && hor >= 1 && ver >= 1 && m.screen.scr == AutoPoints(hor, ver)
    requires Runs(m, evs, d) && Possible(Run(m, evs, d), DelayElapsed)
    requires Determinant(panel) != 0.0
    requires TouchesCursors(panel, m.screen.scr, ss, Run(m, evs, d).screen.inputEnabled)
    ensures Runs(m, evs + ([DelayElapsed] + Reads(ss, true)), d)
    ensures var n := Run(m, evs + ([DelayElapsed] + Reads(ss, true)), d);
            && n.screen.step == STEP_FINISH
            && forall q: Point, raw: Point | ToReal(raw) == Apply(panel, ToReal(q)) ::
                 Transform(n.tc.calib, d, raw) == Some(Rotate(d, q))
  {
    EveryReachableState(m, evs, d);
    RunRegisters(m, evs, d);
    AutomaticCalibrationIsExact(Run(m, evs, d), WatchRun(m, Waiting, evs, d), ss, panel, d, hor, ver);
    RunAppend(m, evs, [DelayElapsed] + Reads(ss, true), d);
  }

  /** The first three counting presses are not on one line, and miss the cursors by at most `eps`. */
  ghost predicate TouchesNear(truth: Affine, scr: Points, ss: seq<Sample>, armed: bool, eps: real) {
    var bs := Bursts(ss, armed);
    |bs| >= 3 && Divisor(ToTriple(bs[..3])) != 0.0 && NearCursors(truth, ToTriple(scr), ToTriple(bs[..3]), eps)
  }

  // Inside the triangle the calibration errs by no more than the touches did, and half a pixel.
  ghost predicate ErrsAtMost(truth: Affine, c: Coeff, d: Display, tch: Triple, eps: real) {
    forall p: Point, l0: real, l1: real, l2: real | InTriangle(p, tch, l0, l1, l2) ::
      var r := Transform(c, d, p);
      r.Some? && Near(ToReal(r.value), RotateExact(d, Apply(truth, ToReal(p))), eps + 0.5)
  }

  /** Sloppy touches, end to end: a session whose first three counting presses miss the cursors by at most
      `eps` ends at FINISH with coefficients that err by at most `eps` and half a pixel at every point of
      the touched triangle. */
  lemma SloppyCalibrationIsBounded(m: Machine, ss: seq<Sample>, truth: Affine, eps: real, d: Display)
    requires Consistent(m, Live(m.screen.inputEnabled, [])) && m.tc.registered
    requires TouchesNear(truth, m.screen.scr, ss, m.screen.inputEnabled, eps)
    ensures Runs(m, Reads(ss, true), d)
    ensures var n := Run(m, Reads(ss, true), d);
            && n.screen.step == STEP_FINISH
            && ErrsAtMost(truth, n.tc.calib, d, ToTriple(Bursts(ss, m.screen.inputEnabled)[..3]), eps)
  {
    var armed := m.screen.inputEnabled;
    SessionFinishes(m, ss, d);
    ReadsRun(m, ss, d, armed, []);
    var n := Run(m, Reads(ss, true), d);
    assert n.screen.tch == n.screen.tch[..3] == Bursts(ss, armed)[..3];
    forall p: Point, l0: real, l1: real, l2: real | InTriangle(p, ToTriple(n.screen.tch), l0, l1, l2)
      ensures var r := Transform(n.tc.calib, d, p);
              r.Some? && Near(ToReal(r.value), RotateExact(d, Apply(truth, ToReal(p))), eps + 0.5)
    {
      ReportedErrorBounded(truth, n.screen.scr, n.screen.tch, eps, l0, l1, l2, p, d);
    }
  }

  /** The same from a new screen and after any events whatever, from a start-delay timer on. */
  lemma NewScreenErrsAtMost(m: Machine, evs: seq<Event>, ss: seq<Sample>, truth: Affine, eps: real, d: Display)
    requires Boot(m) && Runs(m, evs, d) && Possible(Run(m, evs, d), DelayElapsed)
    requires TouchesNear(truth, m.screen.scr, ss, Run(m, evs, d).screen.inputEnabled, eps)
    ensures Runs(m, evs + ([DelayElapsed] + Reads(ss, true)), d)
    ensures var n := Run(m, evs + ([DelayElapsed] + Reads(ss, true)), d);
            && n.screen.step == STEP_FINISH
            && ErrsAtMost(truth, n.tc.calib, d, ToTriple(Bursts(ss, Run(m, evs, d).screen.inputEnabled)[..3]), eps)
  {
    EveryReachableState(m, evs, d);
    RunRegisters(m, evs, d);
    var k := Run(m, evs, d);
    StepKeepsConsistent(k, WatchRun(m, Waiting, evs, d), DelayElapsed, d);
    SloppyCalibrationIsBounded(DelayTimer(k), ss, truth, eps, d);
    RunOne(k, DelayElapsed, d);
    RunAppend(k, [DelayElapsed], Reads(ss, true), d);
    RunAppend(m, evs, [DelayElapsed] + Reads(ss, true), d);
  }

  // Events that leave a finished calibration finished.
  predicate Harmless(m: Machine, e: Event)
    requires Possible(m, e)
  {
    e.Read? || e.AcceptClick? || (e.RecalTick? && m.screen.ticks[e.id] > 1)
  }

  predicate HarmlessRun(m: Machine, evs: seq<Event>, d: Display)
    requires Runs(m, evs, d)
    decreases |evs|
  {
    evs == [] || (Harmless(m, evs[0]) && HarmlessRun(Next(m, evs[0], d), evs[1..], d))
  }

  /** After FINISH, until the calibration is restarted, the coefficients stay, and every press read then
      is reported as PRESSED at its calibrated point. Accepting saves and announces those very coefficients. */
  lemma {:induction false} FinishedStaysFinished(m: Machine, evs: seq<Event>, d: Display, s: Sample, active: bool)
    requires m.screen.step == STEP_FINISH && Runs(m, evs, d) && HarmlessRun(m, evs, d)
    ensures var n := Run(m, evs, d);
            && n.screen.step == STEP_FINISH
            && n.tc.calib == m.tc.calib
            && (s.contact.Pressed? ==>
                  ReadSample(n, s, active, d).1 == Report(Pressed, Transform(m.tc.calib, d, s.point)))
            && Ready(n).screen.ready == n.screen.ready + [m.tc.calib]
            && Ready(n).tc.saved == n.tc.saved + if n.tc.hasSaveCb then [m.tc.calib] else []
    decreases |evs|
  {
    if evs != [] {
      FinishedStaysFinished(Next(m, evs[0], d), evs[1..], d, s, active);
    }
  }

  predicate HasRelease(ss: seq<Sample>) {
    exists s <- ss :: s.contact.Released?
  }

  lemma {:induction false} FinishedReads(m: Machine, ss: seq<Sample>, d: Display)
    requires m.screen.step == STEP_FINISH && m.tc.registered
    ensures Runs(m, Reads(ss, true), d)
    ensures var n := Run(m, Reads(ss, true), d);
            && n.screen.step == STEP_FINISH && n.tc.registered && n.tc.calib == m.tc.calib
            && n.screen.inputEnabled == (m.screen.inputEnabled || HasRelease(ss))
    decreases |ss|
  {
    if ss != [] {
      var evs := Reads(ss, true);
      assert evs[1..] == Reads(ss[1..], true);
      FinishedReads(Next(m, evs[0], d), ss[1..], d);
      assert ss == [ss[0]] + ss[1..];
    }
  }

  /** Trying out a finished calibration: after any samples, a press moves the cursor to the very point that
      LVGL is told, once the finger has been lifted since the calibration; otherwise the cursor stays. */
  lemma FinishedPressIsShown(m: Machine, ss: seq<Sample>, s: Sample, d: Display)
    requires m.screen.step == STEP_FINISH && m.tc.registered
    ensures Runs(m, Reads(ss, true), d)
    ensures var k := Run(m, Reads(ss, true), d); var (n, r) := ReadSample(k, s, true, d);
            && n.screen.indicator ==
                 (if s.contact.Pressed? && (m.screen.inputEnabled || HasRelease(ss)) then At(r.point)
                  else k.screen.indicator)
            && (s.contact.Pressed? ==> r.point == Transform(m.tc.calib, d, s.point))
  {
    FinishedReads(m, ss, d);
  }

  // ---------------------------------------------------------------- what LVGL sees meanwhile

  /** While the calibration screen is shown, LVGL sees nothing but a release at (0, 0) until a sample
      brings the step to FINISH; the press that does is forwarded, at exactly the third cursor. */
  lemma CalibrationIsGated(m: Machine, w: Session, s: Sample, d: Display)
    requires Consistent(m, w) && m.tc.registered
    ensures var (n, r) := ReadSample(m, s, true, d);
            && (n.screen.step < STEP_FINISH ==>
                  r == Report(Released, Some(Point(0, 0))) && n.tc.lastContact == m.tc.lastContact)
            && (m.screen.step < STEP_FINISH == n.screen.step ==>
                  && s.contact.Pressed?
                  && n.screen.tch == m.screen.tch[2 := s.point]
                  && (Divisor(ToTriple(n.screen.tch)) != 0.0 ==>
                        r == Report(Pressed, Some(Rotate(d, m.screen.scr[2])))))
  {
    var (n, r) := ReadSample(m, s, true, d);
    if m.screen.step < STEP_FINISH == n.screen.step && Divisor(ToTriple(n.screen.tch)) != 0.0 {
      CursorLandsOnItself(n.screen.scr, n.screen.tch, d, 2);
    }
  }

  function Reports(m: Machine, evs: seq<Event>, d: Display): (rs: seq<Report>)
    requires forall e <- evs :: e.Read?
    ensures |rs| == |evs|
    decreases |evs|
  {
    if evs == [] then [] else
    var (n, r) := ReadSample(m, evs[0].sample, evs[0].active, d);
    [r] + Reports(n, evs[1..], d)
  }

  // The sample before the i-th; at the start, what the driver remembers of the last one it reported.
  function LastSeen(tc: Driver, evs: seq<Event>, i: nat): Sample
    requires (forall e <- evs :: e.Read?) && i <= |evs|
  {
    if i == 0 then Sample(tc.lastContact, tc.lastPoint) else evs[i - 1].sample
  }

  /** Over any samples that are not consumed by a calibration (the screen is not shown, not registered,
      or finished): every press is reported at its own calibrated point, the first release after a
      press at the calibrated point of that press, and every other release at (0, 0). */
  lemma {:induction false} FilterTrace(m: Machine, evs: seq<Event>, d: Display)
    requires forall e <- evs :: e.Read?
    requires m.screen.step == STEP_FINISH || forall e <- evs :: !(m.tc.registered && e.active)
    ensures forall i: nat | i < |evs| ::
              Reports(m, evs, d)[i] ==
              (var now, before := evs[i].sample, LastSeen(m.tc, evs, i);
               Report(now.contact,
                      if now.contact.Pressed? then Transform(m.tc.calib, d, now.point)
                      else if before.contact.Pressed? then Transform(m.tc.calib, d, before.point)
                      else Some(Point(0, 0))))
    decreases |evs|
  {
    if evs != [] {
      var n := ReadSample(m, evs[0].sample, evs[0].active, d).0;
      assert n.tc == Remember(m.tc, evs[0].sample);
      FilterTrace(n, evs[1..], d);
      forall i: nat | i < |evs|
        ensures i > 0 ==> Reports(m, evs, d)[i] == Reports(n, evs[1..], d)[i - 1]
        ensures i > 0 && LastSeen(m.tc, evs, i).contact.Pressed? ==>
                  LastSeen(n.tc, evs[1..], i - 1) == LastSeen(m.tc, evs, i)
        ensures i > 0 ==> LastSeen(n.tc, evs[1..], i - 1).contact == LastSeen(m.tc, evs, i).contact
      {
      }
    }
  }

  /** Before the first calibration, samples that no calibration screen takes are reported as they are: a
      press at its raw point, not even rotated. */
  lemma UncalibratedReads(m: Machine, evs: seq<Event>, d: Display, i: nat)
    requires (forall e <- evs :: e.Read? && !(m.tc.registered && e.active)) && m.tc.calib == Invalid && i < |evs|
    ensures evs[i].sample.contact.Pressed? ==> Reports(m, evs, d)[i] == Report(Pressed, Some(evs[i].sample.point))
  {
    FilterTrace(m, evs, d);
  }
}
