/** Two promises about timers that do not always hold: that the start delay keeps the first press out, and
    that accepting a calibration ends its timeout. */
module TouchTimers {
  import opened Wrappers
  import opened TouchGeometry
  import opened TouchProtocol
  import opened TouchRuns

  // ---------------------------------------------------------------- the start delay

  lemma {:induction false} WaitingReads(m: Machine, ss: seq<Sample>, d: Display)
    requires m.tc.registered && m.screen.step == STEP_INIT
    ensures Runs(m, Reads(ss, true), d)
    ensures Run(m, Reads(ss, true), d) ==
            m.(screen := m.screen.(inputEnabled := m.screen.inputEnabled || HasRelease(ss)))
    decreases |ss|
  {
    if ss != [] {
      var evs := Reads(ss, true);
      assert evs[1..] == Reads(ss[1..], true);
      WaitingReads(Next(m, evs[0], d), ss[1..], d);
      assert ss == [ss[0]] + ss[1..];
    }
  }

  /** The start delay is meant to keep the press that started the calibration from being taken for the
      first cursor. It does so exactly if input was disabled at the start and no release came before the
      timer: a finger still down when the timer fires is otherwise recorded at once. */
  lemma HeldPressIsRecorded(m: Machine, held: seq<Sample>, s: Sample, d: Display)
    requires TimersTracked(m.screen) && s.contact.Pressed?
    ensures Runs(Start(m), Reads(held, true) + [DelayElapsed, Read(s, true)], d)
    ensures var n := Run(Start(m), Reads(held, true) + [DelayElapsed, Read(s, true)], d);
            && (n.screen.step == STEP_FIRST + 1 && n.screen.tch[0] == s.point <==>
                  m.screen.inputEnabled || HasRelease(held))
            && (n.screen.step == STEP_FIRST <==> !(m.screen.inputEnabled || HasRelease(held)))
  {
    var tail := [DelayElapsed, Read(s, true)];
    assert tail == [DelayElapsed] + [Read(s, true)];
    WaitingReads(Start(m), held, d);
    var n := Run(Start(m), Reads(held, true), d);
    RunOne(n, DelayElapsed, d);
    RunOne(DelayTimer(n), Read(s, true), d);
    RunAppend(n, [DelayElapsed], [Read(s, true)], d);
    RunAppend(Start(m), Reads(held, true), tail, d);
  }

  /** On a new screen input is enabled, so there the promise never holds: a press held from before the
      start until after the delay is always the first cursor. */
  lemma HeldPressOnNewScreen(m: Machine, held: seq<Sample>, s: Sample, d: Display)
    requires Boot(m) && s.contact.Pressed?
    ensures Runs(Start(m), Reads(held, true) + [DelayElapsed, Read(s, true)], d)
    ensures var n := Run(Start(m), Reads(held, true) + [DelayElapsed, Read(s, true)], d);
            n.screen.step == STEP_FIRST + 1 && n.screen.tch[0] == s.point
  {
    HeldPressIsRecorded(m, held, s, d);
  }

  // ---------------------------------------------------------------- the recalibration timeout

  function Remembered(s: Screen): set<nat> {
    if s.recal.Some? then {s.recal.value} else {}
  }

  /** The recalibration timers that are alive but no longer remembered by the screen. */
  function Orphans(s: Screen): set<nat> {
    s.ticks.Keys - Remembered(s)
  }

  predicate OnlyRemembered(s: Screen) {
    s.ticks.Keys == Remembered(s)
  }

  /** Accepting is meant to end the timeout: it leaves no timer exactly if the remembered one was the only one. */
  lemma AcceptClearsExactly(m: Machine)
    ensures Ready(m).screen.ticks == map[] <==> m.screen.ticks.Keys <= Remembered(m.screen)
    ensures TimersTracked(m.screen) ==> (Ready(m).screen.ticks == map[] <==> OnlyRemembered(m.screen))
  {
    assert Ready(m).screen.ticks.Keys == m.screen.ticks.Keys - Remembered(m.screen);
    assert Ready(m).screen.ticks == map[] <==> Ready(m).screen.ticks.Keys == {};
  }

  /** A press that completes a calibration while the timer of an earlier one is still remembered. */
  predicate FinishesAgain(m: Machine, e: Event) {
    && e.Read? && e.active && m.tc.registered
    && e.sample.contact.Pressed? && m.screen.inputEnabled
    && m.screen.step == STEP_FINISH - 1
    && m.screen.recal.Some?
  }

  // A timer is forgotten when a calibration finishes again, and gone when its last tick comes.
  function Forget(m: Machine, lost: set<nat>, e: Event): set<nat>
    requires Possible(m, e)
  {
    if FinishesAgain(m, e) then lost + {m.screen.recal.value}
    else if e.RecalTick? && m.screen.ticks[e.id] == 1 then lost - {e.id}
    else lost
  }

  lemma StartForgets(m: Machine)
    requires TimersTracked(m.screen)
    ensures Orphans(Start(m).screen) == Orphans(m.screen) && TimersTracked(Start(m).screen)
    ensures Start(m).screen.recal == None
  {
  }

  lemma ReadForgets(m: Machine, s: Sample, active: bool, d: Display)
    requires TimersTracked(m.screen) && m.screen.step <= STEP_FINISH
    ensures var n := ReadSample(m, s, active, d).0.screen;
            Orphans(n) == Forget(m, Orphans(m.screen), Read(s, active)) && TimersTracked(n) && n.step <= STEP_FINISH
  {
    assert m.screen.nextTimer !in m.screen.ticks;
  }

  lemma ForgetExactly(m: Machine, e: Event, d: Display)
    requires TimersTracked(m.screen) && m.screen.step <= STEP_FINISH && Possible(m, e)
    ensures Orphans(Next(m, e, d).screen) == Forget(m, Orphans(m.screen), e)
    ensures TimersTracked(Next(m, e, d).screen) && Next(m, e, d).screen.step <= STEP_FINISH
  {
    match e
    case Read(s, active) => ReadForgets(m, s, active, d);
    case _ => StartForgets(m);
  }

  /** One event makes the remembered timer cease to be the only one exactly if it finishes again. */
  lemma LeakExactly(m: Machine, e: Event, d: Display)
    requires TimersTracked(m.screen) && m.screen.step <= STEP_FINISH && OnlyRemembered(m.screen) && Possible(m, e)
    ensures OnlyRemembered(Next(m, e, d).screen) <==> !FinishesAgain(m, e)
  {
    ForgetExactly(m, e, d);
    assert Orphans(m.screen) == {};
  }

  /** The timers forgotten in a run, and not run out since. */
  function Forgotten(m: Machine, lost: set<nat>, evs: seq<Event>, d: Display): set<nat>
    requires Runs(m, evs, d)
    decreases |evs|
  {
    if evs == [] then lost else Forgotten(Next(m, evs[0], d), Forget(m, lost, evs[0]), evs[1..], d)
  }

  lemma {:induction false} OrphansAreForgotten(m: Machine, evs: seq<Event>, d: Display)
    requires TimersTracked(m.screen) && m.screen.step <= STEP_FINISH && Runs(m, evs, d)
    ensures var n := Run(m, evs, d);
            TimersTracked(n.screen) && Orphans(n.screen) == Forgotten(m, Orphans(m.screen), evs, d)
    decreases |evs|
  {
    if evs != [] {
      ForgetExactly(m, evs[0], d);
      OrphansAreForgotten(Next(m, evs[0], d), evs[1..], d);
    }
  }

  /** After any run from a new screen, accepting ends the timeout exactly if every timer that was forgotten
      by finishing again has run out. */
  lemma AcceptEndsTimeoutExactly(m: Machine, evs: seq<Event>, d: Display)
    requires Boot(m) && Runs(m, evs, d)
    ensures Ready(Run(m, evs, d)).screen.ticks == map[] <==> Forgotten(m, {}, evs, d) == {}
  {
    OrphansAreForgotten(m, evs, d);
    assert Orphans(m.screen) == {};
    AcceptClearsExactly(Run(m, evs, d));
  }

  // A start-delay timer that fires while a finished calibration waits to be accepted.
  predicate StaleDelay(m: Machine, evs: seq<Event>, d: Display)
    requires Runs(m, evs, d)
    decreases |evs|
  {
    evs != [] && ((evs[0].DelayElapsed? && m.screen.recal.Some?) || StaleDelay(Next(m, evs[0], d), evs[1..], d))
  }

  /** Finishing again takes a stale start-delay timer: in a run without one no timer is ever forgotten. */
  lemma {:induction false} NoStaleDelayNoLeak(m: Machine, evs: seq<Event>, d: Display)
    requires TimersTracked(m.screen) && m.screen.step <= STEP_FINISH
    requires m.screen.recal.Some? ==> m.screen.step == STEP_FINISH
    requires Runs(m, evs, d) && !StaleDelay(m, evs, d)
    ensures Forgotten(m, {}, evs, d) == {}
    decreases |evs|
  {
    if evs != [] {
      assert !FinishesAgain(m, evs[0]);
      ForgetExactly(m, evs[0], d);
      RememberedWhileFinished(m, evs[0], d);
      assert Forget(m, {}, evs[0]) == {};
      NoStaleDelayNoLeak(Next(m, evs[0], d), evs[1..], d);
    }
  }

  lemma RememberedWhileFinished(m: Machine, e: Event, d: Display)
    requires m.screen.step <= STEP_FINISH && (m.screen.recal.Some? ==> m.screen.step == STEP_FINISH)
    requires Possible(m, e) && !(e.DelayElapsed? && m.screen.recal.Some?)
    ensures var n := Next(m, e, d); n.screen.recal.Some? ==> n.screen.step == STEP_FINISH
  {
  }

  // ---------------------------------------------------------------- the timeout runs out

  function Ticks(id: nat, n: nat): (evs: seq<Event>)
    ensures |evs| == n
  {
    if n == 0 then [] else [RecalTick(id)] + Ticks(id, n - 1)
  }

  /** A timer with t ticks left counts them down one by one, changing nothing else; the last one restarts the
      calibration, and it and the remembered timer are gone. */
  lemma {:induction false} TimeoutRestarts(m: Machine, id: nat, n: nat, d: Display)
    requires id in m.screen.ticks && 1 <= n <= m.screen.ticks[id]
    ensures Runs(m, Ticks(id, n), d)
    ensures var t, k := m.screen.ticks[id], Run(m, Ticks(id, n), d);
            if n < t then k == m.(screen := m.screen.(ticks := m.screen.ticks[id := t - n]))
            else
              && k.screen.step == STEP_INIT && k.tc.registered && k.screen.recal == None
              && k.screen.delays == m.screen.delays + 1
              && k.screen.ticks.Keys == m.screen.ticks.Keys - {id} - Remembered(m.screen)
    decreases n
  {
    var evs := Ticks(id, n);
    assert evs[0] == RecalTick(id) && evs[1..] == Ticks(id, n - 1);
    var k := RecalTimer(m, id);
    if n > 1 {
      TimeoutRestarts(k, id, n - 1, d);
      assert k.screen.ticks.Keys == m.screen.ticks.Keys;
      assert k.screen.ticks[id := m.screen.ticks[id] - n] == m.screen.ticks[id := m.screen.ticks[id] - n];
    }
  }

  function TicksOf(evs: seq<Event>, id: nat): nat {
    if evs == [] then 0 else (if evs[0] == RecalTick(id) then 1 else 0) + TicksOf(evs[1..], id)
  }

  /** Whatever else happens, a timer that is still alive has counted every tick of its own, and no other. */
  lemma {:induction false} TimerCounts(m: Machine, evs: seq<Event>, id: nat, d: Display)
    requires TimersTracked(m.screen) && m.screen.step <= STEP_FINISH && Runs(m, evs, d)
    requires id < m.screen.nextTimer && id in Run(m, evs, d).screen.ticks
    ensures id in m.screen.ticks && Run(m, evs, d).screen.ticks[id] + TicksOf(evs, id) == m.screen.ticks[id]
    decreases |evs|
  {
    if evs != [] {
      var n := Next(m, evs[0], d);
      ForgetExactly(m, evs[0], d);
      TimerStep(m, evs[0], id, d);
      TimerCounts(n, evs[1..], id, d);
    }
  }

  lemma TimerStep(m: Machine, e: Event, id: nat, d: Display)
    requires Possible(m, e) && m.screen.step <= STEP_FINISH && id < m.screen.nextTimer
    ensures var n := Next(m, e, d).screen;
            && id < n.nextTimer
            && (id in n.ticks ==> id in m.screen.ticks
                                  && n.ticks[id] + (if e == RecalTick(id) then 1 else 0) == m.screen.ticks[id])
  {
  }

  // A finished calibration remembers a timer that has not ticked yet.
  ghost predicate Untouched(s: Screen) {
    s.step < STEP_FINISH || (s.recal.Some? && s.recal.value in s.ticks && s.ticks[s.recal.value] == 30)
  }

  lemma {:induction false} ReadsLeaveUntouched(m: Machine, ss: seq<Sample>, d: Display)
    requires m.tc.registered && m.screen.step <= STEP_FINISH && Untouched(m.screen)
    ensures Runs(m, Reads(ss, true), d) && Untouched(Run(m, Reads(ss, true), d).screen)
    decreases |ss|
  {
    if ss != [] {
      var evs := Reads(ss, true);
      assert evs[1..] == Reads(ss[1..], true);
      ReadsLeaveUntouched(Next(m, evs[0], d), ss[1..], d);
    }
  }

  /** A calibration that nobody accepts is started again after 30 ticks of its timer, and not before. */
  lemma FinishedTimesOut(m: Machine, ss: seq<Sample>, n: nat, d: Display)
    requires Consistent(m, Live(m.screen.inputEnabled, [])) && m.tc.registered && m.screen.step < STEP_FINISH
    requires |Bursts(ss, m.screen.inputEnabled)| >= 3 && n <= 30
    ensures Runs(m, Reads(ss, true), d)
    ensures var k := Run(m, Reads(ss, true), d);
            && k.screen.step == STEP_FINISH && k.screen.recal.Some? && Runs(k, Ticks(k.screen.recal.value, n), d)
            && var r := Run(k, Ticks(k.screen.recal.value, n), d).screen;
               if n < 30 then r.step == STEP_FINISH && r.recal == k.screen.recal
               else r.step == STEP_INIT && r.recal == None && k.screen.recal.value !in r.ticks
  {
    SessionFinishes(m, ss, d);
    ReadsLeaveUntouched(m, ss, d);
    var k := Run(m, Reads(ss, true), d);
    if n > 0 {
      TimeoutRestarts(k, k.screen.recal.value, n, d);
    }
  }

  // ---------------------------------------------------------------- a run in which it fails

  lemma {:induction false} ReadsKeepTimers(m: Machine, ss: seq<Sample>, d: Display)
    requires m.tc.registered && TimersTracked(m.screen) && m.screen.step <= STEP_FINISH
    ensures Runs(m, Reads(ss, true), d)
    ensures var n := Run(m, Reads(ss, true), d);
            && (forall id <- m.screen.ticks :: id in n.screen.ticks && n.screen.ticks[id] == m.screen.ticks[id])
            && (m.screen.step < STEP_FINISH == n.screen.step ==>
                  n.screen.recal.Some? && n.screen.recal.value >= m.screen.nextTimer)
            && (n.screen.recal == m.screen.recal ||
                (n.screen.recal.Some? && n.screen.recal.value >= m.screen.nextTimer))
            && n.screen.delays == m.screen.delays
            && (ss != [] && ss[|ss| - 1].contact.Released? ==> n.screen.inputEnabled)
    decreases |ss|
  {
    if ss != [] {
      var evs := Reads(ss, true);
      assert evs[1..] == Reads(ss[1..], true);
      ReadsKeepTimers(Next(m, evs[0], d), ss[1..], d);
    }
  }

  /** Calibrate again after a stale delay, accept, and the timer of the first calibration is still counting
      down towards a restart nobody asked for. */
  lemma OrphanSurvivesAccept(m: Machine, w: Session, ss: seq<Sample>, d: Display)
    requires Consistent(m, w) && m.tc.registered && m.screen.recal.Some? && Possible(m, DelayElapsed)
    requires |Bursts(ss, m.screen.inputEnabled)| >= 3
    ensures Runs(DelayTimer(m), Reads(ss, true), d)
    ensures var id, n := m.screen.recal.value, Ready(Run(DelayTimer(m), Reads(ss, true), d));
            && n.screen.step == STEP_FINISH
            && id in n.screen.ticks
            && n.screen.ticks[id] == m.screen.ticks[id]
            && (n.screen.ticks[id] == 1 ==> RecalTimer(n, id).screen.step == STEP_INIT)
  {
    StepKeepsConsistent(m, w, DelayElapsed, d);
    SessionFinishes(DelayTimer(m), ss, d);
    ReadsKeepTimers(DelayTimer(m), ss, d);
  }

  // Three taps.
  function Taps(p: Point, q: Point, r: Point): seq<Sample> {
    [Sample(Pressed, p), Sample(Released, p),
     Sample(Pressed, q), Sample(Released, q),
     Sample(Pressed, r), Sample(Released, r)]
  }

  lemma TapsCount(p: Point, q: Point, r: Point)
    ensures Bursts(Taps(p, q, r), true) == [p, q, r]
  {
    var t := Taps(p, q, r);
    assert t == [] + [t[0]] + [t[1]] + [t[2]] + [t[3]] + [t[4]] + [t[5]];
    BurstsExtend([], true, t[0]);
    BurstsExtend([t[0]], true, t[1]);
    BurstsExtend([t[0]] + [t[1]], true, t[2]);
    BurstsExtend([t[0]] + [t[1]] + [t[2]], true, t[3]);
    BurstsExtend([t[0]] + [t[1]] + [t[2]] + [t[3]], true, t[4]);
    BurstsExtend([t[0]] + [t[1]] + [t[2]] + [t[3]] + [t[4]], true, t[5]);
    assert [] + [t[0]] == [t[0]] && Bursts([], true) == [];
  }

  const TWO_STARTS := [StartCall, StartCall, DelayElapsed]

  lemma TwoStarts(m: Machine, d: Display)
    requires Boot(m)
    ensures Runs(m, TWO_STARTS, d)
    ensures var n := Run(m, TWO_STARTS, d);
            && Consistent(n, Live(true, [])) && n.tc.registered && n.screen.inputEnabled && n.screen.delays == 1
            && n.screen.recal == None && n.screen.step == STEP_FIRST
  {
    var m1, m2 := Start(m), Start(Start(m));
    RunOne(m, StartCall, d);
    RunOne(m1, StartCall, d);
    RunOne(m2, DelayElapsed, d);
    RunAppend(m, [StartCall], [StartCall], d);
    RunAppend(m, [StartCall] + [StartCall], [DelayElapsed], d);
    assert TWO_STARTS == [StartCall] + [StartCall] + [DelayElapsed];
    StartConsistent(m, Waiting);
    StartConsistent(m1, Waiting);
    DelayConsistent(m2, Waiting);
  }

  function LeakingRun(p: Point, q: Point, r: Point): seq<Event> {
    TWO_STARTS + Reads(Taps(p, q, r), true) + [DelayElapsed] + Reads(Taps(p, q, r), true) + [AcceptClick]
  }

  /** It can happen: from a new screen, start twice, tap three times after the first delay timer and three
      times after the second, and accept. A recalibration timer is still alive. */
  lemma LeakHappens(m: Machine, p: Point, q: Point, r: Point, d: Display)
    requires Boot(m)
    ensures Runs(m, LeakingRun(p, q, r), d)
    ensures Run(m, LeakingRun(p, q, r), d).screen.ticks != map[]
    ensures |Run(m, LeakingRun(p, q, r), d).screen.ready| > 0
  {
    var taps := Reads(Taps(p, q, r), true);
    TapsCount(p, q, r);
    TwoStarts(m, d);
    var m1 := Run(m, TWO_STARTS, d);
    SessionFinishes(m1, Taps(p, q, r), d);
    ReadsKeepTimers(m1, Taps(p, q, r), d);
    var m2 := Run(m1, taps, d);
    RunAppend(m, TWO_STARTS, taps, d);
    RunOne(m2, DelayElapsed, d);
    var m3 := DelayTimer(m2);
    RunAppend(m, TWO_STARTS + taps, [DelayElapsed], d);
    OrphanSurvivesAccept(m2, Live(true, Taps(p, q, r)), Taps(p, q, r), d);
    var m4 := Run(m3, taps, d);
    RunAppend(m, TWO_STARTS + taps + [DelayElapsed], taps, d);
    RunOne(m4, AcceptClick, d);
    RunAppend(m, TWO_STARTS + taps + [DelayElapsed] + taps, [AcceptClick], d);
    assert m2.screen.recal.value in Ready(m4).screen.ticks;
  }
}
