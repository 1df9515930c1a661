/** The code itself: the statics of lv_tc.c and the screen object of lv_tc_screen.c, updated in place.
    Every method is proved to make the step of the same name in TouchProtocol. */
module TouchScreen {
  import opened Wrappers
  import opened TouchGeometry
  import opened TouchProtocol

  class Calibration {
    var calibResult: Coeff
    var lastPressedPoint: Point
    var lastState: Contact
    var registered: TcScreen?
    var hasSaveCb: bool
    var saved: seq<Coeff>

    constructor ()
      ensures calibResult == Invalid && lastPressedPoint == ORIGIN && lastState == Released
      ensures registered == null && !hasSaveCb && saved == []
    {
      calibResult, lastPressedPoint, lastState := Invalid, ORIGIN, Released;
      registered, hasSaveCb, saved := null, false, [];
    }

    function View(): Driver
      reads this
    {
      Driver(calibResult, lastPressedPoint, lastState, registered != null, hasSaveCb, saved)
    }

    method SaveCoeff()
      modifies this`saved
      ensures saved == old(saved) + if hasSaveCb then [calibResult] else []
    {
      if hasSaveCb {
        saved := saved + [calibResult];
      }
    }

    method SetCoeff(coeff: Coeff, save: bool)
      modifies this`saved, this`calibResult
      ensures calibResult == coeff
      ensures saved == old(saved) + if save && hasSaveCb then [coeff] else []
    {
      calibResult := coeff;
      if save {
        SaveCoeff();
      }
    }

    method InstallCoeff(scrP: array<Point>, tchP: array<Point>, save: bool)
      requires scrP.Length == 3 && tchP.Length == 3
      modifies this`saved, this`calibResult
      ensures calibResult == ComputeCoeff(scrP[..], tchP[..])
      ensures saved == old(saved) + if save && hasSaveCb then [calibResult] else []
    {
      var result := ComputeCoeff(scrP[..], tchP[..]);
      SetCoeff(result, save);
    }

    method TransformPointIndev(data: Sample, d: Display) returns (point: Option<Point>)
      modifies this`lastPressedPoint, this`lastState
      ensures View() == Remember(old(View()), data)
      ensures point == Reported(old(View()), data, d)
    {
      if data.contact == Pressed {
        lastPressedPoint := data.point;
        lastState := data.contact;
        return Transform(calibResult, d, data.point);
      } else if data.contact == Released && lastState == Pressed {
        lastState := data.contact;
        return Transform(calibResult, d, lastPressedPoint);
      }
      return Some(ORIGIN);
    }

    /** `data` is what the raw driver read; `screen` is the application's one calibration screen. */
    method ReadCb(screen: TcScreen, data: Sample, active: bool, d: Display) returns (report: Report)
      requires screen.Valid() && screen.tc == this
      modifies this, screen, screen.tchPoints
      ensures screen.Valid()
      ensures (screen.View(), report) == ReadSample(old(screen.View()), data, active, d)
    {
      if registered != null && active {
        var forward := registered.InputCb(data, d);
        if !forward {
          return Report(Released, Some(ORIGIN));
        }
      }
      var point := TransformPointIndev(data, d);
      report := Report(data.contact, point);
    }
  }

  class TcScreen {
    const tc: Calibration
    const scrPoints: array<Point>
    const tchPoints: array<Point>
    var inputEnabled: bool
    var currentStep: nat
    var indicator: Indicator
    var delays: nat
    var ticks: map<nat, nat>
    var recalibrateTimer: Option<nat>
    var nextTimer: nat
    var ready: seq<Coeff>

    ghost predicate Valid()
      reads this, tc
    {
      && scrPoints.Length == 3 && tchPoints.Length == 3 && scrPoints != tchPoints
      && (tc.registered == null || tc.registered == this)
      && currentStep <= STEP_FINISH
    }

    function View(): Machine
      requires Valid()
      reads this, tc, scrPoints, tchPoints
    {
      Machine(tc.View(), Screen(scrPoints[..], tchPoints[..], currentStep, inputEnabled, indicator,
                                delays, ticks, recalibrateTimer, nextTimer, ready))
    }

    constructor (tc: Calibration, hor: int, ver: int)
      requires tc.registered == null
      ensures inputEnabled && Valid() && this.tc == tc && fresh(scrPoints) && fresh(tchPoints)
      ensures Boot(View()) && View().screen.scr == AutoPoints(hor, ver) && View().tc == tc.View()
    {
      this.tc := tc;
      var scr, tch := new Point[3](_ => ORIGIN), new Point[3](_ => ORIGIN);
      scrPoints, tchPoints := scr, tch;
      inputEnabled, currentStep, indicator := true, STEP_INIT, Unplaced;
      delays, ticks, recalibrateTimer, nextTimer, ready := 0, map[], None, 0, [];
      new;
      SetPoints(AutoPoints(hor, ver));
    }

    method SetPoints(points: seq<Point>)
      requires scrPoints.Length == 3 && |points| == 3
      modifies scrPoints
      ensures scrPoints[..] == points
    {
      scrPoints[0], scrPoints[1], scrPoints[2] := points[0], points[1], points[2];
    }

    method DeleteRecalTimer()
      modifies this`ticks, this`recalibrateTimer
      ensures ticks == (if old(recalibrateTimer).Some? then old(ticks) - {old(recalibrateTimer).value} else old(ticks))
      ensures recalibrateTimer == None
    {
      if recalibrateTimer.Some? {
        ticks := ticks - {recalibrateTimer.value};
        recalibrateTimer := None;
      }
    }

    /** lv_tc_screen_start */
    method StartScreen()
      requires Valid()
      modifies this, tc`registered, tc`calibResult, tc`saved, tchPoints
      ensures Valid() && View() == Start(old(View()))
    {
      StartWithConfig(true);
    }

    /** The argument is documented to turn the start delay off. It is not looked at: the step is the same
        for both values. */
    method StartWithConfig(startDelayEnabled: bool)
      requires Valid()
      modifies this, tc`registered, tc`calibResult, tc`saved, tchPoints
      ensures Valid() && View() == Start(old(View()))
    {
      DeleteRecalTimer();
      Step(STEP_INIT, ORIGIN);
      tc.registered := this;
      delays := delays + 1;
    }

    method Step(step: nat, tchPoint: Point)
      requires Valid() && step <= STEP_FINISH
      modifies this, tc`calibResult, tc`saved, tchPoints
      ensures Valid() && View() == GoTo(old(View()), step, tchPoint)
    {
      ghost var before := View();
      currentStep := step;
      if step > STEP_FIRST {
        tchPoints[step - 2] := tchPoint;
      }
      assert tchPoints[..] == GoTo(before, step, tchPoint).screen.tch;
      if step == STEP_FINISH {
        tc.InstallCoeff(scrPoints, tchPoints, false);
        FinishScreen();
        return;
      }
      // At STEP_INIT the program also moves the hidden indicator, to a position outside scrPoints.
      indicator := if step > STEP_INIT then At(Some(scrPoints[step - 1])) else Hidden;
    }

    method FinishScreen()
      modifies this`ticks, this`recalibrateTimer, this`nextTimer
      ensures ticks == old(ticks)[old(nextTimer) := RECALIB_TIMEOUT_S]
      ensures recalibrateTimer == Some(old(nextTimer)) && nextTimer == old(nextTimer) + 1
    {
      ticks := ticks[nextTimer := RECALIB_TIMEOUT_S];
      recalibrateTimer := Some(nextTimer);
      nextTimer := nextTimer + 1;
    }

    /** True when the sample is LVGL's to handle. */
    method InputCb(data: Sample, d: Display) returns (forward: bool)
      requires Valid()
      modifies this, tc`calibResult, tc`saved, tchPoints
      ensures Valid() && View() == Input(old(View()), data, d)
      ensures forward <==> currentStep >= STEP_FINISH
    {
      if inputEnabled && data.contact == Pressed {
        HandleTouch(data.point, d);
      }
      if data.contact == Released {
        inputEnabled := true;
      }
      return currentStep >= STEP_FINISH;
    }

    method HandleTouch(tchPoint: Point, d: Display)
      requires Valid()
      modifies this, tc`calibResult, tc`saved, tchPoints
      ensures Valid() && View() == ProcessInput(old(View()), tchPoint, d)
    {
      if currentStep > STEP_INIT {
        if currentStep < STEP_FINISH {
          inputEnabled := false;
          Step(currentStep + 1, tchPoint);
        } else {
          indicator := At(Transform(tc.calibResult, d, tchPoint));
        }
      }
    }

    method RecalibrateTimerCb(id: nat)
      requires Valid() && Possible(View(), RecalTick(id))
      modifies this, tc`registered, tc`calibResult, tc`saved, tchPoints
      ensures Valid() && View() == RecalTimer(old(View()), id)
    {
      var left: nat := ticks[id] - 1;
      if left == 0 {
        StartScreen();
        ticks := ticks - {id};
        return;
      }
      ticks := ticks[id := left];
    }

    method StartDelayTimerCb()
      requires Valid() && Possible(View(), DelayElapsed)
      modifies this, tc`calibResult, tc`saved, tchPoints
      ensures Valid() && View() == DelayTimer(old(View()))
    {
      delays := delays - 1;
      Step(STEP_FIRST, ORIGIN);
    }

    /** The accept button. */
    method ReadyScreen()
      requires Valid()
      modifies this, tc`saved
      ensures Valid() && View() == Ready(old(View()))
    {
      tc.SaveCoeff();
      DeleteRecalTimer();
      ready := ready + [tc.calibResult];
    }
  }
}
