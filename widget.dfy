/**
 `CountdownWidget` as an object whose fields its methods update in place, one
 method per method of the source. The pygame and Qt calls are appended to
 `effects`; connecting and disconnecting the blink slot is the `isBlinking` flag.
 Every method is proved to do what the matching function of module `Countdown`
 says, so the lemmas there apply to the object.
 */
module Dynamite {
  import opened TimeText
  import CustomTime
  import Countdown

  class CountdownWidget {
    var resetTime: int
    var remainingSeconds: int
    var isMuted: bool
    var isPaused: bool
    var isBlinking: bool
    var isVisible: bool
    /** The requests made to the sound device and the text label, oldest first. */
    var effects: seq<Countdown.Effect>

    /** The countdown fields as a value. */
    function Model(): Countdown.Widget
      reads this
    {
      Countdown.Widget(resetTime, remainingSeconds, isMuted, isPaused, isBlinking, isVisible)
    }

    /** `__init__`: a one-hour countdown that has already taken its first second. */
    constructor ()
      ensures Model() == Countdown.Construct().widget
      ensures effects == Countdown.Construct().out
      ensures Countdown.Valid(Model())
      ensures resetTime == 3600 && remainingSeconds == 3599
      ensures !isMuted && !isPaused && !isBlinking && isVisible
    {
      isMuted := false;
      isBlinking := false;
      isVisible := true;
      isPaused := false;
      resetTime := Countdown.DefaultResetTime;
      remainingSeconds := resetTime;
      effects := [];
      new;
      UpdateTime();
    }

    method UpdateTime()
      modifies this
      ensures Model() == Countdown.UpdateTime(old(Model())).widget
      ensures effects == old(effects) + Countdown.UpdateTime(old(Model())).out
    {
      if isPaused {
        return;
      }
      if remainingSeconds > 0 {
        remainingSeconds := remainingSeconds - 1;
        if !isMuted {
          PlayBeep();
        }
      } else {
        if !isBlinking {
          StartBlinking();
        }
        return;
      }
      var text := FormatTime(remainingSeconds);
      effects := effects + [Countdown.Render(text)];
    }

    method PlayBeep()
      modifies this
      ensures Model() == old(Model())
      ensures effects == old(effects) + [Countdown.Beep]
    {
      effects := effects + [Countdown.Beep];
    }

    method PlayExplosion()
      modifies this
      ensures Model() == old(Model())
      ensures effects == old(effects) + Countdown.PlayExplosion(old(Model()))
    {
      if !isMuted {
        effects := effects + [Countdown.Explosion];
      }
    }

    method StartBlinking()
      modifies this
      ensures Model() == Countdown.StartBlinking(old(Model())).widget
      ensures effects == old(effects) + Countdown.StartBlinking(old(Model())).out
    {
      isBlinking := true;
      PlayExplosion();
    }

    method BlinkText()
      modifies this
      ensures Model() == Countdown.BlinkText(old(Model())).widget
      ensures effects == old(effects) + Countdown.BlinkText(old(Model())).out
    {
      isVisible := !isVisible;
      effects := effects + [Countdown.SetLabelVisible(isVisible)];
    }

    /** One timeout of the timer: `update_time`, then `blink_text` if it was connected. */
    method Tick()
      modifies this
      ensures Model() == Countdown.Tick(old(Model())).widget
      ensures effects == old(effects) + Countdown.Tick(old(Model())).out
      ensures Countdown.Valid(old(Model())) ==> Countdown.Valid(Model())
    {
      if Countdown.Valid(Model()) {
        Countdown.TickValid(Model());
      }
      var blinkConnected := isBlinking;
      UpdateTime();
      if blinkConnected {
        BlinkText();
      }
    }

    method ToggleMute()
      modifies this
      ensures Model() == Countdown.ToggleMute(old(Model()))
      ensures effects == old(effects)
    {
      isMuted := !isMuted;
    }

    method TogglePause()
      modifies this
      ensures Model() == Countdown.TogglePause(old(Model()))
      ensures effects == old(effects)
    {
      isPaused := !isPaused;
    }

    method ResetTimer()
      modifies this
      ensures Model() == Countdown.ResetTimer(old(Model())).widget
      ensures effects == old(effects) + Countdown.ResetTimer(old(Model())).out
    {
      remainingSeconds := resetTime;
      StopBlinking();
      effects := effects + [Countdown.SetLabelVisible(true)];
      UpdateTime();
    }

    method SetTimer(seconds: int)
      modifies this
      ensures Model() == Countdown.SetTimer(old(Model()), seconds).widget
      ensures effects == old(effects) + Countdown.SetTimer(old(Model()), seconds).out
    {
      resetTime := seconds;
      ResetTimer();
    }

    /** `set_custom_time`, given what the dialog returned. */
    method SetCustomTime(accepted: bool, hours: string, minutes: string, seconds: string)
      modifies this
      ensures Model() == Countdown.SetCustomTime(old(Model()), accepted, hours, minutes, seconds).widget
      ensures effects == old(effects) + Countdown.SetCustomTime(old(Model()), accepted, hours, minutes, seconds).out
    {
      var selected := CustomTime.SelectedTime(hours, minutes, seconds);
      if accepted && selected.Some? {
        SetTimer(selected.value);
      }
    }

    method StopBlinking()
      modifies this
      ensures Model() == Countdown.StopBlinking(old(Model())).widget
      ensures effects == old(effects) + Countdown.StopBlinking(old(Model())).out
    {
      if isBlinking {
        isBlinking := false;
        effects := effects + [Countdown.SetLabelVisible(true)];
      }
    }

    /** The dispatch of `contextMenuEvent` on the entry the user picked. */
    method ContextMenu(action: Countdown.MenuAction)
      modifies this
      ensures Model() == Countdown.Dispatch(old(Model()), action).widget
      ensures effects == old(effects) + Countdown.Dispatch(old(Model()), action).out
      ensures Countdown.Valid(old(Model())) ==> Countdown.Valid(Model())
    {
      if Countdown.Valid(Model()) {
        Countdown.DispatchValid(Model(), action);
      }
      match action
      case Mute => ToggleMute();
      case Reset => ResetTimer();
      case Pause => TogglePause();
      case SetPreset(p) => SetTimer(Countdown.PresetSeconds(p));
      case Custom(ok, h, m, s) => SetCustomTime(ok, h, m, s);
      case Quit =>
    }
  }
}
