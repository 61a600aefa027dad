/**
 The countdown state machine of `CountdownWidget`, as values: a `Widget` holds the
 fields the widget updates, and every operation maps the old fields to a `Step`,
 the new fields together with the effects (sounds, label text, label visibility)
 it asks pygame and Qt for, in call order. The class in module `Dynamite` updates
 its fields in place and is proved to follow these functions; the lemmas here
 state what the machine promises.
 */
module Countdown {
  import opened Options
  import opened TimeText
  import opened CustomTime

  /** A request to the sound device or the text label. */
  datatype Effect = Beep | Explosion | Render(text: string) | SetLabelVisible(shown: bool)

  /**
   The widget's countdown fields. `blinking` also stands for "the blink slot is
   connected to the one-second timer": the source connects it only when the flag
   goes from false to true and disconnects it only when the flag goes back.
   */
  datatype Widget = Widget(
    resetTime: int,
    remaining: int,
    muted: bool,
    paused: bool,
    blinking: bool,
    visible: bool)

  datatype Step = Step(widget: Widget, out: seq<Effect>)

  const DefaultResetTime: int := 3600

  /** The fields as the constructor sets them, before its call to `update_time`. */
  function Initial(): Widget {
    Widget(DefaultResetTime, DefaultResetTime, false, false, false, true)
  }

  /** The constructor: default fields, then one `update_time`. */
  function Construct(): Step {
    UpdateTime(Initial())
  }

  /** `play_explosion`: the explosion sound unless muted. */
  function PlayExplosion(w: Widget): seq<Effect> {
    if w.muted then [] else [Explosion]
  }

  /** `start_blinking`: set the flag, play the explosion, connect the blink slot. */
  function StartBlinking(w: Widget): Step {
    Step(w.(blinking := true), PlayExplosion(w))
  }

  /** The effects of one running second that leaves `left` seconds: the beep unless muted, then the new text. */
  function SecondOut(left: nat, muted: bool): seq<Effect> {
    (if muted then [] else [Beep]) + [Render(FormatTime(left))]
  }

  /** `update_time`: one second of countdown, or the start of the blinking at zero. */
  function UpdateTime(w: Widget): Step {
    if w.paused then Step(w, [])
    else if w.remaining > 0 then
      var left := w.remaining - 1;
      Step(w.(remaining := left), SecondOut(left, w.muted))
    else if !w.blinking then StartBlinking(w)
    else Step(w, [])
  }

  /** `blink_text`: flip the visibility field and show or hide the label accordingly. */
  function BlinkText(w: Widget): Step {
    var v := !w.visible;
    Step(w.(visible := v), [SetLabelVisible(v)])
  }

  /** `stop_blinking`: clear the flag and show the label; the visibility field is left as it is. */
  function StopBlinking(w: Widget): Step {
    if w.blinking then Step(w.(blinking := false), [SetLabelVisible(true)]) else Step(w, [])
  }

  /**
   One timeout of the one-second timer: `update_time`, then `blink_text` if the
   blink slot was connected when the timeout fired.
   */
  function Tick(w: Widget): Step {
    var u := UpdateTime(w);
    if w.blinking then
      var b := BlinkText(u.widget);
      Step(b.widget, u.out + b.out)
    else u
  }

  function ToggleMute(w: Widget): Widget {
    w.(muted := !w.muted)
  }

  function TogglePause(w: Widget): Widget {
    w.(paused := !w.paused)
  }

  /** `reset_timer`: reload the configured time, stop blinking, show the label, then `update_time`. */
  function ResetTimer(w: Widget): Step {
    var s := StopBlinking(w.(remaining := w.resetTime));
    var u := UpdateTime(s.widget);
    Step(u.widget, s.out + [SetLabelVisible(true)] + u.out)
  }

  /** `set_timer(seconds)`: configure the time, then reset. */
  function SetTimer(w: Widget, seconds: int): Step {
    ResetTimer(w.(resetTime := seconds))
  }

  /**
   `set_custom_time`: the dialog's fields as typed; `accepted` is false when the
   dialog was closed without "Set & Start".
   */
  function SetCustomTime(w: Widget, accepted: bool, hours: string, minutes: string, seconds: string): Step {
    var selected := if accepted then SelectedTime(hours, minutes, seconds) else None;
    if selected.Some? then SetTimer(w, selected.value) else Step(w, [])
  }

  /** The "Set to ..." entries of the context menu. */
  datatype Preset =
    | EightHours | FourHours | OneHour | ThirtyMinutes | FifteenMinutes
    | TenMinutes | FiveMinutes | OneMinute | ThirtySeconds

  function PresetSeconds(p: Preset): nat {
    match p
    case EightHours => 8 * 3600
    case FourHours => 4 * 3600
    case OneHour => 3600
    case ThirtyMinutes => 30 * 60
    case FifteenMinutes => 15 * 60
    case TenMinutes => 10 * 60
    case FiveMinutes => 5 * 60
    case OneMinute => 60
    case ThirtySeconds => 30
  }

  /** The entry picked in the context menu; `Quit` closes the window and changes no countdown field. */
  datatype MenuAction =
    | Mute
    | Reset
    | Pause
    | SetPreset(preset: Preset)
    | Custom(accepted: bool, hours: string, minutes: string, seconds: string)
    | Quit

  /** The dispatch at the end of `contextMenuEvent`. */
  function Dispatch(w: Widget, a: MenuAction): Step {
    match a
    case Mute => Step(ToggleMute(w), [])
    case Reset => ResetTimer(w)
    case Pause => Step(TogglePause(w), [])
    case SetPreset(p) => SetTimer(w, PresetSeconds(p))
    case Custom(ok, h, m, s) => SetCustomTime(w, ok, h, m, s)
    case Quit => Step(w, [])
  }

  /** The widget after `k` timeouts. */
  function After(w: Widget, k: nat): Widget
    decreases k
  {
    if k == 0 then w else Tick(After(w, k - 1)).widget
  }

  /** The effects of timeout number `i` (counting from 0). */
  function OutAt(w: Widget, i: nat): seq<Effect> {
    Tick(After(w, i)).out
  }

  // ---------------------------------------------------------------------------
  // Reading the effect log

  /** The texts put on the label, in order. */
  function Rendered(out: seq<Effect>): seq<string> {
    if out == [] then []
    else (if out[0].Render? then [out[0].text] else []) + Rendered(out[1..])
  }

  /** The label visibility last requested, if any. */
  function LastVisibility(out: seq<Effect>): Option<bool> {
    if out == [] then None
    else if out[|out| - 1].SetLabelVisible? then Some(out[|out| - 1].shown)
    else LastVisibility(out[..|out| - 1])
  }

  lemma {:induction false} RenderedAppend(a: seq<Effect>, b: seq<Effect>)
    ensures Rendered(a + b) == Rendered(a) + Rendered(b)
  {
    if a != [] {
      var head := if a[0].Render? then [a[0].text] else [];
      assert (a + b)[0] == a[0];
      assert (a + b)[1..] == a[1..] + b;
      RenderedAppend(a[1..], b);
      calc {
        Rendered(a + b);
        head + Rendered(a[1..] + b);
        head + (Rendered(a[1..]) + Rendered(b));
        (head + Rendered(a[1..])) + Rendered(b);
      }
    } else {
      assert a + b == b;
    }
  }

  lemma {:induction false} LastVisibilityAppend(a: seq<Effect>, b: seq<Effect>)
    ensures LastVisibility(a + b) == if LastVisibility(b).Some? then LastVisibility(b) else LastVisibility(a)
  {
    if b != [] {
      assert (a + b)[..|a + b| - 1] == a + b[..|b| - 1];
      LastVisibilityAppend(a, b[..|b| - 1]);
    } else {
      assert a + b == a;
    }
  }

  lemma {:induction false} NoVisibilityRequest(out: seq<Effect>)
    requires forall i :: 0 <= i < |out| ==> !out[i].SetLabelVisible?
    ensures LastVisibility(out) == None
  {
    if out != [] {
      NoVisibilityRequest(out[..|out| - 1]);
    }
  }

  /** `update_time` never touches the label's visibility. */
  lemma UpdateTimeKeepsLabelVisibility(w: Widget)
    ensures LastVisibility(UpdateTime(w).out) == None
    ensures UpdateTime(w).widget.visible == w.visible
  {
    NoVisibilityRequest(UpdateTime(w).out);
  }

  /** What one timeout does to the explosion count and the blinking flag. */
  lemma TickExplosions(w: Widget)
    ensures Explosion in Tick(w).out <==> !w.paused && w.remaining <= 0 && !w.blinking && !w.muted
    ensures multiset(Tick(w).out)[Explosion] == if !w.paused && w.remaining <= 0 && !w.blinking && !w.muted then 1 else 0
    ensures Tick(w).widget.blinking == (w.blinking || (!w.paused && w.remaining <= 0))
  {
  }

  // ---------------------------------------------------------------------------
  // The invariant every reachable widget keeps

  /**
   The remaining time never exceeds the configured time, blinking happens only at
   or below zero, and a negative remaining time is exactly a negative configured
   time that has not been counted down.
   */
  predicate Valid(w: Widget) {
    && w.remaining <= w.resetTime
    && (w.blinking ==> w.remaining <= 0)
    && (w.remaining < 0 ==> w.remaining == w.resetTime)
  }

  lemma ConstructValid()
    ensures Valid(Construct().widget)
    ensures Construct().widget == Widget(3600, 3599, false, false, false, true)
    ensures Construct().out == [Beep, Render(FormatTime(3599))]
  {
  }

  /** The constructor's first render shows 59 minutes and 59 seconds. */
  lemma ConstructRendersFiftyNineFiftyNine()
    ensures FormatTime(3599) == "00:59:59"
  {
    var c := ClockOf(3599);
    assert c == Clock(0, 59, 59);
    assert Decimal(5) == "5";
    assert Decimal(59) == "59";
  }

  lemma TickValid(w: Widget)
    requires Valid(w)
    ensures Valid(Tick(w).widget)
  {
  }

  lemma DispatchValid(w: Widget, a: MenuAction)
    requires Valid(w)
    ensures Valid(Dispatch(w, a).widget)
  {
  }

  // ---------------------------------------------------------------------------
  // One timeout

  /** While paused, a timeout changes nothing but the blink. */
  lemma TickWhilePaused(w: Widget)
    requires w.paused
    ensures Tick(w).widget == if w.blinking then w.(visible := !w.visible) else w
    ensures Tick(w).out == if w.blinking then [SetLabelVisible(!w.visible)] else []
  {
  }

  /** Above zero, a running timeout takes one second off, beeps unless muted and shows the new time. */
  lemma TickCountsDown(w: Widget)
    requires !w.paused && w.remaining > 0
    ensures var t := Tick(w);
      && t.widget.remaining == w.remaining - 1 >= 0
      && t.widget.resetTime == w.resetTime
      && t.widget.blinking == w.blinking
      && (Beep in t.out <==> !w.muted)
      && Explosion !in t.out
      && Rendered(t.out) == [FormatTime(w.remaining - 1)]
  {
    var u := UpdateTime(w);
    RenderedAppend([], [Render(FormatTime(w.remaining - 1))]);
    assert Rendered(u.out) == [FormatTime(w.remaining - 1)] by {
      RenderedAppend(if w.muted then [] else [Beep], [Render(FormatTime(w.remaining - 1))]);
    }
    if w.blinking {
      RenderedAppend(u.out, BlinkText(u.widget).out);
    }
  }

  /**
   At or below zero, a running timeout leaves the count and the text alone and
   starts the blinking; the explosion sounds only on the first such timeout, and
   only unmuted.
   */
  lemma TickAtZero(w: Widget)
    requires !w.paused && w.remaining <= 0
    ensures var t := Tick(w);
      && t.widget.remaining == w.remaining
      && t.widget.blinking
      && Rendered(t.out) == []
      && Beep !in t.out
      && (Explosion in t.out <==> !w.blinking && !w.muted)
  {
  }

  /** While blinking, a timeout flips the visibility field once and sets the label to it. */
  lemma TickBlinks(w: Widget)
    requires w.blinking
    ensures var t := Tick(w);
      && t.widget.blinking
      && t.widget.visible == !w.visible
      && LastVisibility(t.out) == Some(!w.visible)
      && multiset(t.out)[SetLabelVisible(!w.visible)] == 1
      && SetLabelVisible(w.visible) !in t.out
  {
    var u := UpdateTime(w);
    LastVisibilityAppend(u.out, [SetLabelVisible(!w.visible)]);
  }

  /**
   Without blinking, a timeout touches neither the visibility field nor the label:
   a blink slot connected during a timeout first fires on the next one.
   */
  lemma TickWithoutBlink(w: Widget)
    requires !w.blinking
    ensures Tick(w).widget.visible == w.visible
    ensures LastVisibility(Tick(w).out) == None
  {
    UpdateTimeKeepsLabelVisibility(w);
  }

  // ---------------------------------------------------------------------------
  // Many timeouts

  lemma {:induction false} AfterValid(w: Widget, k: nat)
    requires Valid(w)
    ensures Valid(After(w, k))
    decreases k
  {
    if k > 0 {
      AfterValid(w, k - 1);
      TickValid(After(w, k - 1));
    }
  }

  /** Any number of timeouts while paused: only the blink can change anything, and it flips the visibility field once per timeout. */
  lemma {:induction false} AfterWhilePaused(w: Widget, k: nat)
    requires w.paused
    ensures After(w, k) == if w.blinking && k % 2 == 1 then w.(visible := !w.visible) else w
    decreases k
  {
    if k > 0 {
      AfterWhilePaused(w, k - 1);
      TickWhilePaused(After(w, k - 1));
    }
  }

  /** While paused, no timeout beeps, explodes or changes the text. */
  lemma OutWhilePaused(w: Widget, i: nat)
    requires w.paused
    ensures Beep !in OutAt(w, i) && Explosion !in OutAt(w, i)
    ensures forall e :: e in OutAt(w, i) ==> !e.Render?
  {
    AfterWhilePaused(w, i);
    TickWhilePaused(After(w, i));
  }

  /** Counting down, `k <= remaining` running timeouts take exactly `k` seconds off and change nothing else. */
  lemma {:induction false} AfterCountsDown(w: Widget, k: nat)
    requires !w.paused && !w.blinking && k <= w.remaining
    ensures After(w, k) == w.(remaining := w.remaining - k)
    decreases k
  {
    if k > 0 {
      AfterCountsDown(w, k - 1);
      TickCountsDown(After(w, k - 1));
    }
  }

  /**
   Timeout number `i` of a countdown from `remaining` beeps unless muted and shows
   `remaining - 1 - i` seconds, and does nothing else.
   */
  lemma OutCountsDown(w: Widget, i: nat)
    requires !w.paused && !w.blinking && i < w.remaining
    ensures OutAt(w, i) == SecondOut(w.remaining - 1 - i, w.muted)
  {
    AfterCountsDown(w, i);
  }

  /** The timeout after the count reaches zero explodes unless muted and starts the blinking. */
  lemma ExplodesAtZero(w: Widget)
    requires !w.paused && !w.blinking && w.remaining >= 0
    ensures Explosion in OutAt(w, w.remaining) <==> !w.muted
    ensures After(w, w.remaining + 1).blinking && After(w, w.remaining + 1).remaining == 0
  {
    AfterCountsDown(w, w.remaining);
    TickAtZero(After(w, w.remaining));
  }

  /** Once blinking, the widget stays blinking through every later timeout. */
  lemma {:induction false} BlinkingPersists(w: Widget, i: nat, j: nat)
    requires i <= j && After(w, i).blinking
    ensures After(w, j).blinking
    decreases j - i
  {
    if i < j {
      TickExplosions(After(w, i));
      BlinkingPersists(w, i + 1, j);
    }
  }

  /** After a timeout that explodes, no later timeout explodes. */
  lemma NoExplosionAfter(w: Widget, i: nat, j: nat)
    requires i < j && Explosion in OutAt(w, i)
    ensures Explosion !in OutAt(w, j)
  {
    TickExplosions(After(w, i));
    assert After(w, i + 1) == Tick(After(w, i)).widget;
    BlinkingPersists(w, i + 1, j);
    TickExplosions(After(w, j));
  }

  /** However many timeouts come, the explosion sounds on at most one of them. */
  lemma ExplosionAtMostOnce(w: Widget, i: nat, j: nat)
    requires Explosion in OutAt(w, i) && Explosion in OutAt(w, j)
    ensures i == j
  {
    if i < j {
      NoExplosionAfter(w, i, j);
    } else if j < i {
      NoExplosionAfter(w, j, i);
    }
  }

  /**
   Once blinking, timeouts alternate the visibility field and the label strictly,
   whatever the paused and muted flags; nothing else changes.
   */
  lemma {:induction false} AfterBlinks(w: Widget, k: nat)
    requires Valid(w) && w.blinking
    ensures After(w, k) == w.(visible := if k % 2 == 0 then w.visible else !w.visible)
    ensures OutAt(w, k) == [SetLabelVisible(if k % 2 == 0 then !w.visible else w.visible)]
    decreases k
  {
    if k > 0 {
      AfterBlinks(w, k - 1);
    }
  }

  // ---------------------------------------------------------------------------
  // Commands

  lemma ToggleMuteInvolutive(w: Widget)
    ensures ToggleMute(w).muted != w.muted
    ensures ToggleMute(w).(muted := w.muted) == w
    ensures ToggleMute(ToggleMute(w)) == w
  {
  }

  lemma TogglePauseInvolutive(w: Widget)
    ensures TogglePause(w).paused != w.paused
    ensures TogglePause(w).(paused := w.paused) == w
    ensures TogglePause(TogglePause(w)) == w
  {
  }

  /** The label requests of a reset: `stop_blinking`'s when it was blinking, then `reset_timer`'s own. */
  function ShowLabel(wasBlinking: bool): seq<Effect> {
    (if wasBlinking then [SetLabelVisible(true)] else []) + [SetLabelVisible(true)]
  }

  /**
   A reset keeps the configuration, the mute and pause flags and the visibility
   field, shows the label, and then behaves like one timeout from the configured
   time: paused it stays there, running above zero it takes a second off,
   running at or below zero it starts the blinking at once.
   */
  lemma ResetOutcome(w: Widget)
    ensures w.paused ==>
      ResetTimer(w) == Step(w.(remaining := w.resetTime, blinking := false), ShowLabel(w.blinking))
    ensures !w.paused && w.resetTime > 0 ==>
      ResetTimer(w) == Step(w.(remaining := w.resetTime - 1, blinking := false),
                            ShowLabel(w.blinking) + SecondOut(w.resetTime - 1, w.muted))
    ensures !w.paused && w.resetTime <= 0 ==>
      ResetTimer(w) == Step(w.(remaining := w.resetTime, blinking := true),
                            ShowLabel(w.blinking) + PlayExplosion(w))
  {
  }

  /** After a reset the label is shown, whatever the blinking had left it at. */
  lemma ResetShowsLabel(w: Widget)
    ensures LastVisibility(ResetTimer(w).out) == Some(true)
  {
    var s := StopBlinking(w.(remaining := w.resetTime));
    var u := UpdateTime(s.widget);
    var pre := s.out + [SetLabelVisible(true)];
    assert LastVisibility(pre) == Some(true);
    UpdateTimeKeepsLabelVisibility(s.widget);
    LastVisibilityAppend(pre, u.out);
  }

  /** `set_timer(s)` configures `s` and then resets, whatever the previous state. */
  lemma SetTimerOutcome(w: Widget, seconds: int)
    ensures var n := SetTimer(w, seconds).widget;
      && n.resetTime == seconds && n.muted == w.muted && n.paused == w.paused
      && LastVisibility(SetTimer(w, seconds).out) == Some(true)
      && (w.paused ==> n.remaining == seconds && !n.blinking)
      && (!w.paused && seconds > 0 ==> n.remaining == seconds - 1 && !n.blinking)
      && (!w.paused && seconds <= 0 ==> n.remaining == seconds && n.blinking)
  {
    ResetOutcome(w.(resetTime := seconds));
    ResetShowsLabel(w.(resetTime := seconds));
  }

  /** Every preset is a positive number of seconds, so a running preset never blinks at once. */
  lemma PresetOutcome(w: Widget, p: Preset)
    requires !w.paused
    ensures var n := Dispatch(w, SetPreset(p)).widget;
      && n.resetTime == PresetSeconds(p) > 0
      && n.remaining == PresetSeconds(p) - 1
      && !n.blinking
  {
    SetTimerOutcome(w, PresetSeconds(p));
  }

  /**
   The custom time sets the timer to the selected total; a closed dialog or a
   field that does not parse leaves the widget exactly as it was, with no effect.
   */
  lemma CustomTimeOutcome(w: Widget, accepted: bool, h: string, m: string, s: string)
    ensures var r := SetCustomTime(w, accepted, h, m, s);
      && (!accepted || Unparsable(h) || Unparsable(m) || Unparsable(s) ==> r == Step(w, []))
      && (accepted && !Unparsable(h) && !Unparsable(m) && !Unparsable(s) ==>
            r == SetTimer(w, SelectedTime(h, m, s).value))
  {
  }
}
