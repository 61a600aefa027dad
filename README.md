# Dynamite countdown — a Dafny model of the countdown engine

The dynamite countdown is a desktop overlay. It shows a stick of dynamite with an
`HH:MM:SS` countdown on it, beeps once a second and plays an explosion at zero, both unless muted.
After that the digits blink until the timer is reset. A right-click menu can
mute, pause, reset, pick a preset duration or open a dialog for a custom
duration.

This project models the part of `CountdownWidget` in `dynamite.py` that decides
what happens:

- the one-second tick (`update_time`, followed by `blink_text` once that slot is connected);
- the commands (`toggle_mute`, `toggle_pause`, `reset_timer`, `set_timer`, `set_custom_time`, `stop_blinking`);
- the preset table of the context menu;
- the `HH:MM:SS` text;
- the arithmetic of `CustomTimeDialog.set_and_start`.

It has five modules in four files:

- `time_text.dfy`, module `TimeText`: `FormatTime`, the label text, built from
  `ClockOf` (hours, minutes, seconds) and `Pad2` (Python's `{:02}`). It also holds
  `ReadClock`, which reads a label text back into seconds. The round trip
  `ReadClock(FormatTime(n)) == Some(n)` is proved. The small `Options` module
  (an `Option` type) is in the same file.
- `custom_time.dfy`, module `CustomTime`: how the dialog's three text fields
  become a number of seconds. An empty field counts as 0. A field that does not
  parse makes the whole selection `None`.
- `countdown.dfy`, module `Countdown`: the state machine as values. `Widget` holds
  the fields the source updates: `reset_time`, `remaining_seconds` and the four
  flags `is_muted`, `is_paused`, `is_blinking` and `is_visible`. Each operation
  returns a `Step`: the new fields, plus the effects asked of pygame and Qt, in
  call order. The effects are `Beep`, `Explosion`, `Render(text)` and
  `SetLabelVisible(shown)`. The lemmas in this module state what the machine
  promises.
- `widget.dfy`, module `Dynamite`: class `CountdownWidget`. Its fields are updated
  in place, with one method per method of the source, and methods call each other
  as the source does. Every method's postcondition ties the new fields and the
  effect log to the matching `Countdown` function of the old fields. So every
  lemma about those functions holds for the object.

Modelling decisions:

- The blink slot counts as connected exactly when `is_blinking` holds. The source
  calls `start_blinking` only when the flag is false (dynamite.py:138). It
  disconnects only when the flag is true (dynamite.py:275-279).
- A slot connected during a timeout fires from the next timeout on. So `Tick`
  runs `blink_text` only if the widget was blinking when the timeout fired.
- The label's visibility lives only in the effect log. It is kept apart from the
  `is_visible` field, because `stop_blinking` shows the label but never resets
  that field (dynamite.py:273-277). `ResetOutcome` shows that `visible`
  survives a reset.
- Integers are unbounded, as in Python. `//` and `%` are applied only to
  non-negative numbers, where Python and Dafny agree.

Three consequences of the code worth knowing:

- `set_timer` accepts negative values. A negative or zero time starts the
  blinking (and, unless muted, the explosion) at once, unless the widget is paused.
- `reset_timer` calls `update_time` directly (dynamite.py:260). So setting a
  timer takes one second off at once: `set_timer(600)` leaves 599 while running.
- The first tick at zero connects the blink slot and explodes unless muted. The blinking
  itself starts on the tick after it.

## Model

| member | source | states |
|---|---|---|
| TimeText.ClockOf | dynamite.py:142-144 | minutes and seconds lie in [0, 60) and `hours*3600 + minutes*60 + seconds == n` |
| TimeText.DecimalDigits | dynamite.py:145 | the decimal text of `n` is all digits, reads back as `n`, has no leading zero, and has one digit exactly when `n < 10` |
| TimeText.Pad2Digits | dynamite.py:145 | `{:02}` writes digits only, reads back as its value, is at least two wide, and is exactly two wide below 100 |
| TimeText.FormatTimeFields | dynamite.py:142-145 | the label text splits at ':' into exactly the three padded fields of `ClockOf(n)`; it is 8 characters while `n < 360000` |
| TimeText.ReadFormatTime | dynamite.py:142-145 | round trip: reading the label text back gives `n` |
| TimeText.FormatTimeInjective | dynamite.py:142-145 | different counts never show the same text |
| CustomTime.SelectedTime | dynamite.py:57-66 | the selection is absent exactly when some field is non-empty and not an integer literal `int()` converts (an optional sign and 1 to 4300 ASCII digits) |
| CustomTime.ParseIntText | dynamite.py:60-62 | `ParseInt` reads the sign-and-digits text `IntText(x)` of any integer, negative ones included, back as `x`, exactly when its digits are within Python's 4300-digit conversion limit, and fails beyond it |
| CustomTime.SelectedTimeOfFields | dynamite.py:60-66 | fields holding the integers h, m, s select `h*3600 + m*60 + s`, with no sign check; a field over the digit limit makes the selection absent |
| CustomTime.BlankFieldsAreZero | dynamite.py:60-62 | an empty field selects the same as the field "0", in each of the three positions and whatever the other two fields hold |
| CustomTime.HoursOnly | dynamite.py:60-63 | hours typed with minutes and seconds left blank select `h*3600` (absent over the digit limit) |
| CustomTime.SelectedTimeOfLabel | dynamite.py:57-66 | typing the three fields of a label text into the dialog selects the time that text shows, unless the hours field is over the digit limit |
| Countdown.ConstructValid | dynamite.py:81-120 | construction gives reset time 3600 and remaining 3599; it is unmuted, unpaused, not blinking and visible; it beeps once and renders 3599; the invariant holds |
| Countdown.ConstructRendersFiftyNineFiftyNine | dynamite.py:142-145 | the first text shown is "00:59:59" |
| Countdown.UpdateTimeKeepsLabelVisibility | dynamite.py:125-146 | `update_time` never touches the visibility field or the label's visibility |
| Countdown.TickExplosions | dynamite.py:136-140 | a tick explodes exactly when it is running at or below zero, not yet blinking and unmuted; afterwards the widget is blinking iff it was, or it ran at or below zero |
| Countdown.TickValid | dynamite.py:125-171 | a tick keeps the invariant: remaining ≤ reset time, blinking only at or below zero, and a negative remaining time equals the reset time |
| Countdown.DispatchValid | dynamite.py:216-245 | every context-menu action keeps the invariant |
| Countdown.TickWhilePaused | dynamite.py:127-128 | a paused tick changes no field except the blink flip, and emits only that blink's label request |
| Countdown.TickCountsDown | dynamite.py:130-146 | a running tick above zero decrements by exactly 1 (never below 0), beeps iff unmuted, never explodes, and renders exactly the new value |
| Countdown.TickAtZero | dynamite.py:136-140 | a running tick at or below zero leaves the count alone, renders nothing, never beeps, sets blinking, and explodes iff it was not blinking and is unmuted |
| Countdown.TickBlinks | dynamite.py:168-171 | while blinking, each tick flips `is_visible` exactly once and sets the label to the new value |
| Countdown.TickWithoutBlink | dynamite.py:162-166 | when not blinking at the start of a tick, neither the visibility field nor the label changes |
| Countdown.AfterValid | dynamite.py:116-118 | the invariant holds after any number of ticks |
| Countdown.AfterWhilePaused | dynamite.py:127-128 | any number of paused ticks leave every field unchanged, except the blink flip once per tick |
| Countdown.OutWhilePaused | dynamite.py:127-128 | no paused tick beeps, explodes or renders |
| Countdown.AfterCountsDown | dynamite.py:130-131 | k ≤ remaining running ticks take off exactly k seconds and change nothing else |
| Countdown.OutCountsDown | dynamite.py:130-146 | tick number i of a countdown from n beeps unless muted and renders `n - 1 - i`, and does nothing else |
| Countdown.ExplodesAtZero | dynamite.py:136-140 | from n ≥ 0, tick number n (the first at zero) explodes iff unmuted, and the widget is then blinking at 0 |
| Countdown.BlinkingPersists | dynamite.py:162-166 | once blinking, the widget stays blinking through every later tick |
| Countdown.NoExplosionAfter | dynamite.py:136-139 | after a tick that explodes, no later tick explodes |
| Countdown.ExplosionAtMostOnce | dynamite.py:136-139 | of all the ticks, at most one explodes |
| Countdown.AfterBlinks | dynamite.py:168-171 | from a valid blinking widget, ticks alternate `is_visible` and the label strictly, paused or not, muted or not; nothing else changes |
| Countdown.ToggleMuteInvolutive | dynamite.py:247-249 | `toggle_mute` flips only `is_muted` and undoes itself |
| Countdown.TogglePauseInvolutive | dynamite.py:251-253 | `toggle_pause` flips only `is_paused` and undoes itself |
| Countdown.ResetOutcome | dynamite.py:255-260 | reset keeps reset time, mute, pause and `is_visible`; clears or restarts blinking; shows the label; then: paused stays at the reset time; running above zero leaves reset time - 1, beeps and renders it; running at or below zero restarts blinking and explodes unless muted |
| Countdown.ResetShowsLabel | dynamite.py:255-260 | after a reset the label's last requested visibility is shown |
| Countdown.SetTimerOutcome | dynamite.py:262-265 | `set_timer(s)` from any state: reset time s; paused leaves s; running with s > 0 leaves s - 1; running with s ≤ 0 blinks at once |
| Countdown.PresetOutcome | dynamite.py:224-241 | each preset is a positive number of seconds; running, it leaves that number - 1 and does not blink |
| Countdown.CustomTimeOutcome | dynamite.py:267-271 | a closed dialog or an unparsable field leaves the widget unchanged with no effect; otherwise it is `set_timer` of the total |
| Dynamite.CountdownWidget.constructor | dynamite.py:81-120 | the fields and the effect log are those of `Countdown.Construct`: remaining 3599 |
| Dynamite.CountdownWidget.UpdateTime | dynamite.py:125-146 | the fields and the effect log follow `Countdown.UpdateTime` |
| Dynamite.CountdownWidget.PlayBeep | dynamite.py:148-150 | appends one beep and changes no field |
| Dynamite.CountdownWidget.PlayExplosion | dynamite.py:152-155 | appends the explosion unless muted and changes no field |
| Dynamite.CountdownWidget.StartBlinking | dynamite.py:162-166 | sets `isBlinking` (the blink slot's connection) and plays the explosion |
| Dynamite.CountdownWidget.BlinkText | dynamite.py:168-171 | flips `isVisible` and requests that visibility for the label |
| Dynamite.CountdownWidget.Tick | dynamite.py:116-118 | one timer timeout: `update_time`, then `blink_text` if it was connected; keeps the countdown invariant |
| Dynamite.CountdownWidget.ToggleMute | dynamite.py:247-249 | fields become `Countdown.ToggleMute` of the old ones, with no effect |
| Dynamite.CountdownWidget.TogglePause | dynamite.py:251-253 | fields become `Countdown.TogglePause` of the old ones, with no effect |
| Dynamite.CountdownWidget.ResetTimer | dynamite.py:255-260 | the fields and the effect log follow `Countdown.ResetTimer` |
| Dynamite.CountdownWidget.SetTimer | dynamite.py:262-265 | the fields and the effect log follow `Countdown.SetTimer` |
| Dynamite.CountdownWidget.SetCustomTime | dynamite.py:267-271 | the fields and the effect log follow `Countdown.SetCustomTime` |
| Dynamite.CountdownWidget.StopBlinking | dynamite.py:273-282 | clears `isBlinking` and shows the label only when it was blinking; `isVisible` is kept |
| Dynamite.CountdownWidget.ContextMenu | dynamite.py:216-245 | each menu entry runs its command; presets are 28800, 14400, 3600, 1800, 900, 600, 300, 60 and 30 seconds; keeps the countdown invariant |

## Left out

- Window setup, fonts, style sheet, background image, label geometry and translucency (dynamite.py:97-113, 157-160): presentation only.
- Mouse dragging of the window (dynamite.py:173-187): window positioning only.
- Building and showing the context menu and the dialog's layout (dynamite.py:9-55, 189-216), including the "Mute"/"Unmute" and "Pause"/"Resume" captions. The model starts from the entry the user picked and from the dialog's three field texts.
- Sound loading and playback through pygame (dynamite.py:90-95, 148-150, 155): a foreign library. A played sound is an effect in the log.
- Real-time scheduling by `QTimer`, and the mechanics of connecting and disconnecting signals (dynamite.py:116-118, 166, 278-282). A timeout is a call to `Tick`; the blink connection is the `isBlinking` flag.
- `Quit` closes the window (dynamite.py:244-245). The model keeps the countdown fields as they are and does not model the window's lifetime.
- The `__main__` block: file paths and application start-up (dynamite.py:285-306).
- CustomTime.ParseInt: accepts only an optional '+' or '-' followed by one to 4300 ASCII digits. Python's `int()` also accepts surrounding whitespace, underscores between digits and non-ASCII digits. The 4300-digit limit is the default of CPython 3.11 and later and of the 3.7.14, 3.8.14, 3.9.14 and 3.10.7 security releases; older interpreters convert literals of any length, and on them a longer field would select a time where the model selects none.
- TimeText.FormatTime: Python's `{:02}` raises `ValueError` once the hours have more than 4300 digits. The model formats every count, so it does not capture that failure for counts of more than 3600 * 10^4300 seconds.
