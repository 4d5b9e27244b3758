# MSCircleProgressBar in Dafny

A model of the range and value state machine of `MSCircleProgressBar`, a
WinForms control that draws a circular progress ring. The control holds a
`Minimum` and a `Maximum` (ints) and a `Value` (a float). Each of the three
property setters validates its argument and throws `ArgumentOutOfRangeException`
on a bad range. The `Maximum` and `Minimum` setters clamp the value by calling
back into the `Value` setter. The setters raise the `ProgressCompleted` and
`ProgressChanged` events and call `Invalidate()`. `OnResize` keeps the control
square and at least 100 pixels on a side.

The project has two modules:

- `CircleProgress` (`circle_progress.dfy`) states the rules on values. It
  holds the range state `RangeState`, and the trace of `Notice`s
  (`ProgressCompleted`, `ProgressChanged`, `Invalidate`) that an assignment
  produces. It has the three setters as functions shaped like the C# bodies.
  Their contracts state what each setter accepts, where the value ends up and
  exactly which notices it produces, in order. `Run` applies any script of
  assignments and proves that the invariant `Minimum < Maximum` and
  `Minimum <= Value <= Maximum` holds in every state the script reaches.
  `Resized` is the resize rule.
- `Controls` (`controls.dfy`) holds the class `MSCircleProgressBar`. Its fields
  are the ones the setters update in place. Each setter is a method written
  step by step as in C#, including the re-entrant call from
  `SetMaximum`/`SetMinimum` into `SetValue`. Each method is proved against the
  matching function of `CircleProgress`. A thrown exception becomes `ok ==
  false`, with every field and the trace unchanged. The events and the redraw
  requests are recorded in order in the ghost field `notices`. The client
  methods at the end replay the default-control scenarios using only the
  contracts.

The C# behaviour this makes precise:

- An accepted `Value = v` always leaves the value equal to `v`. The
  `value < 0` branch stores 0, but line 241 then overwrites it, since `v != 0`.
- `Value = Maximum` fires `ProgressCompleted` every time, even when the value
  is already at `Maximum`. It never fires `ProgressChanged`, because line 238
  then compares `v` with the `Maximum` just stored. So moving the default
  control from 0 to 100 fires one completion and no change.
- A negative `v` below `Maximum` always fires `ProgressChanged`, even when it
  equals the current value.
- Lowering `Maximum` below the value produces `ProgressCompleted`,
  `Invalidate`, `Invalidate`: one redraw from the Value setter and one from the
  Maximum setter. Raising `Minimum` above the value produces `ProgressChanged`,
  `Invalidate`, `Invalidate`.
- `OnResize` copies the width into the height (`this.Height = this.Width`), so
  the width decides the size and the requested height is ignored.

## Model

| member | source | states |
|---|---|---|
| CircleProgress.Initial | MSCircleProgressBar.cs:185-221 | the initial fields (Minimum 0 at line 203, Maximum 100 at line 185, Value 0 at line 221) satisfy the invariant, with the value at Minimum |
| CircleProgress.AssignValue | MSCircleProgressBar.cs:227-245 | accepted exactly when Minimum <= v <= Maximum; then the value becomes exactly v and nothing else changes; the notices are exactly `ValueNotices`: ProgressCompleted iff v == Maximum (no de-duplication), otherwise ProgressChanged iff v < 0 or v differs from the previous value, then one Invalidate; the invariant is kept |
| CircleProgress.AssignMaximum | MSCircleProgressBar.cs:192-200 | rejected exactly when m <= Minimum; otherwise Maximum becomes m and Minimum is unchanged; a value above m becomes m with ProgressCompleted then two Invalidates, and any other value is unchanged with a single Invalidate; the invariant is kept |
| CircleProgress.AssignMinimum | MSCircleProgressBar.cs:210-218 | rejected exactly when n >= Maximum; otherwise Minimum becomes n and Maximum is unchanged; a value below n becomes n with ProgressChanged (never ProgressCompleted) then two Invalidates, and any other value is unchanged with a single Invalidate; the invariant is kept |
| CircleProgress.Run | MSCircleProgressBar.cs:185-246 | from a valid range, every script of Minimum/Maximum/Value assignments, whose rejections are caught, ends in a valid range: Minimum < Maximum and Minimum <= Value <= Maximum at all times; and since every accepted setter ends with Invalidate() (lines 199, 217, 244), a non-empty trace ends with a redraw request |
| CircleProgress.Resized | MSCircleProgressBar.cs:90-96 | the resulting size is square and at least 100 on a side; the width is kept when it is at least 100 and raised to 100 otherwise; a valid square is left unchanged |
| Controls.MSCircleProgressBar.constructor | MSCircleProgressBar.cs:13-20 | the new control is valid, sized 100 x 100, on range [0, 100] at value 0, bar size 20, white track, fuchsia to yellow-green gradient, no rounded caps, no text, transparent background, and a trace holding the one Invalidate that the font assignment of line 17 makes through the override at line 120 |
| Controls.MSCircleProgressBar.SetValue | MSCircleProgressBar.cs:227-245 | the step-by-step setter accepts exactly what `AssignValue` accepts, reaches its state and appends its notices; on rejection nothing changes and nothing is announced; it keeps the class invariant |
| Controls.MSCircleProgressBar.SetMaximum | MSCircleProgressBar.cs:192-200 | the setter, re-entering `SetValue` to clamp, accepts exactly what `AssignMaximum` accepts, reaches its state and appends its notices; on rejection nothing changes; it keeps the class invariant |
| Controls.MSCircleProgressBar.SetMinimum | MSCircleProgressBar.cs:210-218 | the setter, re-entering `SetValue` to clamp, accepts exactly what `AssignMinimum` accepts, reaches its state and appends its notices; on rejection nothing changes; it keeps the class invariant |
| Controls.MSCircleProgressBar.Resize | MSCircleProgressBar.cs:90-96 | after the host stores the requested size, the step-by-step OnResize leaves exactly `Resized` of it, so the control is square and at least 100 x 100 again |
| Controls.MSCircleProgressBar.SetBarSize | MSCircleProgressBar.cs:131-139 | the bar size becomes the argument unchecked, one redraw is requested, nothing else changes |
| Controls.MSCircleProgressBar.SetProgressColor | MSCircleProgressBar.cs:143-151 | the track colour becomes the argument, one redraw, nothing else changes |
| Controls.MSCircleProgressBar.SetProgressColor1 | MSCircleProgressBar.cs:155-163 | the first gradient colour becomes the argument, one redraw, nothing else changes |
| Controls.MSCircleProgressBar.SetProgressColor2 | MSCircleProgressBar.cs:167-175 | the second gradient colour becomes the argument, one redraw, nothing else changes |
| Controls.MSCircleProgressBar.SetText | MSCircleProgressBar.cs:179 | the text becomes the argument, one redraw, nothing else changes |
| Controls.MSCircleProgressBar.SetBackColor | MSCircleProgressBar.cs:183 | the background colour becomes the argument; the setter makes no Invalidate() call of its own and nothing is announced |
| Controls.MSCircleProgressBar.SetRoundedBar | MSCircleProgressBar.cs:251-259 | the rounded-caps flag becomes the argument, one redraw, nothing else changes |
| Controls.MSCircleProgressBar.SetShowText | MSCircleProgressBar.cs:264-272 | the show-text flag becomes the argument, one redraw, nothing else changes |

## Left out

- `OnPaint` (lines 30-61): arc, gradient and text drawing are calls into GDI+ and `TextRenderer`. The sweep angle `360 * (Value / Maximum)` only feeds a drawing call.
- `OnPaintBackground` (lines 63-88): compositing the parent's paint into the control is toolkit plumbing.
- The `Font` and `ForeColor` overrides (lines 102-122): each stores its value in the base control and calls `Invalidate()`, like `BarSize`. They are not modelled because fonts and the base control's colour are toolkit values. The one call the constructor makes, through line 17, is in the initial trace.
- The control styles and `DoubleBuffered` set in the constructor, and the designer attributes: WinForms configuration with no logic.
- Controls.MSCircleProgressBar.constructor: the redraws that the toolkit's base `Size` and `BackColor` setters may request (lines 16 and 18) are not in `notices`, which starts with only the `Invalidate()` of the `Font` override.
- Float arithmetic: `Value` is a `real`. The int-to-float promotion in comparisons such as `value >= _maximum` (exact in the model, rounded above 2^24 in C#) is not modelled. Neither are NaN and the infinities: in C# a NaN passes the range check of line 229 and is stored, which the real-valued model cannot express.
- Event dispatch: `ProgressCompleted` and `ProgressChanged` are entries in a ghost trace. Subscriber lists, and handlers that re-enter the control while a setter is running, are not modelled. Nor is a handler that throws: inside `Maximum = m` that would leave `_maximum` and `_value` written and skip the `Invalidate()` of line 199, a partial update the `ok` result cannot express.
- Controls.MSCircleProgressBar.Resize: does not model the nested `Resize` events that the `Height`/`Width` assignments inside `OnResize` raise, nor the redraw the toolkit requests on resize. Each nested call reaches the same square, which `Resized` leaves unchanged.
- Controls.MSCircleProgressBar.SetBackColor: models only the store of line 183. The redraw that the toolkit's base `BackColor` setter requests when the colour actually changes is not in `notices`.
- Colours are plain ARGB values, and fonts are not modelled.
