/** The control itself: the fields its property setters update in place,
    with each setter written step by step as the C# does it and proved
    against the rules of module CircleProgress. The two events and the
    redraw requests are recorded, in order, in the ghost trace `notices`. */
module Controls {
  import opened CircleProgress

  /** A colour, as its 32-bit ARGB value; only stored and compared here. */
  datatype Color = Argb(argb: int)

  const White: Color := Argb(0xFFFF_FFFF)
  const Fuchsia: Color := Argb(0xFFFF_00FF)
  const YellowGreen: Color := Argb(0xFF9A_CD32)
  const Transparent: Color := Argb(0x00FF_FFFF)

  class MSCircleProgressBar {
    var minimum: int
    var maximum: int
    var value: real
    var barSize: real
    var roundedBar: bool
    var showText: bool
    var progressColor: Color
    var progressColor1: Color
    var progressColor2: Color
    var text: string
    var backColor: Color
    var width: int
    var height: int
    // ProgressCompleted and ProgressChanged raised and Invalidate() calls, oldest first
    ghost var notices: seq<Notice>

    /** The range part of the state. */
    function Range(): RangeState
      reads this
    {
      RangeState(minimum, maximum, value)
    }

    /** The control's invariant: a valid range and a square of side >= 100. */
    ghost predicate Valid()
      reads this
    {
      CircleProgress.Valid(Range()) && width == height >= MinimumSide
    }

    /** The constructor with the field initialisers: a 100 x 100 control on
        the range [0, 100] at value 0, bar 20 wide, white track, fuchsia to
        yellow-green arc, no rounded caps, no text, transparent background.
        Assigning the font runs the `Font` override, which calls
        `Invalidate()` once; the font value itself is not modelled. */
    constructor ()
      ensures Valid()
      ensures Range() == Initial()
      ensures width == 100 && height == 100
      ensures barSize == 20.0 && !roundedBar && !showText
      ensures progressColor == White && progressColor1 == Fuchsia && progressColor2 == YellowGreen
      ensures text == "" && backColor == Transparent
      ensures notices == [Invalidate]
    {
      minimum, maximum, value := 0, 100, 0.0;
      barSize, roundedBar, showText := 20.0, false, false;
      progressColor, progressColor1, progressColor2 := White, Fuchsia, YellowGreen;
      text, backColor := "", Transparent;
      width, height := 100, 100;
      notices := [Invalidate];
    }

    /** `Value = v`: `ok` is false where the C# throws, and then nothing
        changes. The setter needs no invariant: `SetMaximum` and
        `SetMinimum` call it after storing their new bound. */
    method SetValue(v: real) returns (ok: bool)
      modifies this`value, this`notices
      ensures var r := AssignValue(old(Range()), v);
        ok == r.Some? && Range() == StateAfter(old(Range()), r) &&
        notices == old(notices) + NoticesOf(r)
      ensures old(Valid()) ==> Valid()
    {
      if v < minimum as real || v > maximum as real {
        return false;
      }
      if v >= maximum as real {
        value := maximum as real;
        notices := notices + [ProgressCompleted];
      } else if v < 0.0 {
        value := 0.0;
      }
      var changed := v != value;
      if changed {
        value := v;
        notices := notices + [ProgressChanged];
      }
      notices := notices + [Invalidate];
      ok := true;
    }

    /** `Maximum = m`, re-entering the Value setter when the value is now
        above the new bound. */
    method SetMaximum(m: int) returns (ok: bool)
      modifies this`maximum, this`value, this`notices
      ensures var r := AssignMaximum(old(Range()), m);
        ok == r.Some? && Range() == StateAfter(old(Range()), r) &&
        notices == old(notices) + NoticesOf(r)
      ensures old(Valid()) ==> Valid()
    {
      if m <= minimum {
        return false;
      }
      maximum := m;
      if value > maximum as real {
        var clamped := SetValue(maximum as real);
        assert clamped;
      }
      notices := notices + [Invalidate];
      ok := true;
    }

    /** `Minimum = n`, re-entering the Value setter when the value is now
        below the new bound. */
    method SetMinimum(n: int) returns (ok: bool)
      modifies this`minimum, this`value, this`notices
      ensures var r := AssignMinimum(old(Range()), n);
        ok == r.Some? && Range() == StateAfter(old(Range()), r) &&
        notices == old(notices) + NoticesOf(r)
      ensures old(Valid()) ==> Valid()
    {
      if n >= maximum {
        return false;
      }
      minimum := n;
      if value < minimum as real {
        var clamped := SetValue(minimum as real);
        assert clamped;
      }
      notices := notices + [Invalidate];
      ok := true;
    }

    /** The host assigns `Size` and raises `Resize`; `OnResize` then floors
        the height, floors the width and copies the width into the height. */
    method Resize(requestedWidth: int, requestedHeight: int)
      modifies this`width, this`height
      ensures Size(width, height) == Resized(Size(requestedWidth, requestedHeight))
      ensures CircleProgress.Valid(Range()) ==> Valid()
    {
      width, height := requestedWidth, requestedHeight;
      if height < MinimumSide {
        height := MinimumSide;
      }
      if width < MinimumSide {
        width := MinimumSide;
      }
      height := width;
    }

    /** `BarSize = size`: stored unchecked, then a redraw. */
    method SetBarSize(size: real)
      modifies this`barSize, this`notices
      ensures barSize == size && notices == old(notices) + [Invalidate]
    {
      barSize := size;
      notices := notices + [Invalidate];
    }

    /** `RoundedBar = rounded`: stored, then a redraw. */
    method SetRoundedBar(rounded: bool)
      modifies this`roundedBar, this`notices
      ensures roundedBar == rounded && notices == old(notices) + [Invalidate]
    {
      roundedBar := rounded;
      notices := notices + [Invalidate];
    }

    /** `ShowText = show`: stored, then a redraw. */
    method SetShowText(show: bool)
      modifies this`showText, this`notices
      ensures showText == show && notices == old(notices) + [Invalidate]
    {
      showText := show;
      notices := notices + [Invalidate];
    }

    /** `ProgressColor = c` (the track): stored, then a redraw. */
    method SetProgressColor(c: Color)
      modifies this`progressColor, this`notices
      ensures progressColor == c && notices == old(notices) + [Invalidate]
    {
      progressColor := c;
      notices := notices + [Invalidate];
    }

    /** `ProgressColor1 = c` (the arc's first gradient stop): stored, then a redraw. */
    method SetProgressColor1(c: Color)
      modifies this`progressColor1, this`notices
      ensures progressColor1 == c && notices == old(notices) + [Invalidate]
    {
      progressColor1 := c;
      notices := notices + [Invalidate];
    }

    /** `ProgressColor2 = c` (the arc's second gradient stop): stored, then a redraw. */
    method SetProgressColor2(c: Color)
      modifies this`progressColor2, this`notices
      ensures progressColor2 == c && notices == old(notices) + [Invalidate]
    {
      progressColor2 := c;
      notices := notices + [Invalidate];
    }

    /** `Text = t`: stored, then a redraw. */
    method SetText(t: string)
      modifies this`text, this`notices
      ensures text == t && notices == old(notices) + [Invalidate]
    {
      text := t;
      notices := notices + [Invalidate];
    }

    /** `BackColor = c`: stored, with no `Invalidate()` call of the
        control's own (the base setter's redraw is not modelled). */
    method SetBackColor(c: Color)
      modifies this`backColor
      ensures backColor == c
    {
      backColor := c;
    }
  }

  /** A client on the default control: reaching Maximum announces
      completion and no change, again when already there; an out-of-range
      value is rejected without a trace. */
  method CompletionScenario() {
    var bar := new MSCircleProgressBar();
    var ok := bar.SetValue(100.0);
    assert ok && bar.value == 100.0 && bar.notices == [Invalidate, ProgressCompleted, Invalidate];
    ok := bar.SetValue(100.0);
    assert ok && bar.notices == [Invalidate, ProgressCompleted, Invalidate, ProgressCompleted, Invalidate];
    ok := bar.SetValue(100.5);
    assert !ok && bar.value == 100.0 && |bar.notices| == 5;
  }

  /** A client moving the bounds: lowering Maximum below the value clamps
      it through the Value setter (completion, then two redraws); a Minimum
      at Maximum is rejected. */
  method MaximumScenario() {
    var bar := new MSCircleProgressBar();
    var ok := bar.SetValue(80.0);
    ok := bar.SetMaximum(50);
    assert ok && bar.maximum == 50 && bar.value == 50.0;
    assert bar.notices[3..] == [ProgressCompleted, Invalidate, Invalidate];
    ok := bar.SetMinimum(50);
    assert !ok && bar.minimum == 0 && |bar.notices| == 6;
  }

  /** A client with a negative range: a negative value is announced as a
      change even when it is the current one; raising Minimum above the
      value announces a change. */
  method NegativeScenario() {
    var bar := new MSCircleProgressBar();
    var ok := bar.SetMinimum(-10);
    ok := bar.SetValue(-5.0);
    ok := bar.SetValue(-5.0);
    assert ok && bar.notices[|bar.notices| - 2..] == [ProgressChanged, Invalidate];
    ok := bar.SetMinimum(10);
    assert ok && bar.value == 10.0;
    assert bar.notices[|bar.notices| - 3..] == [ProgressChanged, Invalidate, Invalidate];
  }

  /** A client resizing: the width decides, floored at 100. */
  method ResizeScenario() {
    var bar := new MSCircleProgressBar();
    bar.Resize(40, 300);
    assert bar.width == 100 && bar.height == 100;
    bar.Resize(250, 30);
    assert bar.width == 250 && bar.height == 250 && bar.Valid();
  }
}
