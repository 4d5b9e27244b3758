/** The rules of the circular progress bar, stated on values: the range
    (Minimum, Maximum, Value) with the notices each property assignment
    produces, and the square-size rule applied on every resize.

    The C# `float` of Value is modelled as a `real`; Minimum and Maximum are
    the control's `int` fields (no arithmetic is done on them, so their width
    does not matter). */
module CircleProgress {

  datatype Option<+T> = None | Some(get: T)

  /** What one property assignment makes the control announce, in order:
      its two events and its requests for a redraw (`Invalidate()`). */
  datatype Notice = ProgressCompleted | ProgressChanged | Invalidate

  /** The three fields `_minimum`, `_maximum` and `_value`. */
  datatype RangeState = RangeState(minimum: int, maximum: int, value: real)

  /** An accepted assignment: the new range and what it announced. */
  datatype Outcome = Outcome(state: RangeState, notices: seq<Notice>)

  /** The control's invariant: a non-empty range holding the value. */
  predicate Valid(s: RangeState) {
    s.minimum < s.maximum && s.minimum as real <= s.value <= s.maximum as real
  }

  /** The field initialisers: Minimum 0, Maximum 100, Value 0. */
  function Initial(): (s: RangeState)
    ensures Valid(s)
    ensures s.value == s.minimum as real
  {
    RangeState(0, 100, 0.0)
  }

  /** Reference description of what an accepted `Value = v` announces:
      ProgressCompleted when v lands on Maximum (even if it was there
      already) and then no ProgressChanged; otherwise ProgressChanged when
      v is negative or differs from the previous value; always one redraw. */
  function ValueNotices(previous: real, v: real, maximum: int): seq<Notice> {
    (if v == maximum as real then [ProgressCompleted]
     else if v < 0.0 || v != previous then [ProgressChanged]
     else [])
    + [Invalidate]
  }

  /** The `Value` setter as written: reject outside [Minimum, Maximum];
      at or above Maximum store Maximum and fire ProgressCompleted; below 0
      store 0; then store v and fire ProgressChanged only if v differs from
      what is stored at that point. Whatever the path, the value ends as v. */
  function AssignValue(s: RangeState, v: real): (r: Option<Outcome>)
    ensures r.Some? <==> s.minimum as real <= v <= s.maximum as real
    ensures r.Some? ==> r.get.state == s.(value := v)
    ensures r.Some? ==> r.get.notices == ValueNotices(s.value, v, s.maximum)
    ensures r.Some? && s.minimum < s.maximum ==> Valid(r.get.state)
  {
    if v < s.minimum as real || v > s.maximum as real then None
    else
      var (stored, fired) :=
        if v >= s.maximum as real then (s.maximum as real, [ProgressCompleted])
        else if v < 0.0 then (0.0, [])
        else (s.value, []);
      var changed := v != stored;
      Some(Outcome(s.(value := if changed then v else stored),
                   fired + (if changed then [ProgressChanged] else []) + [Invalidate]))
  }

  /** The `Maximum` setter: reject m <= Minimum; store m; if the value now
      exceeds it, assign Value = m through the Value setter; redraw. */
  function AssignMaximum(s: RangeState, m: int): (r: Option<Outcome>)
    ensures r.Some? <==> m > s.minimum
    ensures r.Some? ==> r.get.state.minimum == s.minimum && r.get.state.maximum == m
    ensures r.Some? ==> r.get.state.value == if s.value > m as real then m as real else s.value
    ensures r.Some? ==> (r.get.notices ==
      (if s.value > m as real then [ProgressCompleted, Invalidate] else []) + [Invalidate])
    ensures r.Some? && Valid(s) ==> Valid(r.get.state)
  {
    if m <= s.minimum then None
    else
      var moved := s.(maximum := m);
      if moved.value > m as real then
        var clamped := AssignValue(moved, m as real).get;
        Some(Outcome(clamped.state, clamped.notices + [Invalidate]))
      else
        Some(Outcome(moved, [Invalidate]))
  }

  /** The `Minimum` setter: reject n >= Maximum; store n; if the value is
      now below it, assign Value = n through the Value setter; redraw. */
  function AssignMinimum(s: RangeState, n: int): (r: Option<Outcome>)
    ensures r.Some? <==> n < s.maximum
    ensures r.Some? ==> r.get.state.minimum == n && r.get.state.maximum == s.maximum
    ensures r.Some? ==> r.get.state.value == if s.value < n as real then n as real else s.value
    ensures r.Some? ==> (r.get.notices ==
      (if s.value < n as real then [ProgressChanged, Invalidate] else []) + [Invalidate])
    ensures r.Some? && Valid(s) ==> Valid(r.get.state)
  {
    if n >= s.maximum then None
    else
      var moved := s.(minimum := n);
      if moved.value < n as real then
        var clamped := AssignValue(moved, n as real).get;
        Some(Outcome(clamped.state, clamped.notices + [Invalidate]))
      else
        Some(Outcome(moved, [Invalidate]))
  }

  /** One assignment to one of the three range properties. */
  datatype Assignment = MinimumTo(n: int) | MaximumTo(m: int) | ValueTo(v: real)

  function Assign(s: RangeState, a: Assignment): (r: Option<Outcome>)
    ensures r.Some? && Valid(s) ==> Valid(r.get.state)
    ensures r.Some? ==> |r.get.notices| > 0 && r.get.notices[|r.get.notices| - 1] == Invalidate
  {
    match a
    case MinimumTo(n) => AssignMinimum(s, n)
    case MaximumTo(m) => AssignMaximum(s, m)
    case ValueTo(v) => AssignValue(s, v)
  }

  /** The range after an assignment: the new one, or the old one when the
      setter threw. */
  function StateAfter(s: RangeState, r: Option<Outcome>): RangeState {
    if r.Some? then r.get.state else s
  }

  /** What an assignment announced: nothing when the setter threw. */
  function NoticesOf(r: Option<Outcome>): seq<Notice> {
    if r.Some? then r.get.notices else []
  }

  /** A host program making the assignments of `script` one after another,
      catching every rejection. From a valid range, every state it reaches
      is valid: no sequence of assignments breaks Minimum < Maximum or
      Minimum <= Value <= Maximum. And every event is followed by a redraw
      request: a trace that is not empty ends with Invalidate. */
  function Run(s: RangeState, script: seq<Assignment>): (r: Outcome)
    requires Valid(s)
    ensures Valid(r.state)
    ensures |r.notices| > 0 ==> r.notices[|r.notices| - 1] == Invalidate
    decreases |script|
  {
    if script == [] then Outcome(s, [])
    else
      var first := Assign(s, script[0]);
      var rest := Run(StateAfter(s, first), script[1..]);
      Outcome(rest.state, NoticesOf(first) + rest.notices)
  }

  /** The control's width and height in pixels. */
  datatype Size = Size(width: int, height: int)

  /** The smallest side `OnResize` allows. */
  const MinimumSide: int := 100

  /** The size `OnResize` leaves after the host asked for `requested`: the
      height is floored at 100, then the width, then the height is
      overwritten by the width. So the result is square, at least 100 on a
      side, keeps a wide enough requested width, ignores the requested
      height, and leaves an already valid square alone. */
  function Resized(requested: Size): (r: Size)
    ensures r.width == r.height >= MinimumSide
    ensures requested.width >= MinimumSide ==> r.width == requested.width
    ensures requested.width < MinimumSide ==> r.width == MinimumSide
    ensures requested.width == requested.height >= MinimumSide ==> r == requested
  {
    var width := if requested.width < MinimumSide then MinimumSide else requested.width;
    Size(width, width)
  }
}
