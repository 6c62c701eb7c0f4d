/** The slider widget: a horizontal bar whose handle selects one value from an
    inclusive range. The widget value is rebuilt every frame; its drag `State`
    is owned by the application and handed to `OnEvent`, which returns the
    updated state together with the message queue. */
module SliderWidget {
  import opened Basics
  import opened Geometry
  import opened Layouts
  import opened Events

  /** Rust's `u32`. */
  type U32 = n: nat | n < 0x1_0000_0000

  /** `RangeInclusive<f32>`: `start..=end`. */
  datatype Range = Range(start: real, end: real)

  /** An application message, opaque to the slider. */
  datatype AppMessage = AppMessage(id: nat)

  /** A message the slider produces. `Change(v)` stands for `on_change(v)`;
      `Release(m)` carries the configured release message `m`. */
  datatype Message = Change(value: real) | Release(message: AppMessage)

  /** The configuration of one slider (style tokens and the `on_change`
      closure are not represented; the closure is the `Change` constructor). */
  datatype Slider = Slider(range: Range, value: real, onRelease: Option<AppMessage>, width: Length)

  /** `State`: whether the handle is being dragged. */
  datatype State = State(isDragging: bool)

  /** `Slider::new`: the value is raised to `start`, then lowered to `end`. */
  function New(range: Range, value: real): (r: Slider)
    ensures r.range == range && r.onRelease == None && r.width == Fill
    ensures r.value <= range.end
    ensures range.start <= range.end ==> range.start <= r.value
    ensures range.start <= value <= range.end ==> r.value == value
    ensures value < range.start <= range.end ==> r.value == range.start
    ensures range.end < value ==> r.value == range.end
    ensures range.end < range.start ==> r.value == range.end
  {
    Slider(range, Min(Max(value, range.start), range.end), None, Fill)
  }

  /** `Slider::on_release`. */
  function OnRelease(s: Slider, message: AppMessage): (r: Slider)
    ensures r.onRelease == Some(message)
    ensures r.range == s.range && r.value == s.value && r.width == s.width
  {
    s.(onRelease := Some(message))
  }

  /** `Slider::width`. */
  function Width(s: Slider, width: Length): (r: Slider)
    ensures r.width == width
    ensures r.range == s.range && r.value == s.value && r.onRelease == s.onRelease
  {
    s.(width := width)
  }

  /** `State::new` / `State::default`. */
  function NewState(): (r: State)
    ensures !r.isDragging
  {
    State(false)
  }

  /** Fraction of the bar left of `x`, for a cursor strictly inside the bar. */
  function Percent(bounds: Rectangle, x: real): (r: real)
    requires bounds.x < x < bounds.x + bounds.width
    ensures 0.0 < r < 1.0
  {
    QuotientAgainstOne(x - bounds.x, bounds.width);
    (x - bounds.x) / bounds.width
  }

  /** How `a / w` compares with 0 and 1 for a positive `w`. */
  lemma QuotientAgainstOne(a: real, w: real)
    requires 0.0 < w
    ensures a / w * w == a
    ensures 0.0 < a <==> 0.0 < a / w
    ensures a < w <==> a / w < 1.0
  {
    var t := a / w;
    assert t * w == a;
    if t <= 0.0 { assert t * w <= 0.0 * w; }
    if t > 0.0 { assert t * w > 0.0 * w; }
    if t < 1.0 { assert t * w < 1.0 * w; }
    if t >= 1.0 { assert t * w >= 1.0 * w; }
  }

  /** The `change` closure: the value selected by a cursor at horizontal
      position `x` over a slider drawn in `bounds`. */
  function ChangeValue(range: Range, bounds: Rectangle, x: real): (r: real)
    ensures x <= bounds.x ==> r == range.start
    ensures bounds.x < x && bounds.x + bounds.width <= x ==> r == range.end
    ensures range.start <= range.end ==> range.start <= r <= range.end
    ensures range.end <= range.start ==> range.end <= r <= range.start
  {
    if x <= bounds.x then range.start
    else if x >= bounds.x + bounds.width then range.end
    else
      var percent := Percent(bounds, x);
      ProductBetween(range.end - range.start, percent);
      (range.end - range.start) * percent + range.start
  }

  /** `d * p` lies between 0 and `d` for a fraction `p`. */
  lemma ProductBetween(d: real, p: real)
    requires 0.0 <= p <= 1.0
    ensures 0.0 <= d ==> 0.0 <= d * p <= d
    ensures d <= 0.0 ==> d <= d * p <= 0.0
  {
    if 0.0 <= d {
      assert d * p <= d * 1.0;
    } else {
      assert d * 1.0 <= d * p;
    }
  }

  /** `d * p` grows with `p` for a non-negative `d`. */
  lemma ProductMonotonic(d: real, p: real, q: real)
    requires 0.0 <= d && p <= q
    ensures d * p <= d * q
  {
    assert d * q - d * p == d * (q - p);
  }

  /** Linear interpolation across the range at fraction `t`. */
  function Lerp(range: Range, t: real): real
  {
    range.start + (range.end - range.start) * t
  }

  /** `t` clamped into `[0, 1]`. */
  function Clamp01(t: real): (r: real)
    ensures 0.0 <= r <= 1.0
  {
    if t <= 0.0 then 0.0 else if t >= 1.0 then 1.0 else t
  }

  /** For a bar of positive width, the `change` closure is the interpolation of
      the range at the cursor's clamped fraction along the bar. */
  lemma ChangeIsClampedLerp(range: Range, bounds: Rectangle, x: real)
    requires 0.0 < bounds.width
    ensures ChangeValue(range, bounds, x) == Lerp(range, Clamp01((x - bounds.x) / bounds.width))
  {
    QuotientAgainstOne(x - bounds.x, bounds.width);
  }

  /** For a bar of zero or negative width the value jumps from `start` straight to `end`. */
  lemma ChangeOnDegenerateBar(range: Range, bounds: Rectangle, x: real)
    requires bounds.width <= 0.0
    ensures ChangeValue(range, bounds, x) == (if x <= bounds.x then range.start else range.end)
  {
  }

  /** The selected value never decreases as the cursor moves right (ordered range). */
  lemma ChangeMonotonic(range: Range, bounds: Rectangle, x1: real, x2: real)
    requires range.start <= range.end
    requires x1 <= x2
    ensures ChangeValue(range, bounds, x1) <= ChangeValue(range, bounds, x2)
  {
    if x1 <= bounds.x || (bounds.x < x2 && bounds.x + bounds.width <= x2) {
    } else {
      assert bounds.x < x1 <= x2 < bounds.x + bounds.width;
      var d := range.end - range.start;
      var p1 := Percent(bounds, x1);
      var p2 := Percent(bounds, x2);
      assert ChangeValue(range, bounds, x1) == d * p1 + range.start;
      assert ChangeValue(range, bounds, x2) == d * p2 + range.start;
      QuotientOrdered(x1 - bounds.x, x2 - bounds.x, bounds.width);
      ProductMonotonic(d, p1, p2);
    }
  }

  /** Division by a positive number keeps order. */
  lemma QuotientOrdered(a: real, b: real, w: real)
    requires 0.0 < w && a <= b
    ensures a / w <= b / w
  {
    assert b / w - a / w == (b - a) / w;
    QuotientAgainstOne(b - a, w);
  }

  /** The slider's share of the left-button, cursor-move events; everything
      else passes through. */
  predicate Handled(event: Event)
  {
    || event == Mouse(ButtonPressed(Left))
    || event == Mouse(ButtonReleased(Left))
    || (event.Mouse? && event.mouse.CursorMoved?)
  }

  /** The drag state after an event, with the message queue after it. */
  datatype Step = Step(state: State, messages: seq<Message>)

  /** `Widget::on_event`: `bounds` is the slider's layout bounds, `contains` is
      `Rectangle::contains`, `messages` the queue before the event. */
  function OnEvent(s: Slider, state: State, event: Event, bounds: Rectangle, cursor: Point,
                   contains: (Rectangle, Point) -> bool, messages: seq<Message>): (r: Step)
    // the queue only grows at its end, by at most one message
    ensures messages <= r.messages && |r.messages| <= |messages| + 1
    ensures event == Mouse(ButtonPressed(Left)) && contains(bounds, cursor) ==>
      r == Step(State(true), messages + [Change(ChangeValue(s.range, bounds, cursor.x))])
    ensures event == Mouse(ButtonPressed(Left)) && !contains(bounds, cursor) ==>
      r == Step(state, messages)
    ensures event == Mouse(ButtonReleased(Left)) && state.isDragging ==>
      && r.state == State(false)
      && r.messages == messages + (if s.onRelease.Some? then [Release(s.onRelease.value)] else [])
    ensures event == Mouse(ButtonReleased(Left)) && !state.isDragging ==>
      r == Step(state, messages)
    ensures event.Mouse? && event.mouse.CursorMoved? ==>
      && r.state == state
      && r.messages == messages + (if state.isDragging then [Change(ChangeValue(s.range, bounds, cursor.x))] else [])
    ensures !Handled(event) ==> r == Step(state, messages)
  {
    var change := Change(ChangeValue(s.range, bounds, cursor.x));
    match event
    case Mouse(mouseEvent) =>
      (match mouseEvent
       case ButtonPressed(Left) =>
         if contains(bounds, cursor) then Step(State(true), messages + [change])
         else Step(state, messages)
       case ButtonReleased(Left) =>
         if state.isDragging then
           var released := if s.onRelease.Some? then messages + [Release(s.onRelease.value)] else messages;
           Step(State(false), released)
         else Step(state, messages)
       case CursorMoved(_, _) =>
         if state.isDragging then Step(state, messages + [change]) else Step(state, messages)
       case _ => Step(state, messages))
    case _ => Step(state, messages)
  }

  /** One input: an event and the cursor position when it arrives. */
  datatype Input = Input(event: Event, cursor: Point)

  /** Dispatches `inputs` in order against a slider laid out in `bounds`. */
  function Run(s: Slider, state: State, inputs: seq<Input>, bounds: Rectangle,
               contains: (Rectangle, Point) -> bool, messages: seq<Message>): (r: Step)
    ensures messages <= r.messages
    ensures |r.messages| <= |messages| + |inputs|
    decreases |inputs|
  {
    if |inputs| == 0 then Step(state, messages)
    else
      var next := OnEvent(s, state, inputs[0].event, bounds, inputs[0].cursor, contains, messages);
      Run(s, next.state, inputs[1..], bounds, contains, next.messages)
  }

  /** Number of `Change` messages in a queue. */
  function Changes(q: seq<Message>): nat
  {
    if |q| == 0 then 0
    else Changes(q[..|q| - 1]) + (if q[|q| - 1].Change? then 1 else 0)
  }

  /** Number of `Release` messages in a queue. */
  function Releases(q: seq<Message>): nat
  {
    if |q| == 0 then 0
    else Releases(q[..|q| - 1]) + (if q[|q| - 1].Release? then 1 else 0)
  }

  /** Changes not yet answered by a release: every gesture in progress must
      already have produced its `Change`. */
  function Credit(st: Step): int
  {
    Changes(st.messages) - Releases(st.messages) - (if st.state.isDragging then 1 else 0)
  }

  lemma CountsOfAppend(q: seq<Message>, m: Message)
    ensures Changes(q + [m]) == Changes(q) + (if m.Change? then 1 else 0)
    ensures Releases(q + [m]) == Releases(q) + (if m.Release? then 1 else 0)
  {
    assert (q + [m])[..|q + [m]| - 1] == q;
  }

  /** No event lets releases outrun the changes that started their gestures. */
  lemma OnEventKeepsCredit(s: Slider, state: State, event: Event, bounds: Rectangle,
                           cursor: Point, contains: (Rectangle, Point) -> bool,
                           messages: seq<Message>)
    ensures Credit(OnEvent(s, state, event, bounds, cursor, contains, messages)) >= Credit(Step(state, messages))
  {
    var r := OnEvent(s, state, event, bounds, cursor, contains, messages);
    if r.messages != messages {
      assert r.messages == messages + [r.messages[|messages|]];
      CountsOfAppend(messages, r.messages[|messages|]);
    }
  }

  lemma {:induction false} RunKeepsCredit(s: Slider, state: State, inputs: seq<Input>, bounds: Rectangle,
                                          contains: (Rectangle, Point) -> bool, messages: seq<Message>)
    ensures Credit(Run(s, state, inputs, bounds, contains, messages)) >= Credit(Step(state, messages))
    decreases |inputs|
  {
    if |inputs| > 0 {
      var next := OnEvent(s, state, inputs[0].event, bounds, inputs[0].cursor, contains, messages);
      OnEventKeepsCredit(s, state, inputs[0].event, bounds, inputs[0].cursor, contains, messages);
      RunKeepsCredit(s, next.state, inputs[1..], bounds, contains, next.messages);
    }
  }

  /** From a fresh state and an empty queue, there are never more `Release`
      messages than `Change` messages, and strictly fewer while a drag is in
      progress. */
  lemma FreshRunReleasesFollowChanges(s: Slider, inputs: seq<Input>, bounds: Rectangle,
                                      contains: (Rectangle, Point) -> bool)
    ensures var r := Run(s, NewState(), inputs, bounds, contains, []);
      && Releases(r.messages) <= Changes(r.messages)
      && (r.state.isDragging ==> Releases(r.messages) < Changes(r.messages))
  {
    RunKeepsCredit(s, NewState(), inputs, bounds, contains, []);
  }

  /** A press-drag-release gesture on `0..=100` over a 200-wide bar: press at
      x = 50 selects 25, moving to x = 100 selects 50, release emits the
      release message once and ends the drag. */
  lemma GestureExample(m: AppMessage, y: real, contains: (Rectangle, Point) -> bool)
    requires contains(Rectangle(0.0, 0.0, 200.0, 20.0), Point(50.0, y))
    ensures var s := OnRelease(New(Range(0.0, 100.0), 0.0), m);
      Run(s, NewState(),
          [Input(Mouse(ButtonPressed(Left)), Point(50.0, y)),
           Input(Mouse(CursorMoved(100.0, y)), Point(100.0, y)),
           Input(Mouse(ButtonReleased(Left)), Point(100.0, y))],
          Rectangle(0.0, 0.0, 200.0, 20.0), contains, [])
      == Step(State(false), [Change(25.0), Change(50.0), Release(m)])
  {
    var s := OnRelease(New(Range(0.0, 100.0), 0.0), m);
    var bounds := Rectangle(0.0, 0.0, 200.0, 20.0);
    var inputs := [Input(Mouse(ButtonPressed(Left)), Point(50.0, y)),
                   Input(Mouse(CursorMoved(100.0, y)), Point(100.0, y)),
                   Input(Mouse(ButtonReleased(Left)), Point(100.0, y))];
    assert ChangeValue(s.range, bounds, 50.0) == 25.0;
    assert ChangeValue(s.range, bounds, 100.0) == 50.0;
    var s1 := OnEvent(s, NewState(), inputs[0].event, bounds, inputs[0].cursor, contains, []);
    assert s1 == Step(State(true), [Change(25.0)]);
    var s2 := OnEvent(s, s1.state, inputs[1].event, bounds, inputs[1].cursor, contains, s1.messages);
    assert s2 == Step(State(true), [Change(25.0), Change(50.0)]);
    var s3 := OnEvent(s, s2.state, inputs[2].event, bounds, inputs[2].cursor, contains, s2.messages);
    assert s3 == Step(State(false), [Change(25.0), Change(50.0), Release(m)]);
    assert inputs[1..][1..][1..] == [];
    assert Run(s, s2.state, inputs[1..][1..], bounds, contains, s2.messages) == s3;
    assert Run(s, s1.state, inputs[1..], bounds, contains, s1.messages) == s3;
    assert Run(s, NewState(), inputs, bounds, contains, []) == s3;
  }

  /** `renderer.height() as u16`: Rust keeps the low 16 bits. */
  function Truncate16(h: U32): (r: U16)
    ensures h < 0x1_0000 ==> r == h
  {
    h % 0x1_0000
  }

  /** `Widget::layout`: a leaf whose size the limits solver `resolve` picks for
      width policy `s.width`, a fixed height of the renderer's slider height,
      and a zero intrinsic size. */
  function Layout(s: Slider, rendererHeight: U32, limits: Limits,
                  resolve: (Limits, Length, Length) -> Size): (r: Node)
    ensures r.children == [] && r.position == Origin
    ensures r.size == resolve(limits, s.width, Units(Truncate16(rendererHeight)))
  {
    NodeWith(resolve(limits, s.width, Units(Truncate16(rendererHeight))), [])
  }

  /** A solver that honours a `Units(u)` height request lying within the
      height limits. */
  ghost predicate HonoursUnitsHeight(resolve: (Limits, Length, Length) -> Size)
  {
    forall l: Limits, w: Length, u: U16 {:trigger resolve(l, w, Units(u))} ::
      l.min.height <= u as real <= l.max.height ==> resolve(l, w, Units(u)).height == u as real
  }

  /** Under such a solver, a renderer height that fits in 16 bits and in the
      limits is the slider's laid-out height. */
  lemma LayoutHeightIsRendererHeight(s: Slider, rendererHeight: U32, limits: Limits,
                                     resolve: (Limits, Length, Length) -> Size)
    requires HonoursUnitsHeight(resolve)
    requires rendererHeight < 0x1_0000
    requires limits.min.height <= rendererHeight as real <= limits.max.height
    ensures Layout(s, rendererHeight, limits, resolve).size.height == rendererHeight as real
  {
  }

  /** Widget kinds whose marker type starts a layout hash. */
  datatype WidgetKind = SliderKind

  /** What a widget feeds into the layout `Hasher`. */
  datatype HashItem = KindMarker(kind: WidgetKind) | LengthItem(length: Length)

  /** `Widget::hash_layout`: the slider's marker type, then its width policy. */
  function HashLayout(s: Slider): (r: seq<HashItem>)
    ensures |r| > 0 && r[0] == KindMarker(SliderKind)
    ensures forall i :: 0 < i < |r| ==> r[i] == LengthItem(s.width)
    ensures LengthItem(s.width) in r
  {
    [KindMarker(SliderKind), LengthItem(s.width)]
  }

  /** Two sliders hash alike exactly when their width policies agree: value,
      range and release message do not enter the hash. */
  lemma HashOnlyWidth(a: Slider, b: Slider)
    ensures HashLayout(a) == HashLayout(b) <==> a.width == b.width
  {
    if HashLayout(a) == HashLayout(b) {
      assert HashLayout(a)[1] == HashLayout(b)[1];
    }
  }

  /** Equal layout hashes guarantee equal layouts for the same renderer and limits. */
  lemma SameHashSameLayout(a: Slider, b: Slider, rendererHeight: U32, limits: Limits,
                           resolve: (Limits, Length, Length) -> Size)
    requires HashLayout(a) == HashLayout(b)
    ensures Layout(a, rendererHeight, limits, resolve) == Layout(b, rendererHeight, limits, resolve)
  {
    HashOnlyWidth(a, b);
  }
}
