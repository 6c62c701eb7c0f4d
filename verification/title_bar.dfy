/** The title bar of a pane-grid pane: a title element and optional controls
    element inside a padded box. The child elements are opaque; their layout is
    the parameter `measure`, and drawing and event forwarding are returned as
    the call the title bar makes. */
module TitleBarWidget {
  import opened Basics
  import opened Geometry
  import opened Layouts
  import opened Events

  /** An opaque child element. */
  datatype Element = Element(id: nat)

  /** `TitleBar` (the style token is not represented). */
  datatype TitleBar = TitleBar(title: Element, controls: Option<Element>, padding: U16)

  /** `TitleBar::new`. */
  function New(title: Element): (r: TitleBar)
    ensures r.title == title && r.controls == None && r.padding == 0
  {
    TitleBar(title, None, 0)
  }

  /** `TitleBar::controls`. */
  function WithControls(tb: TitleBar, controls: Element): (r: TitleBar)
    ensures r.controls == Some(controls)
    ensures r.title == tb.title && r.padding == tb.padding
  {
    tb.(controls := Some(controls))
  }

  /** `TitleBar::padding`. */
  function WithPadding(tb: TitleBar, units: U16): (r: TitleBar)
    ensures r.padding == units
    ensures r.title == tb.title && r.controls == tb.controls
  {
    tb.(padding := units)
  }

  /** The padding as a length (`f32::from(u16)`). */
  function Pad(tb: TitleBar): (r: real)
    ensures 0.0 <= r
  {
    tb.padding as real
  }

  // ----- layout ---------------------------------------------------------

  /** The space inside the padding. */
  function Inner(tb: TitleBar, limits: Limits): Limits
  {
    PadLimits(limits, Pad(tb))
  }

  /** The limits the controls are laid out under: anything up to the inner maximum. */
  function ControlsLimits(tb: TitleBar, limits: Limits): Limits
  {
    Limits(ZeroSize, Inner(tb, limits).max)
  }

  /** The width left for the title once the controls have taken theirs. */
  function SpaceBeforeControls(tb: TitleBar, limits: Limits, controlsSize: Size): real
  {
    Inner(tb, limits).max.width - controlsSize.width
  }

  /** The limits the title is laid out under when there are controls. */
  function TitleLimits(tb: TitleBar, limits: Limits, controlsSize: Size): Limits
  {
    Limits(ZeroSize, Size(SpaceBeforeControls(tb, limits, controlsSize), Inner(tb, limits).max.height))
  }

  /** `layout` of a title bar with controls `c`: the inner content node, holding
      the title then the controls side by side. */
  function ContentWithControls(tb: TitleBar, c: Element, limits: Limits,
                               measure: (Element, Limits) -> Node): Node
  {
    var p := Pad(tb);
    var maxSize := Inner(tb, limits).max;
    var controlsLayout := measure(c, ControlsLimits(tb, limits));
    var space := SpaceBeforeControls(tb, limits, controlsLayout.size);
    var titleLayout := measure(tb.title, TitleLimits(tb, limits, controlsLayout.size));
    var height := Max(titleLayout.size.height, controlsLayout.size.height);
    NodeWith(Size(maxSize.width, height),
             [MoveTo(titleLayout, Point(p, p)), MoveTo(controlsLayout, Point(space + p, p))])
  }

  /** `TitleBar::layout`: an outer padded box whose single child is the content
      node. With controls the content node holds the title and the controls;
      without, it is the title's own layout under the inner limits. */
  function Layout(tb: TitleBar, limits: Limits, measure: (Element, Limits) -> Node): (r: Node)
    ensures |r.children| == 1
    ensures tb.controls.Some? ==> |r.children[0].children| == 2
    ensures tb.controls.None? ==> r.children[0] == measure(tb.title, Inner(tb, limits))
    ensures r.position == Origin
    ensures r.size == PadSize(r.children[0].size, Pad(tb))
  {
    var node :=
      match tb.controls
      case Some(c) => ContentWithControls(tb, c, limits, measure)
      case None => measure(tb.title, Inner(tb, limits));
    NodeWith(PadSize(node.size, Pad(tb)), [node])
  }

  /** The controls sit right-aligned in the inner width with their right edge
      at `padding + max_width`; the title sits at `(padding, padding)` with the
      space before the controls as its maximum width, so that title slot plus
      controls fill the content width; the content is as wide as the inner
      maximum and as tall as the taller child; the outer box adds the padding
      on both sides of both axes. */
  lemma ControlsPlacement(tb: TitleBar, limits: Limits, measure: (Element, Limits) -> Node)
    requires tb.controls.Some?
    ensures
      var p := Pad(tb);
      var maxSize := Inner(tb, limits).max;
      var cl := measure(tb.controls.value, Limits(ZeroSize, maxSize));
      var space := maxSize.width - cl.size.width;
      var tl := measure(tb.title, Limits(ZeroSize, Size(space, maxSize.height)));
      var r := Layout(tb, limits, measure);
      var content := r.children[0];
      && content.position == Origin
      && content.children[0] == MoveTo(tl, Point(p, p))
      && content.children[1] == MoveTo(cl, Point(space + p, p))
      && content.children[1].position.x + content.children[1].size.width == p + maxSize.width
      && (content.children[1].position.x - p) + cl.size.width == content.size.width
      && content.size == Size(maxSize.width, Max(tl.size.height, cl.size.height))
      && r.size == Size(maxSize.width + 2.0 * p, Max(tl.size.height, cl.size.height) + 2.0 * p)
  {
  }

  /** When each child stays within the limits it was given, both children lie
      inside the bar, and the title ends where the controls begin or earlier. */
  lemma ChildrenInsideBar(tb: TitleBar, limits: Limits, measure: (Element, Limits) -> Node, offset: Point)
    requires tb.controls.Some?
    requires var cl := measure(tb.controls.value, ControlsLimits(tb, limits));
      && 0.0 <= cl.size.width <= Inner(tb, limits).max.width && 0.0 <= cl.size.height
      && var tl := measure(tb.title, TitleLimits(tb, limits, cl.size));
      0.0 <= tl.size.width <= SpaceBeforeControls(tb, limits, cl.size) && 0.0 <= tl.size.height
    ensures
      var bar := WithOffset(offset, Layout(tb, limits, measure));
      var content := Child(bar, 0);
      var title := Bounds(Child(content, 0));
      var controls := Bounds(Child(content, 1));
      && Within(title, Bounds(bar))
      && Within(controls, Bounds(bar))
      && title.x + title.width <= controls.x
  {
  }

  // ----- the tree shape the other operations rely on ---------------------

  /** The children the title bar `unwrap`s: the content node, and with
      controls, two children of it. */
  predicate HasShape(n: Node, withControls: bool)
  {
    |n.children| >= 1 && (withControls ==> |n.children[0].children| >= 2)
  }

  /** The controls child of a well-shaped layout. */
  function ControlsOf(l: Layout): Layout
    requires HasShape(l.node, true)
  {
    Child(Child(l, 0), 1)
  }

  /** The title child of a well-shaped layout. */
  function TitleOf(l: Layout, withControls: bool): Layout
    requires HasShape(l.node, withControls)
  {
    if withControls then Child(Child(l, 0), 0) else Child(l, 0)
  }

  // ----- hit testing -----------------------------------------------------

  /** `TitleBar::is_over_draggable`: whether a press at `cursor` may start
      dragging the pane. `contains` is `Rectangle::contains`. */
  function IsOverDraggable(tb: TitleBar, layout: Layout, cursor: Point,
                           contains: (Rectangle, Point) -> bool): (r: Unwrapped<bool>)
    ensures !contains(Bounds(layout), cursor) ==> r == Ok(false)
    ensures r == Ok(true) ==> contains(Bounds(layout), cursor)
    ensures r.Panic? <==> contains(Bounds(layout), cursor) && !HasShape(layout.node, tb.controls.Some?)
    ensures tb.controls.Some? && HasShape(layout.node, true) ==>
      r == Ok(contains(Bounds(layout), cursor) && !contains(Bounds(ControlsOf(layout)), cursor))
    ensures tb.controls.None? && HasShape(layout.node, false) ==>
      r == Ok(contains(Bounds(layout), cursor))
  {
    if contains(Bounds(layout), cursor) then
      if |layout.node.children| == 0 then Panic
      else
        var padded := Child(layout, 0);
        if tb.controls.Some? then
          if |padded.node.children| < 2 then Panic
          else
            var controlsLayout := Child(padded, 1);
            Ok(!contains(Bounds(controlsLayout), cursor))
        else Ok(true)
    else Ok(false)
  }

  /** On the title bar's own layout, placed anywhere, the hit test never panics
      and excludes exactly the controls' rectangle from the bar's rectangle. */
  lemma DraggableOnLayout(tb: TitleBar, limits: Limits, measure: (Element, Limits) -> Node,
                          offset: Point, cursor: Point, contains: (Rectangle, Point) -> bool)
    ensures
      var p := Pad(tb);
      var bar := Layout(tb, limits, measure);
      var outer := Rectangle(offset.x, offset.y, bar.size.width, bar.size.height);
      var r := IsOverDraggable(tb, WithOffset(offset, bar), cursor, contains);
      match tb.controls
      case None => r == Ok(contains(outer, cursor))
      case Some(c) =>
        var maxSize := Inner(tb, limits).max;
        var cs := measure(c, ControlsLimits(tb, limits)).size;
        var controls := Rectangle(offset.x + (maxSize.width - cs.width) + p, offset.y + p, cs.width, cs.height);
        r == Ok(contains(outer, cursor) && !contains(controls, cursor))
  {
    var bar := WithOffset(offset, Layout(tb, limits, measure));
    if tb.controls.Some? {
      ControlsPlacement(tb, limits, measure);
      assert Child(bar, 0).position == offset;
    }
  }

  // ----- drawing ---------------------------------------------------------

  /** A child element handed to the renderer with the layout to draw it in. */
  datatype Part = Part(element: Element, layout: Layout)

  /** The `draw_title_bar` call the title bar makes. */
  datatype DrawCall = DrawTitleBar(bounds: Rectangle, title: Part, controls: Option<Part>, cursor: Point)

  /** `TitleBar::draw`: the controls are passed only when they exist and the
      caller asks for them with `showControls`. */
  function Draw(tb: TitleBar, layout: Layout, cursor: Point, showControls: bool): (r: Unwrapped<DrawCall>)
    ensures r.Panic? <==> !HasShape(layout.node, tb.controls.Some?)
    ensures r.Ok? ==>
      && r.value.bounds == Bounds(layout)
      && r.value.cursor == cursor
      && r.value.title == Part(tb.title, TitleOf(layout, tb.controls.Some?))
      && (r.value.controls.Some? <==> tb.controls.Some? && showControls)
      && (r.value.controls.Some? ==> r.value.controls.value == Part(tb.controls.value, ControlsOf(layout)))
  {
    if |layout.node.children| == 0 then Panic
    else
      var padded := Child(layout, 0);
      match tb.controls
      case Some(controls) =>
        if |padded.node.children| < 2 then Panic
        else
          var titleLayout := Child(padded, 0);
          var controlsLayout := Child(padded, 1);
          Ok(DrawTitleBar(Bounds(layout), Part(tb.title, titleLayout),
                          if showControls then Some(Part(controls, controlsLayout)) else None,
                          cursor))
      case None =>
        Ok(DrawTitleBar(Bounds(layout), Part(tb.title, padded), None, cursor))
  }

  /** Hiding the controls changes nothing else about the draw call. */
  lemma ShowControlsOnlyGatesControls(tb: TitleBar, layout: Layout, cursor: Point)
    ensures var shown := Draw(tb, layout, cursor, true);
      var hidden := Draw(tb, layout, cursor, false);
      && shown.Ok? == hidden.Ok?
      && (hidden.Ok? ==> hidden.value.controls == None && shown.value == hidden.value.(controls := shown.value.controls))
  {
  }

  // ----- events ----------------------------------------------------------

  /** What `on_event` does with an event: nothing, or hand it to one child
      together with that child's layout. */
  datatype Forward = Ignored | Forwarded(target: Element, event: Event, layout: Layout, cursor: Point)

  /** `TitleBar::on_event`: events go to the controls only; the title never
      receives them, and without controls nothing happens and the layout is not
      inspected. */
  function OnEvent(tb: TitleBar, event: Event, layout: Layout, cursor: Point): (r: Unwrapped<Forward>)
    ensures tb.controls.None? ==> r == Ok(Ignored)
    ensures r.Panic? <==> tb.controls.Some? && !HasShape(layout.node, true)
    ensures r.Ok? && tb.controls.Some? ==>
      r.value == Forwarded(tb.controls.value, event, ControlsOf(layout), cursor)
  {
    match tb.controls
    case None => Ok(Ignored)
    case Some(controls) =>
      if |layout.node.children| == 0 then Panic
      else
        var padded := Child(layout, 0);
        if |padded.node.children| < 2 then Panic
        else Ok(Forwarded(controls, event, Child(padded, 1), cursor))
  }

  /** The layout the title bar produces has the shape all three consumers
      unwrap, wherever it is placed: none of them panics on it. */
  lemma LayoutNeverPanics(tb: TitleBar, limits: Limits, measure: (Element, Limits) -> Node, offset: Point,
                          cursor: Point, contains: (Rectangle, Point) -> bool, showControls: bool, event: Event)
    ensures var l := WithOffset(offset, Layout(tb, limits, measure));
      && IsOverDraggable(tb, l, cursor, contains).Ok?
      && Draw(tb, l, cursor, showControls).Ok?
      && OnEvent(tb, event, l, cursor).Ok?
  {
  }

  /** The drawn controls and the forwarded event use the very layout the hit
      test excludes from dragging. */
  lemma ControlsLayoutAgrees(tb: TitleBar, layout: Layout, cursor: Point, event: Event)
    requires tb.controls.Some? && HasShape(layout.node, true)
    ensures Draw(tb, layout, cursor, true).value.controls == Some(Part(tb.controls.value, ControlsOf(layout)))
    ensures OnEvent(tb, event, layout, cursor).value.layout == ControlsOf(layout)
  {
  }

  // ----- the padding of a title bar without controls -------------------

  /** Where the title node sits relative to the outer box. */
  function TitleOffset(n: Node, withControls: bool): Point
    requires HasShape(n, withControls)
  {
    var content := n.children[0];
    if withControls then
      Point(content.position.x + content.children[0].position.x, content.position.y + content.children[0].position.y)
    else content.position
  }

  /** As written, a title bar without controls does not move the title by the
      padding: a title laid out at its own origin stays at the bar's corner,
      though the bar is grown by the padding on every side. */
  lemma TitleNotInsetWithoutControls(tb: TitleBar, limits: Limits, measure: (Element, Limits) -> Node)
    requires tb.controls.None? && 0 < tb.padding
    requires measure(tb.title, Inner(tb, limits)).position == Origin
    ensures TitleOffset(Layout(tb, limits, measure), false) == Origin
    ensures Layout(tb, limits, measure).size.width
         == measure(tb.title, Inner(tb, limits)).size.width + 2.0 * Pad(tb)
  {
  }

  /** The layout with the content node moved to `(padding, padding)` when there
      are no controls, as it already is for the children when there are. */
  function LayoutInset(tb: TitleBar, limits: Limits, measure: (Element, Limits) -> Node): (r: Node)
    ensures tb.controls.Some? ==> r == Layout(tb, limits, measure)
    ensures r.size == Layout(tb, limits, measure).size
    ensures |r.children| == 1
    ensures tb.controls.Some? ==> |r.children[0].children| == 2
  {
    var node :=
      match tb.controls
      case Some(c) => ContentWithControls(tb, c, limits, measure)
      case None => MoveTo(measure(tb.title, Inner(tb, limits)), Point(Pad(tb), Pad(tb)));
    NodeWith(PadSize(node.size, Pad(tb)), [node])
  }

  /** In the inset layout the title starts `padding` in from the bar's corner
      whether or not there are controls, and without controls it leaves
      `padding` on the far side as well. */
  lemma TitleInsetByPadding(tb: TitleBar, limits: Limits, measure: (Element, Limits) -> Node)
    ensures var r := LayoutInset(tb, limits, measure);
      && TitleOffset(r, tb.controls.Some?) == Point(Pad(tb), Pad(tb))
      && (tb.controls.None? ==>
            && TitleOffset(r, false).x + r.children[0].size.width + Pad(tb) == r.size.width
            && TitleOffset(r, false).y + r.children[0].size.height + Pad(tb) == r.size.height)
  {
  }

  /** The inset layout keeps the shape the consumers unwrap. */
  lemma LayoutInsetNeverPanics(tb: TitleBar, limits: Limits, measure: (Element, Limits) -> Node, offset: Point,
                               cursor: Point, contains: (Rectangle, Point) -> bool, showControls: bool, event: Event)
    ensures var l := WithOffset(offset, LayoutInset(tb, limits, measure));
      && IsOverDraggable(tb, l, cursor, contains).Ok?
      && Draw(tb, l, cursor, showControls).Ok?
      && OnEvent(tb, event, l, cursor).Ok?
  {
  }
}
