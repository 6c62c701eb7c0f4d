# Slider and pane-grid title bar of the iced native toolkit, in Dafny

This project models two widgets of iced's `native` crate as pure functions over
points, sizes, rectangles, layout trees and a boolean drag state, and proves
what their layout, hit testing, event handling and drawing promise.

- **Slider** (`SliderWidget`): construction clamps the value into the inclusive
  range; the `change` closure maps a cursor's x coordinate to a value (start at or
  left of the bar, end at or right of it, linear in between); `on_event` is a
  three-transition drag machine over `State { is_dragging }` that appends at most
  one message per event; `layout` yields a childless node; `hash_layout` feeds
  the widget's marker and its width policy only.
- **Title bar** (`TitleBarWidget`): `layout` builds an outer padded box holding one
  content node, which, when controls are present, holds the title and the
  right-aligned controls; `is_over_draggable`, `draw` and `on_event` walk that
  tree with `unwrap()`, modelled as the `Panic` outcome.

`f32` is modelled as `real`, so clamping and interpolation are exact. A message is
`Change(v)` (the `on_change` closure applied to `v`) or `Release(m)` (the
configured release message). The slider's `State` is owned by the caller: it is
passed to `OnEvent` and returned updated, with the message queue.

Supporting modules: `Basics` (option and unwrap outcome), `Geometry` (points,
sizes, rectangles, `Size::pad` adding twice the padding), `Layouts` (`Length`,
`Limits` with `pad` shrinking every bound by twice the padding and clamping at
zero, `Node`, and `Layout`, the node seen with its absolute position, whose
children are placed relative to it), `Events` (mouse, keyboard and window
events). The layout, limits, size and rectangle files of the toolkit are not part
of this model; those definitions follow their documented behaviour.

Parameters stand for code outside the two widgets:
- `contains: (Rectangle, Point) -> bool` is `Rectangle::contains`;
- `measure: (Element, Limits) -> Node` is a child element's `layout` under the renderer;
- `resolve: (Limits, Length, Length) -> Size` is the slider's
  `limits.width(w).height(h).resolve(Size::ZERO)`;
- `rendererHeight` is the renderer's `height()` (a `u32`).

## Model

| member | source | states |
|---|---|---|
| SliderWidget.New | native/src/widget/slider.rs:61-79 | the value is raised to `start` then lowered to `end`: it is always at most `end`, within `[start, end]` for an ordered range, unchanged when already inside, `start`/`end` when below/above, and exactly `end` for an inverted range; no release message, width `Fill` |
| SliderWidget.OnRelease | native/src/widget/slider.rs:89-92 | sets the release message and leaves range, value and width alone |
| SliderWidget.Width | native/src/widget/slider.rs:97-100 | sets the width policy and leaves range, value and release message alone |
| SliderWidget.NewState | native/src/widget/slider.rs:114-125 | a fresh state is not dragging |
| SliderWidget.ChangeValue | native/src/widget/slider.rs:165-179 | the mapped value is `start` at or left of the bar's left edge, `end` at or right of its right edge, and lies between `start` and `end` (in either order of the two) |
| SliderWidget.ChangeIsClampedLerp | native/src/widget/slider.rs:165-179 | for a bar of positive width the mapped value equals the interpolation of the range at the cursor's fraction along the bar clamped into `[0, 1]` |
| SliderWidget.ChangeOnDegenerateBar | native/src/widget/slider.rs:168-171 | for a bar of zero or negative width the value is `start` up to the left edge and `end` beyond it, never a division |
| SliderWidget.ChangeMonotonic | native/src/widget/slider.rs:165-179 | for an ordered range the mapped value never decreases as the cursor moves right |
| SliderWidget.OnEvent | native/src/widget/slider.rs:156-206 | left press inside the bounds appends exactly one `Change` and starts dragging; outside it changes nothing; left release while dragging appends the release message iff configured and stops dragging; release while idle changes nothing; a move appends one `Change` iff dragging and never alters the flag; other events change nothing; the queue only grows at its end, by at most one |
| SliderWidget.Run | native/src/widget/slider.rs:181-205 | dispatching a sequence of inputs only appends to the queue, at most one message per input |
| SliderWidget.RunKeepsCredit | native/src/widget/slider.rs:183-201 | over any run, changes minus releases minus the dragging flag never decreases |
| SliderWidget.FreshRunReleasesFollowChanges | native/src/widget/slider.rs:183-201 | from a fresh state and empty queue, releases never outnumber changes, and are strictly fewer while a drag is in progress |
| SliderWidget.GestureExample | native/src/widget/slider.rs:165-201 | on `0..=100` over a 200-wide bar, press at x = 50, move to x = 100, release yields `Change(25)`, `Change(50)`, the release message, and ends the drag |
| SliderWidget.Truncate16 | native/src/widget/slider.rs:149 | the `as u16` cast of the renderer height keeps heights below 65536 unchanged |
| SliderWidget.Layout | native/src/widget/slider.rs:142-154 | the slider's node is a childless leaf at the origin whose height request is the renderer height cast to `u16` |
| SliderWidget.LayoutHeightIsRendererHeight | native/src/widget/slider.rs:147-151 | for a solver that honours a `Units` height within the limits, a renderer height below 65536 and within the limits is the slider's laid-out height |
| SliderWidget.HashLayout | native/src/widget/slider.rs:225-230 | feeds the slider's marker first, then only its width policy, to the hasher |
| SliderWidget.HashOnlyWidth | native/src/widget/slider.rs:225-230 | two sliders feed the hasher the same items iff their width policies are equal; value, range and release message do not enter (the hash value itself may still collide) |
| SliderWidget.SameHashSameLayout | native/src/widget/slider.rs:225-230 | equal layout hashes imply equal layouts for the same renderer height, limits and solver |
| TitleBarWidget.New | native/src/widget/pane_grid/title_bar.rs:17-24 | a new title bar has the given title, no controls and padding 0 |
| TitleBarWidget.WithControls | native/src/widget/pane_grid/title_bar.rs:26-32 | sets the controls, keeps title and padding |
| TitleBarWidget.WithPadding | native/src/widget/pane_grid/title_bar.rs:37-40 | sets the padding, keeps title and controls |
| TitleBarWidget.Layout | native/src/widget/pane_grid/title_bar.rs:118-159 | the outer node has exactly one child, which has exactly two children when there are controls and is the title's own layout under the padded limits when there are none; the outer size is the content size grown by the padding on both sides |
| TitleBarWidget.ControlsPlacement | native/src/widget/pane_grid/title_bar.rs:127-153 | with controls, the title is at `(padding, padding)`, the controls at `(max_width - controls_width + padding, padding)` with right edge at `padding + max_width`; title slot plus controls width is the content width; content is `max_width` wide and as tall as the taller child |
| TitleBarWidget.ChildrenInsideBar | native/src/widget/pane_grid/title_bar.rs:127-153 | when both children respect their limits, both lie inside the bar and the title ends no later than the controls begin |
| TitleBarWidget.IsOverDraggable | native/src/widget/pane_grid/title_bar.rs:95-116 | false outside the bar; with controls, true iff inside the bar and outside the controls child's bounds; without, true everywhere inside; it panics only inside the bar on a tree lacking the unwrapped children |
| TitleBarWidget.DraggableOnLayout | native/src/widget/pane_grid/title_bar.rs:100-145 | on the bar's own layout at any offset, the hit test never panics and is "inside the bar and not inside the controls' rectangle", computed from the layout arithmetic |
| TitleBarWidget.Draw | native/src/widget/pane_grid/title_bar.rs:55-93 | draws in the bar's bounds with the title and its layout; the controls are passed iff they exist and `show_controls` is set, with the controls child's layout; panics only on a tree lacking the unwrapped children |
| TitleBarWidget.ShowControlsOnlyGatesControls | native/src/widget/pane_grid/title_bar.rs:66-91 | the `show_controls` flag changes nothing in the draw call but the presence of the controls |
| TitleBarWidget.OnEvent | native/src/widget/pane_grid/title_bar.rs:161-187 | without controls nothing happens, whatever the layout; with controls the event, cursor and controls child's layout go to the controls element only; panics only when those children are missing |
| TitleBarWidget.LayoutNeverPanics | native/src/widget/pane_grid/title_bar.rs:150-158 | the layout the bar produces, placed anywhere, has the shape hit testing, drawing and event forwarding unwrap |
| TitleBarWidget.ControlsLayoutAgrees | native/src/widget/pane_grid/title_bar.rs:63-187 | the controls are drawn in, and receive events with, the same layout the hit test excludes |
| TitleBarWidget.TitleNotInsetWithoutControls | native/src/widget/pane_grid/title_bar.rs:154-158 | as written, without controls a title laid out at its own origin stays at the bar's corner although the bar grows by the padding on all sides |
| TitleBarWidget.LayoutInset | native/src/widget/pane_grid/title_bar.rs:143-158 | the corrected layout: identical with controls, same sizes and shape without, content moved to `(padding, padding)` |
| TitleBarWidget.TitleInsetByPadding | native/src/widget/pane_grid/title_bar.rs:143-158 | in the corrected layout the title starts `padding` in from the corner with or without controls, and without controls leaves `padding` on the far sides too |
| TitleBarWidget.LayoutInsetNeverPanics | native/src/widget/pane_grid/title_bar.rs:150-158 | the corrected layout keeps the shape the consumers unwrap |

## Findings

| source | as written | input that shows it | evidently intended | confidence | as-written member | corrected member |
|---|---|---|---|---|---|---|
| native/src/widget/pane_grid/title_bar.rs:154-158 | without controls the content node is the title's layout unmoved, while the outer box adds the padding on every side | padding 5, no controls, title laid out as 100×20 at its origin: the bar is 110×30 and the title sits at (0, 0), leaving 10 on the right and bottom and 0 on the left and top | the title inset by the padding, at (5, 5), as the controls branch places it | medium; not executed | TitleBarWidget.TitleNotInsetWithoutControls | TitleBarWidget.LayoutInset, TitleBarWidget.TitleInsetByPadding |

The hit test, drawing and event forwarding take a layout as input and are proved
to work on both `Layout` and `LayoutInset`; the two agree whenever there are
controls.

## Left out

- Rendering: `Renderer::draw`, `draw_title_bar` and the slider's `draw` are foreign calls; the title bar's draw is modelled as the call record `DrawTitleBar`, the slider's draw (a pass-through of bounds, cursor, range, value and the dragging flag) is not modelled.
- Style tokens, `Defaults`, `Clipboard` and the `style` builders: passed through unchanged, not represented.
- The limits solver: `Limits::width`, `height` and `resolve` are the parameter `resolve`; the `fill` bound of `Limits` is not represented.
- `Rectangle::contains` is the parameter `contains`; its inclusive-edge definition is not part of this model.
- Child elements are opaque: their layout is the parameter `measure`, and the messages the controls produce from a forwarded event are not modelled (the forwarded call is recorded instead).
- `TypeId` hashing and the `Hasher`: the hash is the sequence of items fed to it, a marker for the widget kind and the width policy.
- `Widget::width` / `Widget::height` accessors of the slider (returning the width policy and `Shrink`): not separate members.
- IEEE-754 rounding, infinities and NaN: coordinates and values are exact reals, so `f32::max`/`min` never see NaN.
- SliderWidget.Layout: states the node's shape and the requested height, not the size the solver picks, because the solver is a parameter; the resulting height is stated only under the solver assumption of `LayoutHeightIsRendererHeight`, and the width is not stated.
