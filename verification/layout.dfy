/** The layout vocabulary the widgets consume: size policies, box limits, the
    layout tree and the positioned view of it that drawing and event handling
    walk. */
module Layouts {
  import opened Geometry

  /** Rust's `u16`. */
  type U16 = n: nat | n < 0x1_0000

  /** A size policy along one axis. */
  datatype Length = Fill | FillPortion(portion: U16) | Shrink | Units(units: U16)

  /** A min/max box constraint handed to a widget when it is asked for its size. */
  datatype Limits = Limits(min: Size, max: Size)

  /** Both axes of `l` are ordered, `min <= max`. */
  predicate Ordered(l: Limits)
  {
    l.min.width <= l.max.width && l.min.height <= l.max.height
  }

  /** `Limits::shrink`: removes `amount` from every bound, never going below zero. */
  function Shrink(l: Limits, amount: Size): (r: Limits)
    ensures 0.0 <= r.max.width && 0.0 <= r.max.height
    ensures Ordered(l) ==> Ordered(r)
  {
    Limits(
      Size(Max(l.min.width - amount.width, 0.0), Max(l.min.height - amount.height, 0.0)),
      Size(Max(l.max.width - amount.width, 0.0), Max(l.max.height - amount.height, 0.0)))
  }

  /** `Limits::pad`: the space left inside a padding of `padding` on every side. */
  function PadLimits(l: Limits, padding: real): (r: Limits)
    requires 0.0 <= padding
    ensures 0.0 <= r.max.width && 0.0 <= r.max.height
    ensures Ordered(l) ==> Ordered(r)
    ensures r.max.width <= Max(l.max.width, 0.0)
  {
    Shrink(l, Size(2.0 * padding, 2.0 * padding))
  }

  /** A layout node: a size, a position relative to the parent node and the
      children's nodes, in order. */
  datatype Node = Node(position: Point, size: Size, children: seq<Node>)

  /** `Node::new` / `Node::with_children`: a node at the parent's origin. */
  function NodeWith(size: Size, children: seq<Node>): Node
  {
    Node(Origin, size, children)
  }

  /** `Node::move_to`: sets the position, keeps size and children. */
  function MoveTo(n: Node, p: Point): (r: Node)
    ensures r.position == p && r.size == n.size && r.children == n.children
  {
    n.(position := p)
  }

  /** A node seen from the root: `position` is absolute. */
  datatype Layout = Layout(position: Point, node: Node)

  /** `Layout::with_offset`: places `node` relative to the absolute point `offset`. */
  function WithOffset(offset: Point, node: Node): Layout
  {
    Layout(Point(offset.x + node.position.x, offset.y + node.position.y), node)
  }

  /** `Layout::bounds`: the absolute rectangle the node covers. */
  function Bounds(l: Layout): Rectangle
  {
    Rectangle(l.position.x, l.position.y, l.node.size.width, l.node.size.height)
  }

  /** The `i`-th element of `Layout::children`. */
  function Child(l: Layout, i: nat): Layout
    requires i < |l.node.children|
  {
    WithOffset(l.position, l.node.children[i])
  }
}
