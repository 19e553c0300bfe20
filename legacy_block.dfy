/** The older block mesh (src/meshes/Block.ts): a `width x 1 x depth` box geometry
    translated by `(width/2, 0, depth/2)`, whose `getSidePositions` reads its
    extents straight from the position and the geometry's parameters, without
    snapping and with the bottom face taken at the position's height. */
module LegacyBlocks {
  import opened Clamping
  import opened Blocks

  /** `Block.HEIGHT` of this variant. */
  const MESH_HEIGHT: real := 1.0

  /** The mesh: its position and the parameters its geometry was built with. */
  datatype MeshBlock = MeshBlock(position: Vec3, width: real, height: real, depth: real)

  /** The six faces `getSidePositions` returns. */
  datatype Sides = Sides(top: real, left: real, bottom: real, right: real, front: real, back: real)

  /** `new Block(width, depth)`: a mesh at the origin with height `MESH_HEIGHT`. */
  function NewMeshBlock(width: real, depth: real): (b: MeshBlock)
    ensures b.position == ORIGIN
    ensures b.height == MESH_HEIGHT
    ensures b.width == width && b.depth == depth
  {
    MeshBlock(ORIGIN, width, MESH_HEIGHT, depth)
  }

  /** `getSidePositions`. */
  function SidePositions(b: MeshBlock): Sides
  {
    var p := b.position;
    Sides(p.y + b.height, p.x, p.y, p.x + b.width, p.z + b.depth, p.z)
  }

  /** Where the translated geometry actually lies, as a bounding box in world
      coordinates. */
  function RenderedBox(b: MeshBlock): (box: Box)
    ensures box.left <= box.right && box.bottom <= box.top && box.back <= box.front
  {
    var p := b.position;
    var left := p.x + GeometryLow(b.width, b.width / 2.0);
    var right := p.x + GeometryHigh(b.width, b.width / 2.0);
    var bottom := p.y + GeometryLow(b.height, 0.0);
    var top := p.y + GeometryHigh(b.height, 0.0);
    var back := p.z + GeometryLow(b.depth, b.depth / 2.0);
    var front := p.z + GeometryHigh(b.depth, b.depth / 2.0);
    Box(top, left, bottom, right, front, back, right - left, top - bottom, front - back)
  }

  /** The side positions span exactly the constructor's width, height and depth,
      starting from the position. */
  lemma SidesSpan(b: MeshBlock)
    ensures SidePositions(b).left == b.position.x
    ensures SidePositions(b).back == b.position.z
    ensures SidePositions(b).bottom == b.position.y
    ensures SidePositions(b).right - SidePositions(b).left == b.width
    ensures SidePositions(b).front - SidePositions(b).back == b.depth
    ensures SidePositions(b).top - SidePositions(b).bottom == b.height
  {
  }

  /** For a mesh made by the constructor, the top is one unit above the bottom. */
  lemma NewMeshSpan(width: real, depth: real, p: Vec3)
    ensures var s := SidePositions(NewMeshBlock(width, depth).(position := p));
            s.bottom == p.y && s.top == p.y + MESH_HEIGHT
  {
  }

  /** For non-negative sizes the side positions agree with the rendered geometry
      horizontally, while vertically they sit half a height above it: the geometry
      is centred on the position, the sides start at it. */
  lemma {:induction false} SidesMatchRenderedBox(b: MeshBlock)
    requires b.width >= 0.0 && b.depth >= 0.0 && b.height >= 0.0
    ensures var s, box := SidePositions(b), RenderedBox(b);
            s.left == box.left && s.right == box.right
            && s.back == box.back && s.front == box.front
            && s.bottom == box.bottom + b.height / 2.0 && s.top == box.top + b.height / 2.0
  {
    var p := b.position;
    assert GeometryLow(b.width, b.width / 2.0) == 0.0;
    assert GeometryHigh(b.width, b.width / 2.0) == b.width;
    assert GeometryLow(b.depth, b.depth / 2.0) == 0.0;
    assert GeometryHigh(b.depth, b.depth / 2.0) == b.depth;
    assert GeometryLow(b.height, 0.0) == -b.height / 2.0;
    assert GeometryHigh(b.height, 0.0) == b.height / 2.0;
  }

  /** A negative width is not normalised: the right side then lies left of the
      left side, although the rendered geometry spans the same interval reversed. */
  lemma NegativeWidthInverted(b: MeshBlock)
    requires b.width < 0.0
    ensures SidePositions(b).right < SidePositions(b).left
    ensures RenderedBox(b).left == SidePositions(b).right
    ensures RenderedBox(b).right == SidePositions(b).left
  {
  }

  /** The same position and horizontal size under the current block
      (src/Block.ts) gives the same left, right, back and front. */
  lemma SidesMatchBoundingBox(b: MeshBlock)
    requires b.width >= 0.0 && b.depth >= 0.0
    ensures var s, box := SidePositions(b), BoundingBoxOf(BlockState(b.position, b.width, b.depth));
            s.left == box.left && s.right == box.right
            && s.back == box.back && s.front == box.front
  {
  }
}
