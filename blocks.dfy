/** A block of the stack (src/Block.ts): a box mesh whose position and
    width/depth are snapped to the FIX_VALUE grid whenever they are set, and whose
    geometry is a `width x HEIGHT x depth` box shifted by `(width/2, 0, depth/2)`,
    so that it spans `[0, width] x [-HEIGHT/2, HEIGHT/2] x [0, depth]` around its
    position. */
module Blocks {
  import opened Quantizer
  import opened Grid
  import opened Clamping

  const STARTING_WIDTH: real := 12.0
  const STARTING_DEPTH: real := 12.0
  const HEIGHT: real := 1.2

  datatype Vec3 = Vec3(x: real, y: real, z: real)

  const ORIGIN: Vec3 := Vec3(0.0, 0.0, 0.0)

  /** The record `getBoundingBox` returns. */
  datatype Box = Box(top: real, left: real, bottom: real, right: real, front: real,
                     back: real, width: real, height: real, depth: real)

  /** What the game reads of a block: its position and the width and depth its
      geometry was built with. */
  datatype BlockState = BlockState(position: Vec3, width: real, depth: real)

  /** The block `createStartingBlock` makes. */
  const STARTING_BLOCK: BlockState := BlockState(ORIGIN, STARTING_WIDTH, STARTING_DEPTH)

  /** Lower and upper end, along one axis, of a box geometry of the given size: its
      vertices sit at -size/2 and size/2, and `setSize` then shifts them by
      `shift` (size/2 for width and depth, 0 for the height). */
  function GeometryLow(size: real, shift: real): real
  {
    shift + Min(-size / 2.0, size / 2.0)
  }

  function GeometryHigh(size: real, shift: real): real
  {
    shift + Max(-size / 2.0, size / 2.0)
  }

  /** `getBoundingBox`: the geometry's bounding box moved by the position. */
  function BoundingBoxOf(b: BlockState): (box: Box)
    ensures b.width >= 0.0 ==> box.left == b.position.x && box.right == b.position.x + b.width
    ensures b.depth >= 0.0 ==> box.back == b.position.z && box.front == b.position.z + b.depth
    ensures box.bottom == b.position.y - HEIGHT / 2.0 && box.top == b.position.y + HEIGHT / 2.0
    ensures box.left <= box.right && box.back <= box.front
    ensures box.width == box.right - box.left == (if b.width >= 0.0 then b.width else -b.width)
    ensures box.depth == box.front - box.back == (if b.depth >= 0.0 then b.depth else -b.depth)
    ensures box.height == box.top - box.bottom == HEIGHT
  {
    var p := b.position;
    var left := p.x + GeometryLow(b.width, b.width / 2.0);
    var right := p.x + GeometryHigh(b.width, b.width / 2.0);
    var bottom := p.y + GeometryLow(HEIGHT, 0.0);
    var top := p.y + GeometryHigh(HEIGHT, 0.0);
    var back := p.z + GeometryLow(b.depth, b.depth / 2.0);
    var front := p.z + GeometryHigh(b.depth, b.depth / 2.0);
    Box(top, left, bottom, right, front, back, right - left, top - bottom, front - back)
  }

  /** Every stored coordinate and size is on the FIX_VALUE grid. */
  ghost predicate Quantized(b: BlockState)
  {
    OnGrid(b.position.x) && OnGrid(b.position.y) && OnGrid(b.position.z)
    && OnGrid(b.width) && OnGrid(b.depth)
  }

  /** What `new Block(width, depth)` holds: a block at the origin whose size went
      through `setSize`. */
  function NewBlockState(width: real, depth: real): (b: BlockState)
    ensures b.position == ORIGIN
    ensures width >= 0.0 ==> b.width >= 0.0
    ensures depth >= 0.0 ==> b.depth >= 0.0
  {
    FixKeepsSign(width);
    FixKeepsSign(depth);
    BlockState(ORIGIN, Fix(width), Fix(depth))
  }

  /** Snapping a non-negative size gives a non-negative size. */
  lemma FixKeepsSign(v: real)
    ensures v >= 0.0 ==> Fix(v) >= 0.0
  {
    if v >= 0.0 {
      FixNonNegative(v);
    }
  }

  /** A freshly built block is quantized, whatever size it was asked for. */
  lemma NewBlockQuantized(width: real, depth: real)
    ensures Quantized(NewBlockState(width, depth))
  {
    OnGridIntro(0, 0.0);
    FixOnGrid(width);
    FixOnGrid(depth);
  }

  /** The starting block is the 12 x 12 block at the origin, and building it leaves
      those sizes as they are since 12 is a multiple of FIX_VALUE. */
  lemma StartingBlockFixed()
    ensures NewBlockState(STARTING_WIDTH, STARTING_DEPTH) == STARTING_BLOCK
    ensures Quantized(STARTING_BLOCK)
  {
    FixMultiple(50);
    assert Scaled(50, FIX_VALUE) == 12.0;
    NewBlockQuantized(STARTING_WIDTH, STARTING_DEPTH);
  }

  /** A block mesh. Only the parts the game reads are kept: position, the
      width/depth its geometry was built with, and visibility. */
  class Block {
    var position: Vec3
    var width: real
    var depth: real
    var visible: bool

    function State(): BlockState
      reads this
    {
      BlockState(position, width, depth)
    }

    /** `new Block(width, depth)`: a default unit box at the origin, then `setSize`. */
    constructor (width: real, depth: real)
      ensures State() == NewBlockState(width, depth) && visible
      ensures Quantized(State())
    {
      position := ORIGIN;
      this.width := 1.0;
      this.depth := 1.0;
      visible := true;
      new;
      SetSize(width, depth);
      NewBlockQuantized(width, depth);
    }

    /** `Block.createStartingBlock()`. */
    static method CreateStartingBlock() returns (b: Block)
      ensures fresh(b) && b.visible
      ensures b.State() == STARTING_BLOCK
    {
      b := new Block(STARTING_WIDTH, STARTING_DEPTH);
      StartingBlockFixed();
    }

    /** `setPosition(x, y, z)`: each coordinate is snapped to the grid. */
    method SetPosition(x: real, y: real, z: real)
      modifies this
      ensures position == Vec3(Fix(x), Fix(y), Fix(z))
      ensures OnGrid(position.x) && OnGrid(position.y) && OnGrid(position.z)
      ensures width == old(width) && depth == old(depth) && visible == old(visible)
    {
      position := Vec3(Fix(x), Fix(y), Fix(z));
      FixOnGrid(x);
      FixOnGrid(y);
      FixOnGrid(z);
    }

    /** `setSize(width, depth)`: the geometry is rebuilt from the snapped sizes. Its
        height is HEIGHT, which `BoundingBoxOf` fixes for every block, so no field
        of the model holds it. */
    method SetSize(width: real, depth: real)
      modifies this
      ensures this.width == Fix(width) && this.depth == Fix(depth)
      ensures OnGrid(this.width) && OnGrid(this.depth)
      ensures position == old(position) && visible == old(visible)
    {
      this.width := Fix(width);
      this.depth := Fix(depth);
      FixOnGrid(width);
      FixOnGrid(depth);
    }

    /** `getBoundingBox()`. */
    function BoundingBox(): Box
      reads this
    {
      BoundingBoxOf(State())
    }
  }
}
