/** The scene host of App.ts: the block collection, the live tweens and the spread toggle. */
module Scene {
  import opened Okageo
  import opened Blocks

  /** Which mesh of a block a tween drives. */
  datatype Part = Face | Wall

  /** What a tween animates its mesh to: a position, or a rotation about x that is the
      mesh's current whole number of turns plus `extraTurns` more. */
  datatype Goal = MoveTo(target: Position) | TurnTo(extraTurns: nat)

  /** A started tween on one mesh of the block at index `block`. */
  datatype Tween = Tween(block: nat, part: Part, goal: Goal)

  /** Where a block's meshes are sent: back to its rest position when spread,
      to a random point (`scatter`) otherwise. */
  function Destination(b: Block, index: nat, spreaded: bool, scatter: nat -> Vec3): Position
  {
    if spreaded then b.position else At(scatter(index))
  }

  /** The four tweens spread starts for one block: two moves (face, wall), then two turns. */
  function BlockTweens(index: nat, b: Block, spreaded: bool, scatter: nat -> Vec3, turns: nat -> nat): seq<Tween>
  {
    var to := Destination(b, index, spreaded, scatter);
    [Tween(index, Face, MoveTo(to)), Tween(index, Wall, MoveTo(to))] +
    [Tween(index, Face, TurnTo(turns(index))), Tween(index, Wall, TurnTo(turns(index)))]
  }

  /** The tweens spread starts for all blocks, block by block. */
  function SpreadTweens(blocks: seq<Block>, spreaded: bool, scatter: nat -> Vec3, turns: nat -> nat): (r: seq<Tween>)
    ensures |r| == 4 * |blocks|
  {
    if blocks == [] then []
    else
      SpreadTweens(blocks[..|blocks| - 1], spreaded, scatter, turns) +
      BlockTweens(|blocks| - 1, blocks[|blocks| - 1], spreaded, scatter, turns)
  }

  /** Spread starts exactly four tweens per block, in block order: block i's face and wall
      move to the same destination, then its face and wall turn by the same number of turns. */
  lemma {:induction false} SpreadTweensLayout(blocks: seq<Block>, spreaded: bool, scatter: nat -> Vec3, turns: nat -> nat)
    ensures var r := SpreadTweens(blocks, spreaded, scatter, turns);
      forall i :: 0 <= i < |blocks| ==>
        var to := Destination(blocks[i], i, spreaded, scatter);
        r[4 * i] == Tween(i, Face, MoveTo(to)) && r[4 * i + 1] == Tween(i, Wall, MoveTo(to)) &&
        r[4 * i + 2] == Tween(i, Face, TurnTo(turns(i))) && r[4 * i + 3] == Tween(i, Wall, TurnTo(turns(i)))
  {
    if blocks != [] {
      var init := blocks[..|blocks| - 1];
      SpreadTweensLayout(init, spreaded, scatter, turns);
      var r := SpreadTweens(blocks, spreaded, scatter, turns);
      var r0 := SpreadTweens(init, spreaded, scatter, turns);
      forall i | 0 <= i < |blocks|
        ensures var to := Destination(blocks[i], i, spreaded, scatter);
          r[4 * i] == Tween(i, Face, MoveTo(to)) && r[4 * i + 1] == Tween(i, Wall, MoveTo(to)) &&
          r[4 * i + 2] == Tween(i, Face, TurnTo(turns(i))) && r[4 * i + 3] == Tween(i, Wall, TurnTo(turns(i)))
      {
        if i < |init| {
          assert blocks[i] == init[i];
          assert r[4 * i] == r0[4 * i] && r[4 * i + 1] == r0[4 * i + 1];
          assert r[4 * i + 2] == r0[4 * i + 2] && r[4 * i + 3] == r0[4 * i + 3];
        }
      }
    }
  }

  /** Gathering (spread while spreaded) sends every block's face and wall back to that block's
      own rest position, whatever the random source would have produced. */
  lemma GatherReturnsToRest(blocks: seq<Block>, scatter: nat -> Vec3, turns: nat -> nat)
    ensures var r := SpreadTweens(blocks, true, scatter, turns);
      forall i :: 0 <= i < |blocks| ==>
        r[4 * i].goal == MoveTo(blocks[i].position) && r[4 * i + 1].goal == MoveTo(blocks[i].position)
  {
    SpreadTweensLayout(blocks, true, scatter, turns);
  }

  /** Scattering (spread while gathered) sends block i's face and wall to the random point
      drawn for it. */
  lemma ScatterUsesRandomTargets(blocks: seq<Block>, scatter: nat -> Vec3, turns: nat -> nat)
    ensures var r := SpreadTweens(blocks, false, scatter, turns);
      forall i :: 0 <= i < |blocks| ==>
        r[4 * i].goal == MoveTo(At(scatter(i))) && r[4 * i + 1].goal == MoveTo(At(scatter(i)))
  {
    SpreadTweensLayout(blocks, false, scatter, turns);
  }

  /** One frame's rotation about the world x axis applied to a block's face and wall. */
  function Turned(b: Block): Block
  {
    b.(spin := b.spin + 1)
  }

  /** The blocks after one frame of rotation: each turned once, nothing else changed. */
  function Spun(blocks: seq<Block>): (r: seq<Block>)
    ensures |r| == |blocks|
  {
    seq(|blocks|, i requires 0 <= i < |blocks| => Turned(blocks[i]))
  }

  class App {
    /** Whether the render loop keeps scheduling frames. */
    var running: bool
    /** Every block in the scene, in creation order. */
    var blocks: seq<Block>
    /** The tweens started by the last spread. */
    var tweens: seq<Tween>
    /** Whether the blocks are scattered. */
    var spreaded: bool

    /** A host as the constructor leaves it: empty scene, gathered, render loop running. */
    constructor ()
      ensures running && blocks == [] && tweens == [] && !spreaded
    {
      running := true;
      blocks := [];
      tweens := [];
      spreaded := false;
    }

    /** One frame: nothing at all once the host is disposed; otherwise, while spread, every
        block's face and wall turn by one step, and the next frame is scheduled. */
    method Animate() returns (scheduled: bool)
      modifies this
      ensures scheduled == old(running)
      ensures running == old(running) && tweens == old(tweens) && spreaded == old(spreaded)
      ensures blocks == if old(running) && old(spreaded) then Spun(old(blocks)) else old(blocks)
    {
      if !running {
        return false;
      }
      if spreaded {
        var i := 0;
        while i < |blocks|
          invariant 0 <= i <= |blocks| == |old(blocks)|
          invariant running == old(running) && tweens == old(tweens) && spreaded == old(spreaded)
          invariant blocks == Spun(old(blocks))[..i] + old(blocks)[i..]
        {
          blocks := blocks[i := Turned(blocks[i])];
          i := i + 1;
        }
      }
      scheduled := true;
    }

    /** Builds the block of one path and appends it; nothing else changes. */
    method CreateMesh(path: SvgPath)
      modifies this
      ensures blocks == old(blocks) + [CreateBlock(path)]
      ensures running == old(running) && tweens == old(tweens) && spreaded == old(spreaded)
    {
      var block := CreateBlock(path);
      blocks := blocks + [block];
    }

    /** Toggles scattered and gathered: every running tween is stopped and dropped, four new
        tweens are started per block, and the flag flips. `scatter(i)` and `turns(i)` stand for
        the random target and random turn count drawn for block i (turns are below 10). */
    method Spread(scatter: nat -> Vec3, turns: nat -> nat)
      modifies this
      ensures tweens == SpreadTweens(old(blocks), old(spreaded), scatter, turns)
      ensures blocks == old(blocks) && spreaded == !old(spreaded) && running == old(running)
    {
      tweens := [];
      var i := 0;
      while i < |blocks|
        invariant 0 <= i <= |blocks|
        invariant blocks == old(blocks) && spreaded == old(spreaded) && running == old(running)
        invariant tweens == SpreadTweens(blocks[..i], spreaded, scatter, turns)
      {
        var b := blocks[i];
        var to := if spreaded then b.position else At(scatter(i));
        var rotPlus := turns(i);
        tweens := tweens + [Tween(i, Face, MoveTo(to)), Tween(i, Wall, MoveTo(to))];
        tweens := tweens + [Tween(i, Face, TurnTo(rotPlus)), Tween(i, Wall, TurnTo(rotPlus))];
        assert blocks[..i + 1][..i] == blocks[..i];
        i := i + 1;
      }
      assert blocks[..i] == blocks;
      spreaded := !spreaded;
    }

    /** Removes every block and tween and returns to gathered. The resulting state does not
        depend on the state before, so clearing twice is clearing once. */
    method Clear()
      modifies this
      ensures !spreaded && tweens == [] && blocks == [] && running == old(running)
    {
      spreaded := false;
      tweens := [];
      blocks := [];
    }

    /** Stops the render loop (the renderer, scene and material are released). */
    method Dispose()
      modifies this
      ensures !running && blocks == old(blocks) && tweens == old(tweens) && spreaded == old(spreaded)
    {
      running := false;
    }
  }
}
