/** Padded bounding boxes and the overlap test between an obstacle and the player. */
module Collision {
  import opened Anim

  /** Every obstacle box is inset by this much on each side. */
  const NebulaPad: real := 20.0
  /** The player box is inset by this much on each side. */
  const ScarfyPad: real := 30.0

  /**
   * Overlap of two rectangles. The graphics library's own test is not part of
   * this model; this is the usual strict test on both axes, assumed here. No
   * lemma depends on how rectangles whose edges only touch are treated.
   */
  predicate CheckCollisionRecs(a: Rectangle, b: Rectangle)
  {
    a.x < b.x + b.width && b.x < a.x + a.width &&
    a.y < b.y + b.height && b.y < a.y + a.height
  }

  /** The sprite's on-screen box: its position with the size of its sheet cell. */
  function SpriteBox(data: AnimData): Rectangle
  {
    Rectangle(data.pos.x, data.pos.y, data.rec.width, data.rec.height)
  }

  /** The sprite's box moved in by `pad` on every side. */
  function PaddedBox(data: AnimData, pad: real): (r: Rectangle)
    ensures r.x == SpriteBox(data).x + pad && r.y == SpriteBox(data).y + pad
    ensures r.x + r.width == SpriteBox(data).x + SpriteBox(data).width - pad
    ensures r.y + r.height == SpriteBox(data).y + SpriteBox(data).height - pad
  {
    Rectangle(data.pos.x + pad, data.pos.y + pad, data.rec.width - 2.0 * pad, data.rec.height - 2.0 * pad)
  }

  /** The test made for one obstacle against the player. */
  predicate Collides(nebula: AnimData, scarfy: AnimData)
  {
    CheckCollisionRecs(PaddedBox(nebula, NebulaPad), PaddedBox(scarfy, ScarfyPad))
  }

  /** Some obstacle of the field collides with the player. */
  predicate AnyCollision(nebulae: seq<AnimData>, scarfy: AnimData)
  {
    exists j :: 0 <= j < |nebulae| && Collides(nebulae[j], scarfy)
  }

  /**
   * The overlap test does not depend on the order of its arguments, so the
   * loop's (obstacle box, player box) order is no part of the result.
   */
  lemma CheckCollisionRecsSymmetric(a: Rectangle, b: Rectangle)
    ensures CheckCollisionRecs(a, b) <==> CheckCollisionRecs(b, a)
  {
  }

  /**
   * The padding only shrinks the boxes: a collision is only ever reported
   * when the two sprites' full boxes overlap.
   */
  lemma CollisionNeedsSpriteOverlap(nebula: AnimData, scarfy: AnimData)
    requires Collides(nebula, scarfy)
    ensures CheckCollisionRecs(SpriteBox(nebula), SpriteBox(scarfy))
  {
  }

  /**
   * The padding forgives overlap: sprites whose full boxes overlap by less
   * than the two paddings together on either axis never collide.
   */
  lemma ShallowOverlapDoesNotCollide(nebula: AnimData, scarfy: AnimData)
    requires SpriteBox(nebula).x + SpriteBox(nebula).width < SpriteBox(scarfy).x + NebulaPad + ScarfyPad
          || SpriteBox(scarfy).x + SpriteBox(scarfy).width < SpriteBox(nebula).x + NebulaPad + ScarfyPad
          || SpriteBox(nebula).y + SpriteBox(nebula).height < SpriteBox(scarfy).y + NebulaPad + ScarfyPad
          || SpriteBox(scarfy).y + SpriteBox(scarfy).height < SpriteBox(nebula).y + NebulaPad + ScarfyPad
    ensures !Collides(nebula, scarfy)
  {
  }
}
