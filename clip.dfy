/**
 * The resize rule of `importClip` (video-edit.py:47-54): a landscape clip
 * is brought to width 1920, any other clip to height 1080, and a clip
 * already at that size is left alone. The rule returns the decision; the
 * resize itself belongs to the media library.
 */
module Clip {

  const TargetWidth: int := 1920
  const TargetHeight: int := 1080

  /** The one resize asked for, if any. No decision names both dimensions. */
  datatype Resize = NoResize | ToWidth(width: int) | ToHeight(height: int)

  /** Wider than tall; a square clip is not landscape. */
  predicate Landscape(w: int, h: int)
  {
    w > h
  }

  /** The clip already has the canonical size for its orientation. */
  predicate Conforms(w: int, h: int)
  {
    (Landscape(w, h) ==> w == TargetWidth) && (!Landscape(w, h) ==> h == TargetHeight)
  }

  /** The decision of `importClip` for a clip of width `w` and height `h`. */
  function Decide(w: int, h: int): (d: Resize)
    ensures d == NoResize <==> Conforms(w, h)
    ensures d.ToWidth? ==> Landscape(w, h) && d.width == TargetWidth != w
    ensures d.ToHeight? ==> !Landscape(w, h) && d.height == TargetHeight != h
  {
    if w > h then
      if w != TargetWidth then ToWidth(TargetWidth) else NoResize
    else
      if h != TargetHeight then ToHeight(TargetHeight) else NoResize
  }

  /** A square clip follows the portrait branch. */
  lemma SquareIsPortrait(n: int)
    ensures Decide(n, n) == if n == TargetHeight then NoResize else ToHeight(TargetHeight)
  {
  }

  /**
   * The size after carrying out decision `d` with the aspect ratio kept
   * exactly: the other dimension scales by the same factor.
   */
  function Scaled(d: Resize, w: int, h: int): (real, real)
    requires w > 0 && h > 0
  {
    match d
    case NoResize => (w as real, h as real)
    case ToWidth(t) => (t as real, h as real * (t as real / w as real))
    case ToHeight(t) => (w as real * (t as real / h as real), t as real)
  }

  /**
   * Carrying out the decision with the aspect ratio kept reaches the target
   * dimension and keeps the orientation of the clip.
   */
  lemma ScaledKeepsOrientation(w: int, h: int)
    requires w > 0 && h > 0
    ensures var (w2, h2) := Scaled(Decide(w, h), w, h);
      && (w2 > h2 <==> Landscape(w, h))
      && (Landscape(w, h) ==> w2 == TargetWidth as real)
      && (!Landscape(w, h) ==> h2 == TargetHeight as real)
  {
  }

  /**
   * Normalising twice resizes at most once: once the clip has the target
   * dimension and still has its orientation, the rule asks for nothing.
   */
  lemma NormalizeIdempotent(w: int, h: int, w2: int, h2: int)
    requires Landscape(w2, h2) == Landscape(w, h)
    requires match Decide(w, h)
      case NoResize => w2 == w && h2 == h
      case ToWidth(t) => w2 == t
      case ToHeight(t) => h2 == t
    ensures Decide(w2, h2) == NoResize
  {
  }
}
