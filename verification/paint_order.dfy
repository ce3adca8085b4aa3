/**
 * Paint order on the card: each layer is drawn with a z-index one above its
 * position in the stack, under the decorative frame and the text overlay,
 * whose z-indices are fixed.
 */
module PaintOrder {
  import opened LayerStack
  import StackProperties

  const FrameZIndex := 200
  const TextOverlayZIndex := 300

  /** The z-index the card gives the layer at `position` in the stack. */
  function ZIndex(position: nat): (z: nat) {
    position + 1
  }

  /** The z-index of the first layer with the given id, as the card renders it. */
  function ZIndexOf(s: seq<Layer>, id: Id): (z: Option<nat>)
    ensures z.None? <==> !HasId(s, id)
    ensures z.Some? ==> 1 <= z.value <= |s| && s[z.value - 1].id == id
    ensures z.Some? ==> forall j | 0 <= j < z.value - 1 :: s[j].id != id
  {
    if s == [] then None
    else if s[0].id == id then Some(ZIndex(0))
    else
      match ZIndexOf(s[1..], id)
      case None => None
      case Some(z) => Some(z + 1)
  }

  /** Up to 199 layers all paint below the frame, the frame below the text, and later layers above earlier ones. */
  lemma LayersBelowFrame(s: seq<Layer>)
    requires |s| <= 199
    ensures forall i | 0 <= i < |s| :: ZIndex(i) < FrameZIndex < TextOverlayZIndex
    ensures forall i, j | 0 <= i < j < |s| :: ZIndex(i) < ZIndex(j)
  {
  }

  /**
   * Nothing caps the stack. At 200 layers the topmost layer ties with the frame
   * (the frame, later in document order, still paints above it); from 201 layers
   * on, the topmost layer paints above the frame.
   */
  lemma TopLayerAboveFrame(s: seq<Layer>)
    requires |s| >= 200
    ensures |s| == 200 ==> ZIndex(|s| - 1) == FrameZIndex
    ensures |s| >= 201 ==> ZIndex(|s| - 1) > FrameZIndex
  {
  }

  /** After "Front" the selected layer has the highest z-index on the card; after "Back" the lowest. */
  lemma {:induction false} ReorderZIndex(s: seq<Layer>, id: Id)
    requires DistinctIds(s) && HasId(s, id)
    ensures ZIndexOf(MoveToFront(s, id), id) == Some(|s|)
    ensures ZIndexOf(MoveToBack(s, id), id) == Some(1)
  {
    StackProperties.MoveToFrontPermutes(s, id);
  }
}
