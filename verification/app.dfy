/** The reset action, which touches both the viewport and the scene. */
module App {
  import opened ViewTransform
  import opened SceneState

  /** Empties the segment list and puts the viewport back to its start-up
      scale and offset; the drag state is left as it was. */
  method ResetCanvas(view: Viewport, scene: Scene)
    modifies view, scene
    ensures scene.Valid() && scene.segments == []
    ensures view.Valid() && view.scale == DefaultScale && view.offsetX == 0.0 && view.offsetY == 0.0
    ensures view.isDragging == old(view.isDragging)
    ensures view.dragStartX == old(view.dragStartX) && view.dragStartY == old(view.dragStartY)
  {
    scene.Clear();
    view.Reset();
  }
}
