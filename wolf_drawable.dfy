/** The entries of `objects_to_render` (Wolfenstein_Doom_Raycasting): a depth
    key, the picture to blit, and the position to blit it at. Wall columns
    (Backup/raycasting.py) and sprites (sprite_object.py) share the list. */
module WolfDrawable {

  /** What is blitted: a rectangle `(sliceX, sliceY, sliceWidth,
      sliceHeight)` of a wall texture scaled to `drawWidth` x `drawHeight`,
      or a sprite image scaled to `width` x `height`. Images are opaque
      handles. */
  datatype Picture =
    | WallSlice(texture: int, sliceX: real, sliceY: real, sliceWidth: real, sliceHeight: real,
                drawWidth: real, drawHeight: real)
    | SpriteImage(image: int, width: real, height: real)

  /** One `(depth, image, pos)` triple. */
  datatype Drawable = Drawable(depth: real, picture: Picture, posX: real, posY: real)
}
