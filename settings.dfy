/** The two layout constants of src/settings.py that the simulation reads. */
module Settings {
  /** Side of one layout cell, in pixels. */
  const TileSize: int := 64

  /** Width of the window, in pixels; the camera rule works in quarters of it. */
  const ScreenWidth: int := 1200
}
