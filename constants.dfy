/** The vertical anchors of the two rays, as fractions of the container height (above its top edge). */
module Constants {
  /** `RAY_Y_POSITIONS.RAY_1`. */
  const Ray1Y: real := -0.4

  /** `RAY_Y_POSITIONS.RAY_2`. */
  const Ray2Y: real := -0.5
}
