/** The WEBP encoder option records the converter passes to `save`. */
module Quality {

  /**
   * `{'lossless': True}`, `{'quality': q}` or `{'allow_mixed': True}`:
   * the only keys `set_quali` ever writes; the value of the first and
   * the last is always `True`.
   */
  datatype EncoderOptions = Lossless | QualityLevel(quality: int) | AllowMixed

  /** Lossy quality used when neither `-l` nor `-q` is given. */
  const DefaultQuality: int := 80
}
