/**
 * Python values whose identity tests matter to the converter:
 * keyword arguments read with `kwargs.get` may be `None`, and the
 * `is True` / `is False` tests treat `None` as neither.
 */
module PyValues {

  /** A flag that is `None` (not passed) or a `bool`. */
  datatype PyFlag = NoneFlag | Flag(value: bool) {

    /** `x is True` */
    predicate IsTrue() {
      this == Flag(true)
    }

    /** `x is False` */
    predicate IsFalse() {
      this == Flag(false)
    }
  }

  /**
   * The `quali` argument of the converter: the shared `qua` destination
   * of the `-l` (store_true, default False) and `-q` (an int) switches.
   * `type(True) is int` is false in Python, so a bool is never an int here.
   */
  datatype QualiArg = QBool(b: bool) | QInt(n: int) | QNone

  /** `treat_orgs`: None (keep the originals), 'backup' or 'erase'. */
  datatype Policy = Keep | Backup | Erase
}
