/** The fixed-width unsigned integers of ptypes.h, as bounded integers. */
module PTypes {

  /** UINT8. */
  type uint8 = x: int | 0 <= x < 256

  /** UINT16. */
  type uint16 = x: int | 0 <= x < 65536
}
