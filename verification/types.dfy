/** Machine types of the wizard: the unsigned bytes SDL uses for axis, button
    and hat ids and for the highlight alpha, the signed 16-bit axis reading,
    and the usual Option. */
module Types {

  /** Swift's UInt8 / SDL's Uint8. Wrap-around is written out where it happens. */
  newtype uint8 = x: int | 0 <= x < 256

  /** SDL's Sint16, the raw reading carried by a joystick axis event. */
  newtype int16 = x: int | -32768 <= x < 32768

  datatype Option<T> = None | Some(value: T)
}
