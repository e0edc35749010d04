/** Positions and time-stamped updates. Physical quantities are reals, time stamps are integers. */
module Types {
  import opened Prelude

  datatype Position = Position(
    latitude: real, longitude: real, altitude: Option<real>,
    horizontal: Option<real>, vertical: Option<real>)

  datatype Update<+T> = Update(value: T, when: int)
}
