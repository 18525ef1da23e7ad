/**
 * Values shared by the navigation parser and the constellations. Positions,
 * pseudoranges, signal strengths and elevations are `real`s: the model
 * compares them but never relies on floating-point rounding.
 */
module GnssTypes {
  import opened Wrappers

  /** A receiver position in Earth-centred, Earth-fixed coordinates (metres). */
  datatype Coordinates = Coordinates(x: real, y: real, z: real)

  /** A computed satellite position, or the sentinel for an unhealthy satellite. */
  datatype SatellitePosition = UnhealthySat | SatPosition(x: real, y: real, z: real)

  /** What a constellation records about one tracked satellite. */
  datatype SatelliteParameters = SatelliteParameters(
    satId: int,
    uniqueSatId: string,
    pseudorange: Option<real>,
    signalStrength: real,
    constellationType: int,
    carrierFrequency: Option<real>,
    satellitePosition: Option<SatellitePosition>,
    elevation: Option<real>,
    accumulatedCorrection: real)
}
