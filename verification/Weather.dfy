/** Weather packets and the envelopes they travel in.  Measurements are reals; one that may be
    missing (NaN in the program) is an option. */
module Weather {
  import opened Wrappers

  datatype Packet = Packet(
    continent: string, country: string, region: string, city: string,
    temperature: real, humidity: real, windSpeed: real, timestamp: int,
    latitude: Option<real>, longitude: Option<real>, visibilityKm: Option<real>,
    precipitationMm: Option<real>, pressureHpa: Option<real>, cloudCoverPercent: Option<real>,
    stationId: string, ingestLayer: string, samplePoint: string)

  /** An envelope with what its payload parses to, if it is a valid weather packet. */
  datatype Envelope = Envelope(id: string, source: string, route: string, createdAt: int, packet: Option<Packet>)
}
