/** The batch writer's hazard measures of one packet. */
module Hazards {
  import opened Numbers
  import opened Weather

  function WindNorm(p: Packet): real {
    Clamp01(p.windSpeed / 80.0)
  }

  function PrecipNorm(p: Packet): real {
    match p.precipitationMm
    case None => 0.0
    case Some(mm) => Clamp01(mm / 25.0)
  }

  function VisibilityNorm(p: Packet): real {
    match p.visibilityKm
    case None => 0.0
    case Some(km) => Clamp01((10.0 - km) / 10.0)
  }

  function CloudNorm(p: Packet): real {
    match p.cloudCoverPercent
    case None => 0.0
    case Some(percent) => Clamp01(percent / 100.0)
  }

  function HeatNorm(p: Packet): real {
    if 15.0 <= p.temperature <= 30.0 then 0.0
    else
      var distance := if p.temperature < 15.0 then 15.0 - p.temperature else p.temperature - 30.0;
      Clamp01(distance / 20.0)
  }

  /** The weighted score, from 0 to 100. */
  function HazardScore(p: Packet): (score: real)
    ensures 0.0 <= score <= 100.0
  {
    (0.33 * WindNorm(p) + 0.28 * PrecipNorm(p) + 0.19 * VisibilityNorm(p) + 0.15 * HeatNorm(p)
     + 0.05 * CloudNorm(p)) * 100.0
  }

  /** How much longer a segment takes, from not at all to 1.6 times. */
  function DelayFactor(p: Packet): (factor: real)
    ensures 1.0 <= factor <= 1.6
  {
    1.0 + 0.004 * HazardScore(p) + 0.002 * (WindNorm(p) * 100.0)
  }

  datatype Hazard = Wind | Precipitation | Visibility | Cloud | Temperature

  function Norm(h: Hazard, p: Packet): real {
    match h
    case Wind => WindNorm(p)
    case Precipitation => PrecipNorm(p)
    case Visibility => VisibilityNorm(p)
    case Cloud => CloudNorm(p)
    case Temperature => HeatNorm(p)
  }

  function PrimaryHazard(p: Packet): Hazard {
    var wind, precip, vis, heat, cloud := WindNorm(p), PrecipNorm(p), VisibilityNorm(p), HeatNorm(p), CloudNorm(p);
    if wind >= precip && wind >= vis && wind >= heat && wind >= cloud then Wind
    else if precip >= wind && precip >= vis && precip >= heat && precip >= cloud then Precipitation
    else if vis >= wind && vis >= precip && vis >= heat && vis >= cloud then Visibility
    else if cloud >= wind && cloud >= precip && cloud >= vis && cloud >= heat then Cloud
    else Temperature
  }

  function Rank(h: Hazard): nat {
    match h
    case Wind => 0
    case Precipitation => 1
    case Visibility => 2
    case Cloud => 3
    case Temperature => 4
  }

  /** The primary hazard has the greatest norm, and is the first to have it in the order wind,
      precipitation, visibility, cloud, temperature. */
  lemma PrimaryIsFirstGreatest(p: Packet, h: Hazard)
    ensures Norm(h, p) <= Norm(PrimaryHazard(p), p)
    ensures Norm(h, p) == Norm(PrimaryHazard(p), p) ==> Rank(PrimaryHazard(p)) <= Rank(h)
  {
  }

  /** Which one it is, hazard by hazard. */
  lemma PrimaryMeaning(p: Packet)
    ensures var wind, rain, sight := WindNorm(p), PrecipNorm(p), VisibilityNorm(p);
            var cloud, heat := CloudNorm(p), HeatNorm(p);
            && (PrimaryHazard(p) == Wind <==> wind >= rain && wind >= sight && wind >= cloud && wind >= heat)
            && (PrimaryHazard(p) == Precipitation <==> rain > wind && rain >= sight && rain >= cloud && rain >= heat)
            && (PrimaryHazard(p) == Visibility <==> sight > wind && sight > rain && sight >= cloud && sight >= heat)
            && (PrimaryHazard(p) == Cloud <==> cloud > wind && cloud > rain && cloud > sight && cloud >= heat)
            && (PrimaryHazard(p) == Temperature <==> heat > wind && heat > rain && heat > sight && heat > cloud)
  {
  }

  /** A fraction of the way from one value to another, cut off at both ends. */
  predicate IsFraction(n: real, value: real, zero: real, one: real) {
    && 0.0 <= n <= 1.0
    && (zero < one ==> (n == 0.0 <==> value <= zero) && (n == 1.0 <==> value >= one))
    && (zero > one ==> (n == 0.0 <==> value >= zero) && (n == 1.0 <==> value <= one))
    && (0.0 < n < 1.0 ==> value == zero + n * (one - zero))
  }

  /** What each hazard measures: wind up to 80, rain up to 25, sight from 10 down to nothing, cloud up to 100,
      and the temperature's distance from the range of 15 to 30, up to 20.  What was not measured is no
      hazard. */
  lemma NormMeaning(p: Packet)
    ensures IsFraction(WindNorm(p), p.windSpeed, 0.0, 80.0)
    ensures if p.precipitationMm.None? then PrecipNorm(p) == 0.0
            else IsFraction(PrecipNorm(p), p.precipitationMm.value, 0.0, 25.0)
    ensures if p.visibilityKm.None? then VisibilityNorm(p) == 0.0
            else IsFraction(VisibilityNorm(p), p.visibilityKm.value, 10.0, 0.0)
    ensures if p.cloudCoverPercent.None? then CloudNorm(p) == 0.0
            else IsFraction(CloudNorm(p), p.cloudCoverPercent.value, 0.0, 100.0)
    ensures p.temperature >= 15.0 ==> IsFraction(HeatNorm(p), p.temperature, 30.0, 50.0)
    ensures p.temperature <= 30.0 ==> IsFraction(HeatNorm(p), p.temperature, 15.0, -5.0)
  {
  }

  ghost predicate SameBut(p: Packet, q: Packet, h: Hazard) {
    forall other :: other != h ==> Norm(other, p) == Norm(other, q)
  }

  /** What a hazard weighs: between two packets that differ in one hazard only, the scores differ by its
      percentage of the difference of its norms. */
  lemma HazardWeighs(p: Packet, q: Packet, h: Hazard)
    requires SameBut(p, q, h)
    ensures var d := Norm(h, p) - Norm(h, q);
            HazardScore(p) - HazardScore(q) == (match h
                                                case Wind => 33.0 * d
                                                case Precipitation => 28.0 * d
                                                case Visibility => 19.0 * d
                                                case Temperature => 15.0 * d
                                                case Cloud => 5.0 * d)
  {
    OtherNorms(p, q, h);
  }

  lemma OtherNorms(p: Packet, q: Packet, h: Hazard)
    requires SameBut(p, q, h)
    ensures h != Wind ==> WindNorm(p) == WindNorm(q)
    ensures h != Precipitation ==> PrecipNorm(p) == PrecipNorm(q)
    ensures h != Visibility ==> VisibilityNorm(p) == VisibilityNorm(q)
    ensures h != Temperature ==> HeatNorm(p) == HeatNorm(q)
    ensures h != Cloud ==> CloudNorm(p) == CloudNorm(q)
  {
    assert h != Wind ==> Norm(Wind, p) == Norm(Wind, q);
    assert h != Precipitation ==> Norm(Precipitation, p) == Norm(Precipitation, q);
    assert h != Visibility ==> Norm(Visibility, p) == Norm(Visibility, q);
    assert h != Temperature ==> Norm(Temperature, p) == Norm(Temperature, q);
    assert h != Cloud ==> Norm(Cloud, p) == Norm(Cloud, q);
  }

  /** And what it delays: the delay grows with the score, and with the wind once more. */
  lemma HazardDelays(p: Packet, q: Packet, h: Hazard)
    requires SameBut(p, q, h)
    ensures var d := Norm(h, p) - Norm(h, q);
            DelayFactor(p) - DelayFactor(q) == (match h
                                                case Wind => 0.332 * d
                                                case Precipitation => 0.112 * d
                                                case Visibility => 0.076 * d
                                                case Temperature => 0.06 * d
                                                case Cloud => 0.02 * d)
  {
    HazardWeighs(p, q, h);
    OtherNorms(p, q, h);
  }

  /** Nothing is delayed without a hazard, and nothing by more than six tenths. */
  lemma DelayExtremes(p: Packet)
    ensures DelayFactor(p) == 1.0 <==> HazardScore(p) == 0.0
    ensures DelayFactor(p) == 1.6 <==> HazardScore(p) == 100.0
  {
  }

  /** A score of zero means that no hazard is present at all; the score is 100 only when all are extreme. */
  lemma ScoreExtremes(p: Packet)
    ensures HazardScore(p) == 0.0 <==> forall h :: Norm(h, p) == 0.0
    ensures HazardScore(p) == 100.0 <==> forall h :: Norm(h, p) == 1.0
  {
    assert Norm(Wind, p) == WindNorm(p) && Norm(Precipitation, p) == PrecipNorm(p);
    assert Norm(Visibility, p) == VisibilityNorm(p) && Norm(Cloud, p) == CloudNorm(p);
    assert Norm(Temperature, p) == HeatNorm(p);
  }
}
