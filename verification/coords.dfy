/** Geographic <-> meter conversions of the driving page (drive.js).

    Absolute ("world") meters are an equirectangular approximation around the
    configured centre: x grows east, z grows south. Local meters, the frame of the
    physics world, are absolute meters minus the floating origin. */
module Coords {

  /** The page's fixed projection parameters. The two scale factors stand for
      `2*PI*MARS_RADIUS/360` and that value times `cos(CENTER_LAT)`; the model only
      needs them to be positive. */
  datatype Frame = Frame(centerLat: real, centerLon: real, metersPerDegLat: real, metersPerDegLon: real)

  predicate ValidFrame(f: Frame)
  {
    f.metersPerDegLat > 0.0 && f.metersPerDegLon > 0.0
  }

  datatype LatLon = LatLon(lat: real, lon: real)

  /** A horizontal point in meters: x east, z south. Also used for the world origin. */
  datatype Meters = Meters(x: real, z: real)

  /** `latLonToWorldMeters`: absolute meters of a geographic point. */
  function LatLonToWorldMeters(f: Frame, lat: real, lon: real): Meters
  {
    Meters((lon - f.centerLon) * f.metersPerDegLon, (f.centerLat - lat) * f.metersPerDegLat)
  }

  /** `worldMetersToLatLon`: the inverse of `LatLonToWorldMeters`. */
  function WorldMetersToLatLon(f: Frame, x: real, z: real): (r: LatLon)
    requires ValidFrame(f)
    ensures LatLonToWorldMeters(f, r.lat, r.lon) == Meters(x, z)
  {
    var r := LatLon(f.centerLat - z / f.metersPerDegLat, f.centerLon + x / f.metersPerDegLon);
    assert (r.lon - f.centerLon) * f.metersPerDegLon == x;
    assert (f.centerLat - r.lat) * f.metersPerDegLat == z;
    r
  }

  /** `latLonToLocalMeters`: local = absolute - worldOrigin. */
  function LatLonToLocalMeters(f: Frame, origin: Meters, lat: real, lon: real): (m: Meters)
    ensures m.x == LatLonToWorldMeters(f, lat, lon).x - origin.x
    ensures m.z == LatLonToWorldMeters(f, lat, lon).z - origin.z
  {
    Meters((lon - f.centerLon) * f.metersPerDegLon - origin.x, (f.centerLat - lat) * f.metersPerDegLat - origin.z)
  }

  /** `localMetersToLatLon`: the inverse of `LatLonToLocalMeters` for the same origin. */
  function LocalMetersToLatLon(f: Frame, origin: Meters, x: real, z: real): (r: LatLon)
    requires ValidFrame(f)
    ensures LatLonToLocalMeters(f, origin, r.lat, r.lon) == Meters(x, z)
  {
    var r := LatLon(f.centerLat - (z + origin.z) / f.metersPerDegLat, f.centerLon + (x + origin.x) / f.metersPerDegLon);
    assert (r.lon - f.centerLon) * f.metersPerDegLon == x + origin.x;
    assert (f.centerLat - r.lat) * f.metersPerDegLat == z + origin.z;
    r
  }

  /** Every geographic point survives the trip through local meters and back,
      whatever the origin. */
  lemma LocalRoundTrip(f: Frame, origin: Meters, lat: real, lon: real)
    requires ValidFrame(f)
    ensures var m := LatLonToLocalMeters(f, origin, lat, lon);
            LocalMetersToLatLon(f, origin, m.x, m.z) == LatLon(lat, lon)
  {
    var m := LatLonToLocalMeters(f, origin, lat, lon);
    var r := LocalMetersToLatLon(f, origin, m.x, m.z);
    assert (r.lon - f.centerLon) * f.metersPerDegLon == (lon - f.centerLon) * f.metersPerDegLon;
    assert (f.centerLat - r.lat) * f.metersPerDegLat == (f.centerLat - lat) * f.metersPerDegLat;
  }

  /** Moving the origin by `d` moves every local point by `-d`. */
  lemma LocalShift(f: Frame, origin: Meters, d: Meters, lat: real, lon: real)
    ensures var before := LatLonToLocalMeters(f, origin, lat, lon);
            LatLonToLocalMeters(f, Meters(origin.x + d.x, origin.z + d.z), lat, lon)
              == Meters(before.x - d.x, before.z - d.z)
  {
  }

  /** `chassisToLatLon`: geographic position of a body given in physics units. */
  function ChassisToLatLon(f: Frame, origin: Meters, px: real, pz: real, scale: real): (r: LatLon)
    requires ValidFrame(f)
    ensures LatLonToWorldMeters(f, r.lat, r.lon) == Meters(origin.x + px * scale, origin.z + pz * scale)
  {
    WorldMetersToLatLon(f, origin.x + px * scale, origin.z + pz * scale)
  }

  /** `latLonToChassis`: physics-unit position of a geographic point. */
  function LatLonToChassis(f: Frame, origin: Meters, lat: real, lon: real, scale: real): (p: Meters)
    requires scale > 0.0
    ensures var m := LatLonToLocalMeters(f, origin, lat, lon); p.x * scale == m.x && p.z * scale == m.z
  {
    var xMeters := (lon - f.centerLon) * f.metersPerDegLon - origin.x;
    var zMeters := (f.centerLat - lat) * f.metersPerDegLat - origin.z;
    Meters(xMeters / scale, zMeters / scale)
  }

  /** A body placed with `LatLonToChassis` reads back the same point with
      `ChassisToLatLon`, for every origin and every positive scale. */
  lemma ChassisRoundTrip(f: Frame, origin: Meters, lat: real, lon: real, scale: real)
    requires ValidFrame(f) && scale > 0.0
    ensures var p := LatLonToChassis(f, origin, lat, lon, scale);
            ChassisToLatLon(f, origin, p.x, p.z, scale) == LatLon(lat, lon)
  {
    var p := LatLonToChassis(f, origin, lat, lon, scale);
    var r := ChassisToLatLon(f, origin, p.x, p.z, scale);
    assert LatLonToWorldMeters(f, r.lat, r.lon) == LatLonToWorldMeters(f, lat, lon);
    WorldInjective(f, r.lat, r.lon, lat, lon);
  }

  /** Distinct geographic points have distinct absolute meters. */
  lemma WorldInjective(f: Frame, lat1: real, lon1: real, lat2: real, lon2: real)
    requires ValidFrame(f)
    requires LatLonToWorldMeters(f, lat1, lon1) == LatLonToWorldMeters(f, lat2, lon2)
    ensures lat1 == lat2 && lon1 == lon2
  {
    assert (lon1 - lon2) * f.metersPerDegLon == 0.0;
    assert (lat2 - lat1) * f.metersPerDegLat == 0.0;
  }
}
