/** Tilt hydrometer normalisation (wrapper.py lines 38-65). Any record whose
    `major` and `minor` entries are numbers (bool included) is decoded; a strict
    `minor > threshold` test tells the Tilt Pro (HD) encoding from the classic one. */
module Tilt {
  import opened PyValues
  import opened Points

  /** A decoded reading: the variant, the temperature in degrees Fahrenheit and the
      specific gravity. */
  datatype Reading = Reading(hd: bool, tempF: real, sg: real)

  /** The fields the normalisation adds; the raw record's entries under these
      names are never copied into a point. */
  const Derived: set<string> := {"temp_f", "sg", "hd"}

  /** The `model` tag of a variant. */
  function ModelName(hd: bool): string {
    if hd then "tilt_pro" else "tilt"
  }

  /** The raw (major, minor) pair a reading encodes: tenths of a degree and
      ten-thousandths of gravity on the HD variant, whole degrees and thousandths
      on the classic one. */
  function Raw(t: Reading): (real, real) {
    if t.hd then (t.tempF * 10.0, t.sg * 10000.0) else (t.tempF, t.sg * 1000.0)
  }

  /** The reading a record carries, if any. The result is absent exactly when
      `major` or `minor` is missing or not a number; otherwise it is the HD
      variant exactly when `minor` exceeds the threshold, and it encodes the
      record's own `major` and `minor`. */
  function Decode(data: Record, threshold: int): (r: Option<Reading>)
    ensures r.None? <==> !IsNumber(Get(data, "major")) || !IsNumber(Get(data, "minor"))
    ensures r.Some? ==> (r.value.hd <==> AsReal(Get(data, "minor")) > threshold as real)
    ensures r.Some? ==> Raw(r.value) == (AsReal(Get(data, "major")), AsReal(Get(data, "minor")))
  {
    var major := Get(data, "major");
    var minor := Get(data, "minor");
    if !IsNumber(major) || !IsNumber(minor) then None
    else if AsReal(minor) > threshold as real then
      Some(Reading(true, AsReal(major) / 10.0, AsReal(minor) / 10000.0))
    else
      Some(Reading(false, AsReal(major), AsReal(minor) / 1000.0))
  }

  /** `add_tilt_normalized_fields(point, data)`: with a reading, the `model` tag
      and the `hd`, `temp_f` and `sg` fields are set. */
  function AddNormalized(p: Point, data: Record, threshold: int): Point
  {
    match Decode(data, threshold)
    case None => p
    case Some(t) =>
      p.Tag("model", ModelName(t.hd)).Field("hd", Bool(t.hd))
       .Field("temp_f", Float(t.tempF)).Field("sg", Float(t.sg))
  }

  /** Without a reading the point comes back unchanged; with one, the `model`
      tag and the three derived fields hold the reading, and every other tag and
      field of the point is left as it was. */
  lemma NormalizationOnlyAddsItsKeys(p: Point, data: Record, threshold: int)
    ensures var r := AddNormalized(p, data, threshold);
      && r.measurement == p.measurement
      && (Decode(data, threshold).None? ==> r == p)
      && (forall k :: k in r.tags <==> k in p.tags || (k == "model" && Decode(data, threshold).Some?))
      && (forall k :: k in p.tags && k != "model" ==> r.tags[k] == p.tags[k])
      && (forall k :: k in r.fields <==> k in p.fields || (k in Derived && Decode(data, threshold).Some?))
      && (forall k :: k in p.fields && k !in Derived ==> r.fields[k] == p.fields[k])
      && (Decode(data, threshold).Some? ==>
            var t := Decode(data, threshold).value;
            && r.tags["model"] == ModelName(t.hd)
            && r.fields["hd"] == Bool(t.hd)
            && r.fields["temp_f"] == Float(t.tempF)
            && r.fields["sg"] == Float(t.sg))
  {
  }

  /** The classification and the scale factors leave no choice: a reading that
      has the right variant and encodes the record's major and minor is the one
      Decode returns. */
  lemma DecodeDeterminedByRaw(data: Record, threshold: int, t: Reading)
    requires IsNumber(Get(data, "major")) && IsNumber(Get(data, "minor"))
    requires t.hd <==> AsReal(Get(data, "minor")) > threshold as real
    requires Raw(t) == (AsReal(Get(data, "major")), AsReal(Get(data, "minor")))
    ensures Decode(data, threshold) == Some(t)
  {
    var r := Decode(data, threshold).value;
    assert r.hd == t.hd;
    if t.hd {
      assert r.tempF * 10.0 == t.tempF * 10.0;
      assert r.sg * 10000.0 == t.sg * 10000.0;
    } else {
      assert r.sg * 1000.0 == t.sg * 1000.0;
    }
  }

  /** The boundary is strict: a `minor` equal to the threshold is classic, one
      above it is HD. */
  lemma ThresholdIsStrict(data: Record, threshold: int)
    requires IsNumber(Get(data, "major")) && IsNumber(Get(data, "minor"))
    ensures AsReal(Get(data, "minor")) == threshold as real ==>
      Decode(data, threshold) == Some(Reading(false, AsReal(Get(data, "major")), threshold as real / 1000.0))
    ensures AsReal(Get(data, "minor")) == (threshold + 1) as real ==>
      Decode(data, threshold) == Some(Reading(true, AsReal(Get(data, "major")) / 10.0, (threshold + 1) as real / 10000.0))
  {
  }

  /** Without numeric `major` and `minor` no model tag and no derived field is added. */
  lemma NonNumericPassesThrough(p: Point, data: Record, threshold: int)
    requires !IsNumber(Get(data, "major")) || !IsNumber(Get(data, "minor"))
    ensures AddNormalized(p, data, threshold) == p
  {
  }

  /** A classic Tilt sighting: major 67, minor 1035 reads 67 degrees and gravity 1.035. */
  lemma ClassicExample(data: Record)
    requires Get(data, "major") == Int(67) && Get(data, "minor") == Int(1035)
    ensures Decode(data, 2000) == Some(Reading(false, 67.0, 1.035))
  {
  }

  /** A Tilt Pro sighting: major 675, minor 10350 reads 67.5 degrees and gravity 1.035. */
  lemma ProExample(data: Record)
    requires Get(data, "major") == Int(675) && Get(data, "minor") == Int(10350)
    ensures Decode(data, 2000) == Some(Reading(true, 67.5, 1.035))
  {
  }

  /** `True` is an int to Python, so a boolean `major` is decoded as 1. */
  lemma BoolMajorIsDecoded(data: Record)
    requires Get(data, "major") == Bool(true) && Get(data, "minor") == Int(1000)
    ensures Decode(data, 2000) == Some(Reading(false, 1.0, 1.0))
  {
  }
}
