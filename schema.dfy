/** The point built for one record (`send_to_influx` without the write,
    wrapper.py lines 68-92): the normalised entries first, then every raw entry
    except `temp_f`, `sg` and `hd`, a string becoming a tag when its key is in
    `TAG_KEYS` and a string field otherwise, a bool or a number becoming a field,
    and anything else being ignored. */
module Schema {
  import opened PyValues
  import opened Points
  import opened Tilt

  /** The measurement every point is written under. */
  const Measurement: string := "bluetooth_data"

  /** The raw entry under `k` is written as a tag. */
  predicate RawTag(data: Record, tagKeys: set<string>, k: string) {
    k in data && k !in Derived && data[k].Str? && k in tagKeys
  }

  /** The raw entry under `k` is written as a field: a string whose key is not a
      tag key, a bool, an int or a float. */
  predicate RawField(data: Record, tagKeys: set<string>, k: string) {
    k in data && k !in Derived && ((data[k].Str? && k !in tagKeys) || IsNumber(data[k]))
  }

  /** The tags the normalisation adds for a reading. */
  function NormTags(t: Option<Reading>): map<string, string> {
    if t.None? then map[] else map["model" := ModelName(t.value.hd)]
  }

  /** The fields the normalisation adds for a reading. */
  function NormFields(t: Option<Reading>): map<string, Value> {
    if t.None? then map[]
    else map["hd" := Bool(t.value.hd), "temp_f" := Float(t.value.tempF), "sg" := Float(t.value.sg)]
  }

  /** A fresh point after `add_tilt_normalized_fields` holds exactly the tags and
      fields of the reading. */
  lemma BaseIsNormalized(data: Record, threshold: int)
    ensures AddNormalized(NewPoint(Measurement), data, threshold)
         == Point(Measurement, NormTags(Decode(data, threshold)), NormFields(Decode(data, threshold)))
  {
  }

  /** `p` is the point the wrapper builds for `data`: its tags are the normalised
      `model` tag and the raw tag entries, the raw entry winning on a clash; its
      fields are the normalised fields and the raw field entries. */
  ghost predicate PointSchema(p: Point, data: Record, tagKeys: set<string>, threshold: int) {
    var tags := NormTags(Decode(data, threshold));
    var fields := NormFields(Decode(data, threshold));
    && p.measurement == Measurement
    && (forall k :: k in p.tags <==> k in tags || RawTag(data, tagKeys, k))
    && (forall k :: k in p.tags ==> p.tags[k] == if RawTag(data, tagKeys, k) then data[k].s else tags[k])
    && (forall k :: k in p.fields <==> k in fields || RawField(data, tagKeys, k))
    && (forall k :: k in p.fields ==> p.fields[k] == if RawField(data, tagKeys, k) then data[k] else fields[k])
  }

  /** One pass of the loop body: where the entry `key: value` goes. */
  function Place(p: Point, key: string, value: Value, tagKeys: set<string>): Point {
    if key in Derived then p   // avoid duplicating the fields added by the normalisation
    else if value.Str? then
      (if key in tagKeys then p.Tag(key, value.s) else p.Field(key, value))
    else if value.Bool? then p.Field(key, value)
    else if value.Int? || value.Float? then p.Field(key, value)
    else p
  }

  /** The loop body places each raw entry as the schema says: the string/tag
      split of lines 81-85 and the separate bool and number branches of lines
      86-89, which write the same field, amount to `RawTag` and `RawField`. */
  lemma PlaceFollowsSchema(p: Point, data: Record, tagKeys: set<string>, key: string)
    requires key in data
    ensures Place(p, key, data[key], tagKeys).measurement == p.measurement
    ensures Place(p, key, data[key], tagKeys).tags
         == if RawTag(data, tagKeys, key) then p.tags[key := data[key].s] else p.tags
    ensures Place(p, key, data[key], tagKeys).fields
         == if RawField(data, tagKeys, key) then p.fields[key := data[key]] else p.fields
  {
  }

  /** The tags once the raw entries under the keys in `done` have been visited. */
  ghost predicate TagsSoFar(tags: map<string, string>, data: Record, tagKeys: set<string>, norm: map<string, string>, done: set<string>) {
    && (forall k :: k in tags <==> k in norm || (k in done && RawTag(data, tagKeys, k)))
    && (forall k :: k in tags ==> tags[k] == if k in done && RawTag(data, tagKeys, k) then data[k].s else norm[k])
  }

  /** The fields once the raw entries under the keys in `done` have been visited. */
  ghost predicate FieldsSoFar(fields: map<string, Value>, data: Record, tagKeys: set<string>, norm: map<string, Value>, done: set<string>) {
    && (forall k :: k in fields <==> k in norm || (k in done && RawField(data, tagKeys, k)))
    && (forall k :: k in fields ==> fields[k] == if k in done && RawField(data, tagKeys, k) then data[k] else norm[k])
  }

  lemma TagsStep(p: Point, data: Record, tagKeys: set<string>, norm: map<string, string>, done: set<string>, key: string)
    requires TagsSoFar(p.tags, data, tagKeys, norm, done) && key in data
    ensures TagsSoFar(Place(p, key, data[key], tagKeys).tags, data, tagKeys, norm, done + {key})
  {
    PlaceFollowsSchema(p, data, tagKeys, key);
  }

  lemma FieldsStep(p: Point, data: Record, tagKeys: set<string>, norm: map<string, Value>, done: set<string>, key: string)
    requires FieldsSoFar(p.fields, data, tagKeys, norm, done) && key in data
    ensures FieldsSoFar(Place(p, key, data[key], tagKeys).fields, data, tagKeys, norm, done + {key})
  {
    PlaceFollowsSchema(p, data, tagKeys, key);
  }

  lemma NoneVisited(data: Record, tagKeys: set<string>, threshold: int)
    ensures TagsSoFar(NormTags(Decode(data, threshold)), data, tagKeys, NormTags(Decode(data, threshold)), {})
    ensures FieldsSoFar(NormFields(Decode(data, threshold)), data, tagKeys, NormFields(Decode(data, threshold)), {})
  {
  }

  lemma AllVisited(p: Point, data: Record, tagKeys: set<string>, threshold: int)
    requires p.measurement == Measurement
    requires TagsSoFar(p.tags, data, tagKeys, NormTags(Decode(data, threshold)), data.Keys)
    requires FieldsSoFar(p.fields, data, tagKeys, NormFields(Decode(data, threshold)), data.Keys)
    ensures PointSchema(p, data, tagKeys, threshold)
  {
  }

  /** The loop over `data.items()`. The record's keys are visited in an arbitrary
      order rather than insertion order; the postcondition fixes the point
      uniquely (SchemaDeterminesPoint), so the order cannot matter. */
  method BuildPoint(data: Record, tagKeys: set<string>, threshold: int) returns (p: Point)
    ensures PointSchema(p, data, tagKeys, threshold)
  {
    p := AddNormalized(NewPoint(Measurement), data, threshold);
    BaseIsNormalized(data, threshold);
    NoneVisited(data, tagKeys, threshold);
    ghost var tags := NormTags(Decode(data, threshold));
    ghost var fields := NormFields(Decode(data, threshold));
    var rest := data.Keys;
    ghost var done: set<string> := {};
    while rest != {}
      invariant rest == data.Keys - done && done <= data.Keys
      invariant p.measurement == Measurement
      invariant TagsSoFar(p.tags, data, tagKeys, tags, done)
      invariant FieldsSoFar(p.fields, data, tagKeys, fields, done)
      decreases |rest|
    {
      var key :| key in rest;
      TagsStep(p, data, tagKeys, tags, done, key);
      FieldsStep(p, data, tagKeys, fields, done, key);
      PlaceFollowsSchema(p, data, tagKeys, key);
      p := Place(p, key, data[key], tagKeys);
      rest := rest - {key};
      done := done + {key};
    }
    assert done == data.Keys;
    AllVisited(p, data, tagKeys, threshold);
  }

  /** The schema leaves no freedom: two points built for the same record are equal. */
  lemma SchemaDeterminesPoint(p: Point, q: Point, data: Record, tagKeys: set<string>, threshold: int)
    requires PointSchema(p, data, tagKeys, threshold) && PointSchema(q, data, tagKeys, threshold)
    ensures p == q
  {
    assert p.tags == q.tags;
    assert p.fields == q.fields;
  }

  /** Raw `temp_f`, `sg` and `hd` entries are never copied: these fields exist only
      when the record decodes, and then hold the decoded values. */
  lemma DerivedNeverCopied(p: Point, data: Record, tagKeys: set<string>, threshold: int, k: string)
    requires PointSchema(p, data, tagKeys, threshold)
    requires k in Derived
    ensures k !in p.tags
    ensures k in p.fields <==> Decode(data, threshold).Some?
    ensures Decode(data, threshold).Some? ==>
      var t := Decode(data, threshold).value;
      p.fields[k] == if k == "hd" then Bool(t.hd) else if k == "temp_f" then Float(t.tempF) else Float(t.sg)
  {
  }

  /** Raw bools and numbers, `major` and `minor` among them, are written as fields
      exactly as they appear in the record. */
  lemma RawNumbersKept(p: Point, data: Record, tagKeys: set<string>, threshold: int, k: string)
    requires PointSchema(p, data, tagKeys, threshold)
    requires k in data && k !in Derived && IsNumber(data[k])
    ensures k in p.fields && p.fields[k] == data[k]
  {
  }

  /** A raw string is a tag exactly when its key is a tag key, and a string field
      otherwise; it never lands in both. */
  lemma RawStringPlacement(p: Point, data: Record, tagKeys: set<string>, threshold: int, k: string)
    requires PointSchema(p, data, tagKeys, threshold)
    requires k in data && k !in Derived && data[k].Str?
    ensures k in tagKeys ==> k in p.tags && p.tags[k] == data[k].s && k !in p.fields
    ensures k !in tagKeys ==> k in p.fields && p.fields[k] == data[k]
    ensures k !in tagKeys && k in p.tags ==>
      k == "model" && Decode(data, threshold).Some? && p.tags[k] == ModelName(Decode(data, threshold).value.hd)
  {
  }

  /** Nulls, lists and nested objects contribute nothing. */
  lemma OtherValuesIgnored(p: Point, data: Record, tagKeys: set<string>, threshold: int, k: string)
    requires PointSchema(p, data, tagKeys, threshold)
    requires k in data && (data[k].Null? || data[k].Nested?)
    ensures k !in p.fields || k in Derived
    ensures k in p.tags ==> k == "model" && Decode(data, threshold).Some?
  {
  }

  /** Every tag and field comes from the record, except the normalised ones. */
  lemma NoInventedEntries(p: Point, data: Record, tagKeys: set<string>, threshold: int)
    requires PointSchema(p, data, tagKeys, threshold)
    ensures forall k :: k in p.tags ==> k in data || k == "model"
    ensures forall k :: k in p.fields ==> k in data || k in Derived
    ensures forall k :: k in p.fields ==> !p.fields[k].Null? && !p.fields[k].Nested?
  {
  }

  /** A classic Tilt seen by its MAC address: the address is a tag, the model tag
      is `tilt`, the readings are 67 degrees and gravity 1.035, and the raw
      `major`/`minor` are kept as integer fields. */
  lemma ClassicPointExample(p: Point, data: Record, tagKeys: set<string>)
    requires data == map["mac" := Str("AA:BB:CC:DD:EE:FF"), "major" := Int(67), "minor" := Int(1035)]
    requires "mac" in tagKeys
    requires PointSchema(p, data, tagKeys, 2000)
    ensures p.tags == map["mac" := "AA:BB:CC:DD:EE:FF", "model" := "tilt"]
    ensures p.fields == map["hd" := Bool(false), "temp_f" := Float(67.0), "sg" := Float(1.035),
                            "major" := Int(67), "minor" := Int(1035)]
  {
    ClassicExample(data);
    ClassicTags(p, data, tagKeys);
    ClassicFields(p, data, tagKeys);
  }

  lemma ClassicTags(p: Point, data: Record, tagKeys: set<string>)
    requires data == map["mac" := Str("AA:BB:CC:DD:EE:FF"), "major" := Int(67), "minor" := Int(1035)]
    requires "mac" in tagKeys
    requires Decode(data, 2000) == Some(Reading(false, 67.0, 1.035))
    requires PointSchema(p, data, tagKeys, 2000)
    ensures p.tags == map["mac" := "AA:BB:CC:DD:EE:FF", "model" := "tilt"]
  {
    assert p.tags.Keys == {"mac", "model"};
  }

  lemma ClassicFields(p: Point, data: Record, tagKeys: set<string>)
    requires data == map["mac" := Str("AA:BB:CC:DD:EE:FF"), "major" := Int(67), "minor" := Int(1035)]
    requires "mac" in tagKeys
    requires Decode(data, 2000) == Some(Reading(false, 67.0, 1.035))
    requires PointSchema(p, data, tagKeys, 2000)
    ensures p.fields == map["hd" := Bool(false), "temp_f" := Float(67.0), "sg" := Float(1.035),
                            "major" := Int(67), "minor" := Int(1035)]
  {
    assert p.fields.Keys == {"hd", "temp_f", "sg", "major", "minor"};
  }
}
