# aioblescan-Influxdb wrapper, modelled in Dafny

`wrapper.py` reads the JSON lines printed by the `aioblescan` BLE scanner. It
keeps the latest record of every device and, every `SEND_INTERVAL_SEC` seconds,
writes one InfluxDB point per device.

This project models the deterministic core of that loop:

- **Settings** (`settings.dfy`, `tag_keys.dfy`): the start-up settings.
  `TAG_KEYS` is parsed exactly as `str.split(",")` and `str.strip()` do it.
- **Identity** (`identity.dfy`): `device_key`, the first truthy entry among the
  key field, `uuid`, `addr` and `peer`, with Python `or` semantics.
- **Tilt normalisation** (`tilt.dfy`): the decode of `major`/`minor` into
  `temp_f`, `sg`, `hd` and the `model` tag.
- **Point schema** (`schema.dfy`): which raw entries become tags, which become
  fields, and which are dropped. `BuildPoint` is the loop of `send_to_influx`.
- **Device table and flush** (`device_table.dfy`, `pipeline.dfy`): the
  `Gateway` class holds `latest_by_device`, the flush timer and the points
  handed to the writer.
  - Each input line is ingested, then the timer is checked.
  - A flush drains the table, writes every record, and counts the successful
    writes.
  - At end of input a final flush writes what remains.

Python values are modelled in `pyvalues.dfy`:

- JSON values become `Str`, `Bool`, `Int`, `Float`, `Null` or `Nested`.
- Truthiness is modelled.
- `isinstance(v, (int, float))` includes `bool`.
- Dictionary-key equality makes `True`, `1` and `1.0` one key. A list or dict
  identity is unhashable, so that line is dropped.

InfluxDB's `Point` is library code. It is modelled as a measurement plus a tag
map and a field map, in which a later `tag`/`field` call for the same key
replaces the earlier one.

The scanner output is given as a sequence of lines. Each line carries:

- what `json.loads` produced (a record, or nothing);
- the `time.monotonic()` reading taken for it.

The database is an oracle `ok: nat -> bool`: write attempt number `n` succeeds
exactly when `ok(n)`.

`wrapper.py` checks no vendor UUID prefix and derives no colour: every record
with numeric `major` and `minor` is decoded, and no colour tag is added.

## Model

| member | source | states |
|---|---|---|
| PyValues.HashKeyMatchesEquality | wrapper.py:119 | two hashable values are the same dict key exactly when Python `==` holds between them (`True == 1 == 1.0`) |
| TagKeys.Split | wrapper.py:22 | `split(",")` yields at least one piece, and no piece contains a comma |
| TagKeys.JoinSplit | wrapper.py:22 | joining the pieces of a split with commas gives the setting back |
| TagKeys.SplitJoin | wrapper.py:22 | splitting comma-free pieces joined by commas gives exactly those pieces |
| TagKeys.LeadingSpace | wrapper.py:21 | counts the longest whitespace prefix: all of it is whitespace, and the next character is not |
| TagKeys.TrailingSpace | wrapper.py:21 | counts the longest whitespace suffix: all of it is whitespace, and the character before it is not |
| TagKeys.Strip | wrapper.py:21 | `strip()` keeps a contiguous slice; everything outside it is whitespace, and it neither starts nor ends with whitespace |
| TagKeys.ParseTagKeys | wrapper.py:20-24 | every tag key is non-empty, comma-free and has no surrounding whitespace |
| TagKeys.ParseTagKeysMembership | wrapper.py:20-24 | a name is a tag key iff it is non-empty and some comma-separated piece strips to it |
| TagKeys.TagKeysOfPieces | wrapper.py:20-24 | the tag keys of a joined setting are the non-empty stripped pieces |
| TagKeys.TagKeysOfUnpadded | wrapper.py:20-24 | unpadded, non-empty pieces are exactly the tag keys |
| TagKeys.DefaultSettingJoinsPieces | wrapper.py:22 | the default setting `"mac,uuid,addr,peer,color,model"` is its six names joined by commas |
| TagKeys.DefaultTagKeys | wrapper.py:19-24 | the default setting gives exactly `mac, uuid, addr, peer, color, model` |
| Settings.Load | wrapper.py:15-28 | the four settings, each the variable's value when set and the `getenv` default otherwise, with `TAG_KEYS` parsed by `ParseTagKeys`. Its values are stated by `Settings.DefaultConfig` and `Settings.EmptyTagKeysSetting` |
| Settings.DefaultConfig | wrapper.py:15-28 | with nothing set: key field `mac`, the six default tag keys, threshold 2000, interval 60 s |
| Settings.EmptyTagKeysSetting | wrapper.py:20-24 | a set but empty `TAG_KEYS` gives no tag keys, not the default |
| Identity.DeviceKey | wrapper.py:34-35 | `device_key(d)`: the `or` chain over the key field, `uuid`, `addr` and `peer`, looked up with `d.get`. What it returns is stated by `Identity.DeviceKeyPriority` and `Identity.DeviceKeyFromCandidates` |
| Identity.OrChain | wrapper.py:35 | the `or` chain returns one of its operands. It is truthy iff some operand is. It is the first truthy operand, else the last operand |
| Identity.DeviceKeyPriority | wrapper.py:34-35 | the key field wins when truthy, then `uuid`, then `addr`, else `peer`; the identity is truthy iff one of the four is |
| Identity.DeviceKeyFromCandidates | wrapper.py:34-35 | a truthy identity is the value of one of the four candidate keys; a record with none of them has identity `None` |
| Tilt.Decode | wrapper.py:47-61 | no reading iff `major` or `minor` is not int/float/bool. HD iff `minor > threshold`. The reading re-encodes the record's own `major` and `minor` |
| Tilt.DecodeDeterminedByRaw | wrapper.py:53-61 | any reading with the right variant that encodes `major`/`minor` is the decoded one (the scale factors are ×10/×10000 for HD, ×1/×1000 for classic) |
| Tilt.ThresholdIsStrict | wrapper.py:53-62 | `minor == threshold` is classic (`temp_f = major`, `sg = minor/1000`); `minor == threshold + 1` is HD (`major/10`, `minor/10000`) |
| Tilt.AddNormalized | wrapper.py:38-65 | `add_tilt_normalized_fields`: the tag and fields of `Decode`'s reading added to the point. What it changes is stated by `Tilt.NormalizationOnlyAddsItsKeys` and `Tilt.NonNumericPassesThrough` |
| Tilt.NormalizationOnlyAddsItsKeys | wrapper.py:38-65 | without a reading the point is returned unchanged. With one, a fixed set of entries is set from the reading: the `model` tag plus the `hd`, `temp_f` and `sg` fields. Every other tag and field is untouched |
| Tilt.NonNumericPassesThrough | wrapper.py:47-51 | a missing or non-numeric `major`/`minor` adds nothing to the point |
| Tilt.ClassicExample | wrapper.py:59-64 | major 67, minor 1035 decodes to classic, 67 °F, gravity 1.035 |
| Tilt.ProExample | wrapper.py:55-58 | major 675, minor 10350 decodes to Tilt Pro, 67.5 °F, gravity 1.035 |
| Tilt.BoolMajorIsDecoded | wrapper.py:50 | a boolean `major` passes the numeric test and reads as 1 |
| Schema.Place | wrapper.py:77-92 | one pass of the loop body of `send_to_influx` for one key and value. What it writes is stated by `Schema.PlaceFollowsSchema` |
| Schema.PlaceFollowsSchema | wrapper.py:77-92 | one pass of the loop body writes exactly the raw tag (`RawTag`) or raw field (`RawField`) of its key, so the separate bool and number branches of lines 86-89 write the same field |
| Schema.BaseIsNormalized | wrapper.py:69-72 | the fresh `bluetooth_data` point after normalisation holds exactly the reading's tags and fields |
| Schema.BuildPoint | wrapper.py:68-92 | the built point's measurement is `bluetooth_data`. Its tags are the `model` tag plus the raw string entries whose keys are in `TAG_KEYS`. Its fields are the derived fields plus: the other raw strings, all bools and all numbers. Raw entries win on a clash |
| Schema.SchemaDeterminesPoint | wrapper.py:75-92 | the schema fixes the point uniquely, so the order in which `data.items()` is walked does not matter |
| Schema.DerivedNeverCopied | wrapper.py:77-78 | raw `temp_f`, `sg`, `hd` are never copied: they are never tags, and they are fields exactly when there is a reading, holding the reading's values |
| Schema.RawNumbersKept | wrapper.py:86-89 | every raw bool/int/float (`major` and `minor` included) is a field with its value unchanged |
| Schema.RawStringPlacement | wrapper.py:81-85 | a raw string is a tag iff its key is in `TAG_KEYS`, and a string field otherwise |
| Schema.OtherValuesIgnored | wrapper.py:90-92 | `None` and nested values contribute no tag and no field |
| Schema.NoInventedEntries | wrapper.py:68-92 | every tag comes from the record or is `model`. Every field comes from the record or is derived. No field holds `None` or a nested value |
| Schema.ClassicPointExample | wrapper.py:68-92 | a `mac`/`major`/`minor` record gives exactly tags {mac, model=tilt}. Its fields are exactly {hd, temp_f, sg, major, minor} |
| Schema.ClassicTags | wrapper.py:81-83 | the tag map of that example |
| Schema.ClassicFields | wrapper.py:60-64 | the field map of that example: the classic `hd`, `temp_f` and `sg` of lines 60-64, with raw `major` and `minor` kept as in lines 86-89 |
| DeviceTable.KeyOf | wrapper.py:117-119 | the dict key a record is stored under: none when `device_key` is falsy or unhashable. `PyValues.HashKeyMatchesEquality` states that it is Python's key equality, and `DeviceTable.KeyedRecordsHaveIdentity` that a stored record has one |
| DeviceTable.Upsert | wrapper.py:114-121 | a non-object or a falsy or unhashable identity changes nothing. Otherwise the record replaces the entry under its identity, and every other entry is unchanged |
| DeviceTable.UpsertKeepsKeyed | wrapper.py:117-119 | every entry stays stored under its own record's identity |
| DeviceTable.UpsertOverwrites | wrapper.py:119 | two records with one identity leave only the second (replace, no merge) |
| DeviceTable.KeyedRecordsHaveIdentity | wrapper.py:117-119 | every stored record has a usable identity |
| DeviceTable.CountOk | wrapper.py:128-134 | the number of successful writes is at most the number attempted |
| DeviceTable.CountOkStep | wrapper.py:130-132 | one more write attempt raises the count by one exactly when it succeeds |
| DeviceTable.CountOkAll | wrapper.py:128-134 | the count equals the batch size iff every write succeeds |
| DeviceTable.CountOkOneFailure | wrapper.py:129-134 | one failed write lowers the count by exactly one; the other writes still count |
| Pipeline.UpsertValues | wrapper.py:119 | after ingesting, the table holds only old records and the new one |
| Pipeline.BuiltAppend | wrapper.py:129-131 | appending a schema-built point for a record with an identity keeps the sent-points invariant |
| Pipeline.EnumeratedStayIn | wrapper.py:125 | the records of a flush come from the table |
| Pipeline.Reports | wrapper.py:123-136 | the line prints a "Flushed" report: a flush is due and the ingested table is non-empty. `Pipeline.Gateway.Step` proves the loop body reports exactly then |
| Pipeline.Advance | wrapper.py:112-138 | one pass of the loop on table and timer: ingest, then on a due line an empty table and the timer set to the line's clock. `Pipeline.Gateway.Step` proves the loop body moves its state this way, and `Pipeline.TraceAfterFlush` states the due case |
| Pipeline.Trace | wrapper.py:111-138 | the reference run of the loop on the table and timer: one state per line read, plus the final state, starting from an empty table and the start time |
| Pipeline.TraceStep | wrapper.py:112-138 | each state of the trace is the previous one after ingesting the line (lines 114-121) and, when a flush is due, clearing the table and setting the timer to the line's clock (lines 123-138) |
| Pipeline.TraceAfterFlush | wrapper.py:123-138 | after a due line the table is empty and the timer is that line's clock reading, whatever the table held |
| Pipeline.ReportsExtend | wrapper.py:123-136 | a report that agrees with the trace for the next line extends reports that agree with it |
| Pipeline.LoopStep | wrapper.py:111-138 | one pass of the loop keeps the state on the trace and the reports in agreement with it, and keeps every stored or written record among those read |
| Pipeline.WritesGrow | wrapper.py:128-134 | later writes do not change which records the earlier flushes wrote or how many of them succeeded |
| Pipeline.WritesStep | wrapper.py:123-134 | a due line's flush writes the records of the ingested table, each once, and its report counts the successes; a line that is not due writes nothing |
| Pipeline.TailEnumerates | wrapper.py:140-145 | the records of the final flush are the last records written |
| Pipeline.Gateway.constructor | wrapper.py:101-102 | the table starts empty and the timer starts at the start time |
| Pipeline.Gateway.Ingest | wrapper.py:114-121 | the new table is `Upsert` of the old one; the table invariant is kept |
| Pipeline.Gateway.Snapshot | wrapper.py:125 | the snapshot lists every record of the table exactly once, and nothing else |
| Pipeline.Gateway.Send | wrapper.py:68-94 | one schema-built point for the record is appended to what the writer received, as write attempt number `|sent|`; the outcome is the oracle's answer to that attempt |
| Pipeline.Gateway.SendAll | wrapper.py:128-134 | one point is written per record, in order. The count is the number of successful writes; a failure does not stop the rest |
| Pipeline.Gateway.Flush | wrapper.py:124-134 | the table ends empty. One point is sent per former record, exactly once each. The returned count is the successful writes |
| Pipeline.Gateway.Tick | wrapper.py:123-138 | before the interval, nothing changes and nothing is reported. At `now - last_flush >= interval`, the table is flushed and emptied and the timer becomes `now`. A count is reported iff the table was non-empty |
| Pipeline.Gateway.Step | wrapper.py:111-138 | one line moves table and timer exactly as `Advance` says. A report comes back exactly when a flush is due and the ingested table is non-empty, and it counts the successful writes of this flush, at most the devices in it |
| Pipeline.Gateway.Feed | wrapper.py:111-138 | from a fresh gateway, reading all lines leaves table and timer at the end of `Trace`. Line `i` is reported exactly when the trace says it flushes a non-empty table. The points written are split by `cuts` into one run per line: a due line writes every record of its ingested table once, any other line writes nothing, and a report is the number of successes of its run. Every stored or written record was read |
| Pipeline.Gateway.FinalFlush | wrapper.py:140-145 | every remaining record is written exactly once, with no interval check; the table is not cleared |
| Pipeline.Run | wrapper.py:101-145 | `main` from start-up: line `i` yields a report exactly when it makes a flush due while the table holds records. The points written during the stream are split by `cuts` into one run per line: a due line writes every record of its ingested table once, any other line writes nothing, and a report is the number of successful writes of its run. After them, the table left at end of input is written, each record once, as the last points. Every point sent was built by the schema from a record that was read and has an identity |

## Left out

- Launching the scanner subprocess and iterating `readline` (lines 104-111): process I/O. The model takes the lines as a sequence.
- Stripping the line, decoding UTF-8 and calling `json.loads` (line 115): library calls. Each line's parse result is an input.
- `InfluxDBClient` and `write_api.write` (lines 30-31, 94): a network client. Each write's success is an oracle input, and the point handed over is recorded.
- Reading the environment, and converting with `int()`/`float()` (lines 10-16, 28): configuration. A setting that fails to convert raises at start-up; that is not modelled.
- The missing-credential `SystemExit` (lines 98-99): a start-up check on configuration that is not modelled.
- `time.monotonic()` (lines 102, 112): each line carries its own clock reading as an input.
- `print` of the flush count (line 136): `Tick` returns the count as its report instead.
- IEEE-754 floating point: division is on reals. NaN, infinities and `float()` overflow of huge integers are not modelled.
- Dict insertion order, for the record's `items()` and the table's `values()`: the model is order-free. `Schema.SchemaDeterminesPoint` shows the order cannot change a point, and batches are stated up to order.
- Exceptions raised while building a point (lines 130-134): building a point cannot fail in the model. Any failure is folded into the write outcome.
- Library behaviour of `Point` when serialising (empty tag values, unsupported field types): `Point` is assumed to be two last-write-wins maps.
- Nested lists and objects inside a record: only their truthiness is modelled.
