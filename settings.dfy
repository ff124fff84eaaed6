/** The settings read from the environment at start-up (wrapper.py lines 15-28).
    `os.getenv(NAME, default)` yields the default only when the variable is unset;
    a variable that is set is taken as it is, an empty `TAG_KEYS` giving no tag
    keys at all. The numeric settings arrive already converted by `int()` and
    `float()`. */
module Settings {
  import opened PyValues
  import opened TagKeys

  datatype Config = Config(
    keyField: string,        // DEVICE_KEY_FIELD
    tagKeys: set<string>,    // TAG_KEYS
    hdThreshold: int,        // HD_MINOR_THRESHOLD
    interval: real)          // SEND_INTERVAL_SEC

  /** `os.getenv(name, default)` */
  function GetEnv<T>(setting: Option<T>, default: T): T {
    if setting.Some? then setting.value else default
  }

  function Load(keyField: Option<string>, tagKeys: Option<string>, hdThreshold: Option<int>, interval: Option<real>): Config {
    Config(GetEnv(keyField, "mac"), ParseTagKeys(GetEnv(tagKeys, DefaultSetting)),
           GetEnv(hdThreshold, 2000), GetEnv(interval, 60.0))
  }

  /** With nothing set: identity from `mac`, the six identity and dimension keys as
      tag keys, the HD threshold 2000 and a flush every 60 seconds. */
  lemma DefaultConfig()
    ensures var c := Load(None, None, None, None);
      && c.keyField == "mac" && c.hdThreshold == 2000 && c.interval == 60.0
      && (forall k :: k in c.tagKeys <==> k in {"mac", "uuid", "addr", "peer", "color", "model"})
  {
    DefaultTagKeys();
  }

  /** A `TAG_KEYS` that is set but empty overrides the default: every string
      then becomes a field. */
  lemma EmptyTagKeysSetting()
    ensures Load(None, Some(""), None, None).tagKeys == {}
  {
    assert Split("") == [""];
    assert Strip("") == "";
  }
}
