/** The InfluxDB `Point` builder the wrapper uses. `Point` itself is library code;
    it is modelled as a measurement name and two maps in which a later `tag` or
    `field` call for the same key replaces the earlier value. */
module Points {
  import opened PyValues

  datatype Point = Point(measurement: string, tags: map<string, string>, fields: map<string, Value>) {

    /** `point.tag(k, v)` */
    function Tag(k: string, v: string): Point {
      this.(tags := tags[k := v])
    }

    /** `point.field(k, v)` */
    function Field(k: string, v: Value): Point {
      this.(fields := fields[k := v])
    }
  }

  /** `Point(name)`: no tags, no fields. */
  function NewPoint(name: string): Point {
    Point(name, map[], map[])
  }
}
