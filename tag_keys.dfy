/** The `TAG_KEYS` setting (wrapper.py lines 20-24): a comma-separated list whose
    pieces are stripped of surrounding whitespace, empty pieces dropped, and the
    rest collected into a set. `str.split(",")` and `str.strip()` are written out. */
module TagKeys {

  /** `c.isspace()` for one code point: the characters Python's `str.strip()`
      removes when called without arguments. */
  predicate IsSpace(c: char) {
    var n := c as int;
    (0x09 <= n <= 0x0D) || (0x1C <= n <= 0x20) || n == 0x85 || n == 0xA0 ||
    n == 0x1680 || (0x2000 <= n <= 0x200A) || n == 0x2028 || n == 0x2029 ||
    n == 0x202F || n == 0x205F || n == 0x3000
  }

  /** `s.split(",")`: the pieces between commas; an empty input gives one empty piece. */
  function Split(s: string): (parts: seq<string>)
    ensures |parts| >= 1
    ensures forall i :: 0 <= i < |parts| ==> ',' !in parts[i]
    decreases |s|
  {
    if s == [] then [""]
    else
      var rest := Split(s[1..]);
      if s[0] == ',' then [""] + rest
      else [[s[0]] + rest[0]] + rest[1..]
  }

  /** `",".join(parts)`, the inverse of Split. */
  function Join(parts: seq<string>): string
    requires |parts| >= 1
  {
    if |parts| == 1 then parts[0] else parts[0] + "," + Join(parts[1..])
  }

  /** Joining the pieces of a split gives the original string back. */
  lemma {:induction false} JoinSplit(s: string)
    ensures Join(Split(s)) == s
    decreases |s|
  {
    if s != [] {
      var rest := Split(s[1..]);
      JoinSplit(s[1..]);
      if s[0] == ',' {
        assert Split(s) == [""] + rest;
        assert Join([""] + rest) == "" + "," + Join(rest) by {
          assert ([""] + rest)[1..] == rest;
        }
      } else {
        assert Split(s) == [[s[0]] + rest[0]] + rest[1..];
        if |rest| == 1 {
          assert Join(Split(s)) == [s[0]] + rest[0];
        } else {
          assert ([[s[0]] + rest[0]] + rest[1..])[1..] == rest[1..];
          assert Join(rest) == rest[0] + "," + Join(rest[1..]);
        }
        assert s == [s[0]] + s[1..];
      }
    }
  }

  /** Splitting a string whose first piece `a` holds no comma. */
  lemma {:induction false} SplitPrefix(a: string, rest: string)
    requires ',' !in a
    ensures Split(a + rest) == [a + Split(rest)[0]] + Split(rest)[1..]
    decreases |a|
  {
    if a != [] {
      assert (a + rest)[1..] == a[1..] + rest;
      assert (a + rest)[0] == a[0];
      SplitPrefix(a[1..], rest);
      assert [a[0]] + (a[1..] + Split(rest)[0]) == a + Split(rest)[0];
    } else {
      assert a + rest == rest;
      assert Split(rest) == [Split(rest)[0]] + Split(rest)[1..];
      assert a + Split(rest)[0] == Split(rest)[0];
    }
  }

  /** Splitting joined comma-free pieces gives exactly those pieces back. */
  lemma {:induction false} SplitJoin(parts: seq<string>)
    requires |parts| >= 1
    requires forall i :: 0 <= i < |parts| ==> ',' !in parts[i]
    ensures Split(Join(parts)) == parts
    decreases |parts|
  {
    if |parts| == 1 {
      SplitPrefix(parts[0], "");
      assert parts[0] + "" == parts[0];
    } else {
      var tail := Join(parts[1..]);
      SplitJoin(parts[1..]);
      assert parts[0] + "," + tail == parts[0] + ("," + tail);
      SplitPrefix(parts[0], "," + tail);
      assert ("," + tail)[1..] == tail;
      assert Split("," + tail) == [""] + Split(tail);
      assert parts[0] + "" == parts[0];
    }
  }

  /** Number of whitespace characters at the start of `s`. */
  function LeadingSpace(s: string): (n: nat)
    ensures n <= |s|
    ensures forall j :: 0 <= j < n ==> IsSpace(s[j])
    ensures n < |s| ==> !IsSpace(s[n])
  {
    if s == [] || !IsSpace(s[0]) then 0 else 1 + LeadingSpace(s[1..])
  }

  /** Number of whitespace characters at the end of `s`. */
  function TrailingSpace(s: string): (n: nat)
    ensures n <= |s|
    ensures forall j :: |s| - n <= j < |s| ==> IsSpace(s[j])
    ensures n < |s| ==> !IsSpace(s[|s| - 1 - n])
  {
    if s == [] || !IsSpace(s[|s| - 1]) then 0 else 1 + TrailingSpace(s[..|s| - 1])
  }

  /** `s.strip()`: the longest whitespace prefix and suffix removed. The result is
      the slice starting after the leading whitespace, every character outside it is
      whitespace, and it neither starts nor ends with whitespace. */
  function Strip(s: string): (r: string)
    ensures |r| <= |s|
    ensures LeadingSpace(s) + |r| <= |s| && r == s[LeadingSpace(s)..LeadingSpace(s) + |r|]
    ensures forall j :: 0 <= j < LeadingSpace(s) ==> IsSpace(s[j])
    ensures forall j :: LeadingSpace(s) + |r| <= j < |s| ==> IsSpace(s[j])
    ensures r != [] ==> !IsSpace(r[0]) && !IsSpace(r[|r| - 1])
  {
    var lead := LeadingSpace(s);
    var body := s[lead..];
    var trail := TrailingSpace(body);
    var r := s[lead..|s| - trail];
    assert |r| == |body| - trail;
    assert r != [] ==> r[0] == body[0] && r[|r| - 1] == body[|body| - 1 - trail];
    assert forall j :: lead + |r| <= j < |s| ==> s[j] == body[j - lead];
    r
  }

  /** A piece of the setting after stripping holds no comma. */
  lemma StripKeepsNoComma(p: string)
    requires ',' !in p
    ensures ',' !in Strip(p)
  {
    var r := Strip(p);
    var lead := LeadingSpace(p);
    forall j | 0 <= j < |r| ensures r[j] != ',' {
      assert r[j] == p[lead + j];
    }
  }

  /** The set `TAG_KEYS` built from the raw setting. */
  function ParseTagKeys(raw: string): (keys: set<string>)
    ensures forall k :: k in keys ==> k != "" && ',' !in k
    ensures forall k :: k in keys ==> !IsSpace(k[0]) && !IsSpace(k[|k| - 1])
  {
    var parts := Split(raw);
    forall p | p in parts ensures ',' !in Strip(p) {
      StripKeepsNoComma(p);
    }
    set p | p in parts && Strip(p) != "" :: Strip(p)
  }

  /** A name is a tag key exactly when one comma-separated piece of the setting
      strips to it and it is not empty. */
  lemma ParseTagKeysMembership(parts: seq<string>, k: string)
    requires |parts| >= 1
    requires forall i :: 0 <= i < |parts| ==> ',' !in parts[i]
    ensures k in ParseTagKeys(Join(parts)) <==> k != "" && exists i :: 0 <= i < |parts| && Strip(parts[i]) == k
  {
    SplitJoin(parts);
  }

  /** A piece without surrounding whitespace is kept as it is. */
  lemma StripUnpadded(s: string)
    requires s != [] && !IsSpace(s[0]) && !IsSpace(s[|s| - 1])
    ensures Strip(s) == s
  {
    assert LeadingSpace(s) == 0;
    assert s[0..] == s;
    assert TrailingSpace(s) == 0;
  }

  /** The tag keys of comma-free pieces joined together. */
  lemma TagKeysOfPieces(parts: seq<string>)
    requires |parts| >= 1
    requires forall i :: 0 <= i < |parts| ==> ',' !in parts[i]
    ensures ParseTagKeys(Join(parts)) == set p | p in parts && Strip(p) != "" :: Strip(p)
  {
    SplitJoin(parts);
  }

  /** Pieces that are non-empty and unpadded are the tag keys themselves. */
  lemma TagKeysOfUnpadded(parts: seq<string>)
    requires |parts| >= 1
    requires forall i :: 0 <= i < |parts| ==> ',' !in parts[i]
    requires forall i :: 0 <= i < |parts| ==> parts[i] != [] && !IsSpace(parts[i][0]) && !IsSpace(parts[i][|parts[i]| - 1])
    ensures forall k :: k in ParseTagKeys(Join(parts)) <==> k in parts
  {
    TagKeysOfPieces(parts);
    forall p | p in parts ensures Strip(p) == p {
      StripUnpadded(p);
    }
  }

  /** The pieces of the default setting `"mac,uuid,addr,peer,color,model"`. */
  const DefaultPieces: seq<string> := ["mac", "uuid", "addr", "peer", "color", "model"]

  /** The default `TAG_KEYS` setting. */
  const DefaultSetting: string := "mac,uuid,addr,peer,color,model"

  /** The default setting gives the six identity and dimension keys, and no other. */
  lemma DefaultTagKeys()
    ensures forall k :: k in ParseTagKeys(DefaultSetting) <==> k in {"mac", "uuid", "addr", "peer", "color", "model"}
  {
    DefaultSettingJoinsPieces();
    TagKeysOfUnpadded(DefaultPieces);
    DefaultPiecesAreTheKeys();
  }

  /** The default setting is its six pieces joined by commas, shown two pieces
      at a time from the end. */
  lemma DefaultSettingJoinsPieces()
    ensures Join(DefaultPieces) == DefaultSetting
  {
    JoinLastFive();
    assert DefaultPieces[1..] == ["uuid", "addr", "peer", "color", "model"];
  }

  lemma JoinLastFive()
    ensures Join(["uuid", "addr", "peer", "color", "model"]) == "uuid,addr,peer,color,model"
  {
    JoinLastFour();
    var ps := ["uuid", "addr", "peer", "color", "model"];
    assert ps[1..] == ["addr", "peer", "color", "model"];
  }

  lemma JoinLastFour()
    ensures Join(["addr", "peer", "color", "model"]) == "addr,peer,color,model"
  {
    JoinLastTwo();
    var ps := ["addr", "peer", "color", "model"];
    assert ps[1..] == ["peer", "color", "model"] && ps[1..][1..] == ["color", "model"];
    assert Join(ps[1..]) == "peer" + "," + "color,model";
    assert Join(ps) == "addr" + "," + "peer,color,model";
  }

  lemma JoinLastTwo()
    ensures Join(["color", "model"]) == "color,model"
  {
    var ps := ["color", "model"];
    assert ps[1..] == ["model"];
    assert Join(ps) == "color" + "," + "model";
  }

  lemma DefaultPiecesAreTheKeys()
    ensures forall k :: k in DefaultPieces <==> k in {"mac", "uuid", "addr", "peer", "color", "model"}
  {
  }
}
