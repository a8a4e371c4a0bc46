/**
 * The four container decoders of decencode.js in the form the source gives
 * them: a loop that moves a cursor `items` along the input and adds each
 * decoded element to a fresh container. Each is proved to compute the
 * corresponding function of module Codec.
 */
module CodecLoops {
  import opened Codec

  /** `decodeArray`: push elements until `.` or the end of the input. */
  method DecodeArray(plugins: set<string>, x: string) returns (r: Result<Parsed<Value>>)
    ensures r == Codec.DecodeArray(plugins, x)
  {
    var elements: seq<Value> := [];
    var items := x;
    while items != [] && items[0] != '.'
      invariant ArrayItems(plugins, elements, items) == ArrayItems(plugins, [], x)
      decreases |items|
    {
      var decoded := Decode(plugins, items);
      if decoded.Err? {
        return Err(decoded.error);
      }
      elements := elements + [decoded.value.value];
      items := decoded.value.rest;
    }
    return Ok(Parsed(Array(elements), Skip1(items)));
  }

  /** `decodeSet`: add elements until `.` or the end of the input. */
  method DecodeSet(plugins: set<string>, x: string) returns (r: Result<Parsed<Value>>)
    ensures r == Codec.DecodeSet(plugins, x)
  {
    var members: seq<Value> := [];
    var items := x;
    while items != [] && items[0] != '.'
      invariant ArrayItems(plugins, members, items) == ArrayItems(plugins, [], x)
      decreases |items|
    {
      var decoded := Decode(plugins, items);
      if decoded.Err? {
        return Err(decoded.error);
      }
      members := members + [decoded.value.value];
      items := decoded.value.rest;
    }
    return Ok(Parsed(Set(members), Skip1(items)));
  }

  /** `decodeMap`: read a key and a value, `set` them, until `.` or the end of the input. */
  method DecodeMap(plugins: set<string>, x: string) returns (r: Result<Parsed<Value>>)
    ensures r == Codec.DecodeMap(plugins, x)
  {
    var entries: seq<(Value, Value)> := [];
    var items := x;
    while items != [] && items[0] != '.'
      invariant MapItems(plugins, entries, items) == MapItems(plugins, [], x)
      decreases |items|
    {
      var key := Decode(plugins, items);
      if key.Err? {
        return Err(key.error);
      }
      var value := Decode(plugins, key.value.rest);
      if value.Err? {
        return Err(value.error);
      }
      entries := entries + [(key.value.value, value.value.value)];
      items := value.value.rest;
    }
    return Ok(Parsed(Map(entries), Skip1(items)));
  }

  /** `decodeObject`: read a string key and a value, assign the property, until `.`
      or the end of the input. */
  method DecodeObject(plugins: set<string>, x: string) returns (r: Result<Parsed<Value>>)
    ensures r == Codec.DecodeObject(plugins, x)
  {
    var props: seq<(string, Value)> := [];
    var items := x;
    while items != [] && items[0] != '.'
      invariant ObjectItems(plugins, props, items) == ObjectItems(plugins, [], x)
      decreases |items|
    {
      var key := DecodeString(items);
      if key.Err? {
        return Err(key.error);
      }
      var value := Decode(plugins, key.value.rest);
      if value.Err? {
        return Err(value.error);
      }
      props := Put(props, key.value.value, value.value.value);
      items := value.value.rest;
    }
    return Ok(Parsed(Object(props), Skip1(items)));
  }
}
