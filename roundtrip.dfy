/**
 * Decoding inverts the reference encoder of module Encoding: every rule of
 * the decoder reads back exactly what the encoder wrote and leaves the rest
 * of the input untouched.
 */
module RoundTrip {
  import opened Codec
  import opened Encoding
  import opened CodecProps

  // ---------------------------------------------------------------------------
  // Numbers

  /** The table applied to lower-case digit letters. */
  function LowerHex(s: string): (hex: string)
    requires forall i :: 0 <= i < |s| ==> IsLowerDigit(s[i])
    ensures |hex| == |s| && forall i :: 0 <= i < |hex| ==> IsHexChar(hex[i])
  {
    seq(|s|, i requires 0 <= i < |s| => MapHexDecode(s[i]))
  }

  lemma ParseHexSnoc(s: string, h: char)
    requires forall i :: 0 <= i < |s| ==> IsHexChar(s[i])
    requires IsHexChar(h)
    ensures ParseHex(s + [h]) == 16 * ParseHex(s) + HexCharValue(h)
  {
    assert (s + [h])[..|s|] == s;
  }

  lemma {:induction false} LettersValue(m: nat)
    ensures ParseHex(LowerHex(Letters(m))) == m
  {
    if m > 0 {
      LettersValue(m / 16);
      var c := DigitLetter(m % 16);
      assert LowerHex(Letters(m)) == LowerHex(Letters(m / 16)) + [MapHexDecode(c)];
      ParseHexSnoc(LowerHex(Letters(m / 16)), MapHexDecode(c));
    }
  }

  /** Mapping the encoding of `n` through the table gives hexadecimal digits whose value is `n`. */
  lemma EncodeNatValue(n: nat)
    ensures ParseHex(MapDigits(EncodeNat(n))) == n
  {
    var prefix := Letters(n / 16);
    var c := DigitLetter(n % 16);
    assert MapDigits(EncodeNat(n)) == LowerHex(prefix) + [MapHexDecode(c)];
    LettersValue(n / 16);
    ParseHexSnoc(LowerHex(prefix), MapHexDecode(c));
  }

  /** The run match stops exactly at the end of an encoded run. */
  lemma RunMatchPrefix(run: string, rest: string, decimal: bool)
    requires IsRun(run, decimal)
    ensures RunMatch(run + rest, decimal) == |run|
    ensures (run + rest)[..|run|] == run && (run + rest)[|run|..] == rest
  {
    RunMatchExact(run + rest, decimal);
    assert (run + rest)[..|run|] == run;
  }

  /** `decodeInteger` reads back the encoding of `n`, with either sign. */
  lemma DecodeEncodeNat(n: nat, rest: string, negative: bool)
    requires NoLineBreak(rest)
    ensures DecodeInteger(EncodeNat(n) + rest, negative) == Ok(Parsed(if negative then -(n as int) else n as int, rest))
  {
    RunMatchPrefix(EncodeNat(n), rest, false);
    EncodeNatValue(n);
  }

  /** `decodeString` reads back a length-prefixed string. */
  lemma DecodeEncodeString(s: string, rest: string)
    requires NoLineBreak(s) && NoLineBreak(rest)
    ensures DecodeString(EncodeString(s) + rest) == Ok(Parsed(s, rest))
  {
    NoLineBreakConcat(s, rest);
    assert EncodeString(s) + rest == EncodeNat(|s|) + (s + rest);
    DecodeEncodeNat(|s|, s + rest, false);
    assert (s + rest)[..|s|] == s && (s + rest)[|s|..] == rest;
  }

  /** Mapping a float run through the table gives back its decimal digits. */
  lemma DecimalRunValue(d: string)
    requires IsDecimalString(d)
    ensures MapDigits(DecimalRunOf(d)) == d
  {
    var run := DecimalRunOf(d);
    forall i | 0 <= i < |d| ensures MapDigits(run)[i] == d[i] {
      if i < |d| - 1 {
        assert run[i] == DecimalLetter(d[i]);
      } else {
        assert run[i] == Terminator(DecimalLetter(d[i]));
      }
    }
  }

  /** `decodeFloat` reads back two float runs. */
  lemma DecodeEncodeFloat(negative: bool, a: string, b: string, rest: string)
    requires IsDecimalString(a) && IsDecimalString(b) && NoLineBreak(rest)
    ensures DecodeFloat(DecimalRunOf(a) + DecimalRunOf(b) + rest, negative) == Ok(Parsed(Float(negative, a, b), rest))
  {
    var x := DecimalRunOf(a) + DecimalRunOf(b) + rest;
    assert x == DecimalRunOf(a) + (DecimalRunOf(b) + rest);
    RunMatchPrefix(DecimalRunOf(a), DecimalRunOf(b) + rest, true);
    RunMatchPrefix(DecimalRunOf(b), rest, true);
    DecimalRunValue(a);
    DecimalRunValue(b);
  }

  // ---------------------------------------------------------------------------
  // Shape of encodings

  /** An encoding is never empty and never starts with the terminator `.`. */
  lemma EncodeHead(v: Value)
    ensures |Encode(v)| > 0 && Encode(v)[0] != '.'
  {
    match v
    case Str(s) => assert Encode(v)[0] == EncodeNat(|s|)[0];
    case _ =>
  }

  lemma {:induction false} EncodeNoLineBreak(v: Value)
    requires Encodable(v)
    ensures NoLineBreak(Encode(v))
    decreases v
  {
    match v
    case Float(negative, a, b) => NoLineBreakConcat(DecimalRunOf(a), DecimalRunOf(b));
    case Array(vs) => EncodeAllNoLineBreak(vs);
    case Set(vs) => EncodeAllNoLineBreak(vs);
    case Map(es) => EncodeEntriesNoLineBreak(es);
    case Object(ps) => EncodePropsNoLineBreak(ps);
    case Ext(name, args) =>
      EncodeAllNoLineBreak(args);
      NoLineBreakConcat(EncodeString(name), EncodeAll(args));
    case _ =>
  }

  lemma {:induction false} EncodeAllNoLineBreak(vs: seq<Value>)
    requires forall i :: 0 <= i < |vs| ==> Encodable(vs[i])
    ensures NoLineBreak(EncodeAll(vs))
    decreases vs
  {
    if vs != [] {
      EncodeNoLineBreak(vs[0]);
      EncodeAllNoLineBreak(vs[1..]);
      NoLineBreakConcat(Encode(vs[0]), EncodeAll(vs[1..]));
    }
  }

  lemma {:induction false} EncodeEntriesNoLineBreak(es: seq<(Value, Value)>)
    requires forall i :: 0 <= i < |es| ==> Encodable(es[i].0) && Encodable(es[i].1)
    ensures NoLineBreak(EncodeEntries(es))
    decreases es
  {
    if es != [] {
      var entry := es[0];
      assert entry.0 < entry && entry.1 < entry;
      EncodeNoLineBreak(entry.0);
      EncodeNoLineBreak(entry.1);
      EncodeEntriesNoLineBreak(es[1..]);
      NoLineBreakConcat(Encode(entry.0), Encode(entry.1));
      NoLineBreakConcat(Encode(entry.0) + Encode(entry.1), EncodeEntries(es[1..]));
    }
  }

  lemma {:induction false} EncodePropsNoLineBreak(ps: seq<(string, Value)>)
    requires forall i :: 0 <= i < |ps| ==> NoLineBreak(ps[i].0) && Encodable(ps[i].1)
    ensures NoLineBreak(EncodeProps(ps))
    decreases ps
  {
    if ps != [] {
      var prop := ps[0];
      assert prop.1 < prop;
      EncodeNoLineBreak(prop.1);
      EncodePropsNoLineBreak(ps[1..]);
      NoLineBreakConcat(EncodeString(prop.0), Encode(prop.1));
      NoLineBreakConcat(EncodeString(prop.0) + Encode(prop.1), EncodeProps(ps[1..]));
    }
  }

  // ---------------------------------------------------------------------------
  // Values

  lemma AfterTag(tag: char, body: string, rest: string)
    requires !IsLineTerminator(tag)
    ensures (Tagged(tag, body) + rest)[0] == tag
    ensures (Tagged(tag, body) + rest)[1..] == body + rest
  {
    assert Tagged(tag, body) + rest == [tag] + (body + rest);
  }

  lemma {:induction false} AfterContainer(tag: char, elements: string, rest: string)
    requires !IsLineTerminator(tag)
    ensures var x := Container(tag, elements) + rest;
      x != [] && x[0] == tag && x[1..] == elements + ("." + rest)
  {
    assert Container(tag, elements) + rest == [tag] + (elements + ("." + rest));
  }

  function Magnitude(i: int): nat {
    if i < 0 then -i else i
  }

  /** A tagged integer whose letters encode the magnitude of `i`. */
  lemma {:induction false} DecodeTaggedInt(plugins: set<string>, x: string, i: int, rest: string)
    requires NoLineBreak(rest)
    requires x != [] && x[0] == (if i < 0 then 'X' else 'x') && x[1..] == EncodeNat(Magnitude(i)) + rest
    ensures Decode(plugins, x) == Ok(Parsed(Int(i), rest))
  {
    DispatchInteger(plugins, x);
    DecodeEncodeNat(Magnitude(i), rest, i < 0);
  }

  /** The text of an integer: its sign tag, then the encoding of its magnitude. */
  lemma {:induction false} IntShape(i: int, rest: string)
    ensures var x := Encode(Int(i)) + rest;
      x != [] && x[0] == (if i < 0 then 'X' else 'x') && x[1..] == EncodeNat(Magnitude(i)) + rest
  {
    if i < 0 {
      var e := Encode(Int(i));
      assert e == Tagged('X', EncodeNat(-i));
      AfterTag('X', EncodeNat(-i), rest);
    } else {
      var e := Encode(Int(i));
      assert e == Tagged('x', EncodeNat(i));
      AfterTag('x', EncodeNat(i), rest);
    }
  }

  lemma {:induction false} DecodeEncodeInt(plugins: set<string>, i: int, rest: string)
    requires NoLineBreak(rest)
    ensures Decode(plugins, Encode(Int(i)) + rest) == Ok(Parsed(Int(i), rest))
  {
    IntShape(i, rest);
    DecodeTaggedInt(plugins, Encode(Int(i)) + rest, i, rest);
  }

  lemma DecodeEncodeFloatValue(plugins: set<string>, negative: bool, a: string, b: string, rest: string)
    requires IsDecimalString(a) && IsDecimalString(b) && NoLineBreak(rest)
    ensures Decode(plugins, Encode(Float(negative, a, b)) + rest) == Ok(Parsed(Float(negative, a, b), rest))
  {
    AfterTag(if negative then 'Q' else 'q', DecimalRunOf(a) + DecimalRunOf(b), rest);
    DispatchFloat(plugins, Encode(Float(negative, a, b)) + rest);
    DecodeEncodeFloat(negative, a, b, rest);
  }

  lemma DecodeEncodeStr(plugins: set<string>, s: string, rest: string)
    requires NoLineBreak(s) && NoLineBreak(rest)
    ensures Decode(plugins, Encode(Str(s)) + rest) == Ok(Parsed(Str(s), rest))
  {
    var x := Encode(Str(s)) + rest;
    assert x[0] == EncodeNat(|s|)[0];
    DispatchString(plugins, x);
    DecodeEncodeString(s, rest);
  }

  lemma DecodeEncodeBuf(plugins: set<string>, t: string, rest: string)
    requires NoLineBreak(t) && NoLineBreak(rest)
    ensures Decode(plugins, Encode(Buf(t)) + rest) == Ok(Parsed(Buf(t), rest))
  {
    AfterTag('v', EncodeString(t), rest);
    DispatchBuffer(plugins, Encode(Buf(t)) + rest);
    DecodeEncodeString(t, rest);
  }

  lemma DecodeEncodeDate(plugins: set<string>, ms: nat, rest: string)
    requires NoLineBreak(rest)
    ensures Decode(plugins, Encode(Date(ms)) + rest) == Ok(Parsed(Date(ms), rest))
  {
    AfterTag('Z', EncodeNat(ms), rest);
    DispatchDate(plugins, Encode(Date(ms)) + rest);
    DecodeEncodeNat(ms, rest, false);
  }

  /** The constants are one character each. */
  lemma DecodeEncodeConstant(plugins: set<string>, v: Value, rest: string)
    requires v.Bool? || v.NaN? || v.NegInfinity? || v.PosInfinity? || v.Undefined? || v.Null?
    ensures Decode(plugins, Encode(v) + rest) == Ok(Parsed(v, rest))
  {
    assert (Encode(v) + rest)[1..] == rest;
  }

  /** Decoding the encoding of a well-formed value gives the value back and leaves
      whatever follows it untouched. */
  lemma {:induction false} DecodeEncode(plugins: set<string>, v: Value, rest: string)
    requires WellFormed(plugins, v) && NoLineBreak(rest)
    ensures Decode(plugins, Encode(v) + rest) == Ok(Parsed(v, rest))
    decreases v, 1
  {
    match v
    case Int(i) => DecodeEncodeInt(plugins, i, rest);
    case Float(negative, a, b) => DecodeEncodeFloatValue(plugins, negative, a, b, rest);
    case Str(s) => DecodeEncodeStr(plugins, s, rest);
    case Buf(t) => DecodeEncodeBuf(plugins, t, rest);
    case Date(ms) => DecodeEncodeDate(plugins, ms, rest);
    case Array(vs) => DecodeEncodeArray(plugins, vs, rest);
    case Set(vs) => DecodeEncodeSet(plugins, vs, rest);
    case Map(es) => DecodeEncodeMap(plugins, es, rest);
    case Object(ps) => DecodeEncodeObject(plugins, ps, rest);
    case Ext(name, args) => DecodeEncodeExt(plugins, name, args, rest);
    case _ => DecodeEncodeConstant(plugins, v, rest);
  }

  /** The text of an array: its tag, then its elements and the terminator. */
  lemma {:induction false} ArrayShape(vs: seq<Value>, rest: string)
    ensures var x := Encode(Array(vs)) + rest;
      x != [] && x[0] == '_' && x[1..] == EncodeAll(vs) + ("." + rest)
  {
    var e := Encode(Array(vs));
    assert e == Container('_', EncodeAll(vs));
    AfterContainer('_', EncodeAll(vs), rest);
  }

  lemma {:induction false} SetShape(vs: seq<Value>, rest: string)
    ensures var x := Encode(Set(vs)) + rest;
      x != [] && x[0] == 's' && x[1..] == EncodeAll(vs) + ("." + rest)
  {
    var e := Encode(Set(vs));
    assert e == Container('s', EncodeAll(vs));
    AfterContainer('s', EncodeAll(vs), rest);
  }

  lemma {:induction false} MapShape(es: seq<(Value, Value)>, rest: string)
    ensures var x := Encode(Map(es)) + rest;
      x != [] && x[0] == 'S' && x[1..] == EncodeEntries(es) + ("." + rest)
  {
    var e := Encode(Map(es));
    assert e == Container('S', EncodeEntries(es));
    AfterContainer('S', EncodeEntries(es), rest);
  }

  lemma {:induction false} ObjectShape(ps: seq<(string, Value)>, rest: string)
    ensures var x := Encode(Object(ps)) + rest;
      x != [] && x[0] == '(' && x[1..] == EncodeProps(ps) + ("." + rest)
  {
    var e := Encode(Object(ps));
    assert e == Container('(', EncodeProps(ps));
    AfterContainer('(', EncodeProps(ps), rest);
  }

  lemma {:induction false} DecodeEncodeArray(plugins: set<string>, vs: seq<Value>, rest: string)
    requires WellFormed(plugins, Array(vs)) && NoLineBreak(rest)
    ensures Decode(plugins, Encode(Array(vs)) + rest) == Ok(Parsed(Array(vs), rest))
    decreases Array(vs), 0
  {
    ArrayShape(vs, rest);
    DispatchArray(plugins, Encode(Array(vs)) + rest);
    ClosedItems(plugins, vs, rest);
    ArrayOf(plugins, EncodeAll(vs) + ("." + rest), vs, rest);
  }

  /** The elements of a container, closed by `.`, read back by the element loop. */
  lemma {:induction false} ClosedItems(plugins: set<string>, vs: seq<Value>, rest: string)
    requires forall i :: 0 <= i < |vs| ==> WellFormed(plugins, vs[i])
    requires NoLineBreak(rest)
    ensures ArrayItems(plugins, [], EncodeAll(vs) + ("." + rest)) == Ok(Parsed(vs, rest))
    decreases vs, 1
  {
    NoLineBreakConcat(".", rest);
    ArrayItemsEncode(plugins, [], vs, "." + rest);
    assert [] + vs == vs;
    ItemsClose(plugins, rest);
  }

  lemma {:induction false} DecodeEncodeSet(plugins: set<string>, vs: seq<Value>, rest: string)
    requires WellFormed(plugins, Set(vs)) && NoLineBreak(rest)
    ensures Decode(plugins, Encode(Set(vs)) + rest) == Ok(Parsed(Set(vs), rest))
    decreases Set(vs), 0
  {
    SetShape(vs, rest);
    DispatchSet(plugins, Encode(Set(vs)) + rest);
    ClosedItems(plugins, vs, rest);
    SetOf(plugins, EncodeAll(vs) + ("." + rest), vs, rest);
  }

  lemma {:induction false} DecodeEncodeMap(plugins: set<string>, es: seq<(Value, Value)>, rest: string)
    requires WellFormed(plugins, Map(es)) && NoLineBreak(rest)
    ensures Decode(plugins, Encode(Map(es)) + rest) == Ok(Parsed(Map(es), rest))
    decreases Map(es), 0
  {
    MapShape(es, rest);
    DispatchMap(plugins, Encode(Map(es)) + rest);
    NoLineBreakConcat(".", rest);
    MapItemsEncode(plugins, [], es, "." + rest);
    assert [] + es == es;
    ItemsClose(plugins, rest);
    MapOf(plugins, EncodeEntries(es) + ("." + rest), es, rest);
  }

  /** What a well-formed object demands of its properties. */
  lemma {:induction false} ObjectWellFormed(plugins: set<string>, ps: seq<(string, Value)>)
    requires WellFormed(plugins, Object(ps))
    ensures DistinctKeys([] + ps)
    ensures forall i :: 0 <= i < |ps| ==> NoLineBreak(ps[i].0) && WellFormed(plugins, ps[i].1)
  {
    assert [] + ps == ps;
  }

  lemma {:induction false} DecodeEncodeObject(plugins: set<string>, ps: seq<(string, Value)>, rest: string)
    requires WellFormed(plugins, Object(ps)) && NoLineBreak(rest)
    ensures Decode(plugins, Encode(Object(ps)) + rest) == Ok(Parsed(Object(ps), rest))
    decreases Object(ps), 0
  {
    ObjectShape(ps, rest);
    DispatchObject(plugins, Encode(Object(ps)) + rest);
    ObjectWellFormed(plugins, ps);
    NoLineBreakConcat(".", rest);
    ObjectItemsEncode(plugins, [], ps, "." + rest);
    assert [] + ps == ps;
    ItemsClose(plugins, rest);
    ObjectOf(plugins, EncodeProps(ps) + ("." + rest), ps, rest);
  }

  /** The text of an extension: its tag, then its name and its arguments. */
  lemma {:induction false} ExtShape(name: string, args: seq<Value>, rest: string)
    ensures var x := Encode(Ext(name, args)) + rest;
      x != [] && x[0] == ')' && x[1..] == EncodeString(name) + (EncodeAll(args) + ("." + rest))
  {
    var body := EncodeString(name) + EncodeAll(args);
    var e := Encode(Ext(name, args));
    assert e == Container(')', body);
    AfterContainer(')', body, rest);
    assert body + ("." + rest) == EncodeString(name) + (EncodeAll(args) + ("." + rest));
  }

  lemma {:induction false} DecodeEncodeExt(plugins: set<string>, name: string, args: seq<Value>, rest: string)
    requires WellFormed(plugins, Ext(name, args)) && NoLineBreak(rest)
    ensures Decode(plugins, Encode(Ext(name, args)) + rest) == Ok(Parsed(Ext(name, args), rest))
    decreases Ext(name, args), 0
  {
    var after := EncodeAll(args) + ("." + rest);
    ExtShape(name, args, rest);
    EncodeAllNoLineBreak(args);
    NoLineBreakConcat(".", rest);
    NoLineBreakConcat(EncodeAll(args), "." + rest);
    DecodeEncodeString(name, after);
    ClosedItems(plugins, args, rest);
    assert DecodeString(EncodeString(name) + after) == Ok(Parsed(name, after));
    PluginStep(plugins, Encode(Ext(name, args)) + rest, name, after, args, rest);
  }

  lemma ConsSplit<T>(acc: seq<T>, s: seq<T>)
    requires s != []
    ensures acc + [s[0]] + s[1..] == acc + s
  {
    assert s == [s[0]] + s[1..];
  }

  lemma {:induction false} EncodeAllCons(vs: seq<Value>, t: string)
    requires vs != []
    ensures EncodeAll(vs) + t == Encode(vs[0]) + (EncodeAll(vs[1..]) + t)
  {
  }

  lemma {:induction false} EncodeEntriesCons(es: seq<(Value, Value)>, t: string)
    requires es != []
    ensures EncodeEntries(es) + t == Encode(es[0].0) + (Encode(es[0].1) + (EncodeEntries(es[1..]) + t))
  {
  }

  lemma {:induction false} EncodePropsCons(ps: seq<(string, Value)>, t: string)
    requires ps != []
    ensures EncodeProps(ps) + t == EncodeString(ps[0].0) + (Encode(ps[0].1) + (EncodeProps(ps[1..]) + t))
  {
  }

  /** A run of properties starts with the first letter of its first key's length. */
  lemma {:induction false} EncodePropsHead(ps: seq<(string, Value)>, t: string)
    requires ps != []
    ensures (EncodeProps(ps) + t)[0] == EncodeNat(|ps[0].0|)[0]
  {
    var key := EncodeNat(|ps[0].0|);
    var tail := ps[0].0 + (Encode(ps[0].1) + (EncodeProps(ps[1..]) + t));
    EncodePropsCons(ps, t);
    assert EncodeProps(ps) + t == key + tail;
    assert (key + tail)[0] == key[0];
  }

  /** The element loop reads back a run of encoded elements. */
  lemma {:induction false} ArrayItemsEncode(plugins: set<string>, acc: seq<Value>, vs: seq<Value>, t: string)
    requires forall i :: 0 <= i < |vs| ==> WellFormed(plugins, vs[i])
    requires NoLineBreak(t)
    ensures ArrayItems(plugins, acc, EncodeAll(vs) + t) == ArrayItems(plugins, acc + vs, t)
    decreases vs, 0
  {
    if vs == [] {
      assert EncodeAll(vs) + t == t && acc + vs == acc;
    } else {
      var after := EncodeAll(vs[1..]) + t;
      EncodeAllCons(vs, t);
      EncodeHead(vs[0]);
      EncodeAllNoLineBreak(vs[1..]);
      NoLineBreakConcat(EncodeAll(vs[1..]), t);
      DecodeEncode(plugins, vs[0], after);
      ArrayItemsStep(plugins, acc, EncodeAll(vs) + t, vs[0], after);
      ArrayItemsEncode(plugins, acc + [vs[0]], vs[1..], t);
      ConsSplit(acc, vs);
    }
  }

  /** The loop of a map reads back a run of encoded key-value pairs. */
  lemma {:induction false} MapItemsEncode(plugins: set<string>, acc: seq<(Value, Value)>, es: seq<(Value, Value)>, t: string)
    requires forall i :: 0 <= i < |es| ==> WellFormed(plugins, es[i].0) && WellFormed(plugins, es[i].1)
    requires NoLineBreak(t)
    ensures MapItems(plugins, acc, EncodeEntries(es) + t) == MapItems(plugins, acc + es, t)
    decreases es
  {
    if es == [] {
      assert EncodeEntries(es) + t == t && acc + es == acc;
    } else {
      var entry := es[0];
      assert entry.0 < entry && entry.1 < entry;
      var after := EncodeEntries(es[1..]) + t;
      var items := EncodeEntries(es) + t;
      EncodeEntriesCons(es, t);
      EncodeHead(entry.0);
      EncodeEntriesNoLineBreak(es[1..]);
      NoLineBreakConcat(EncodeEntries(es[1..]), t);
      EncodeNoLineBreak(entry.1);
      NoLineBreakConcat(Encode(entry.1), after);
      DecodeEncode(plugins, entry.0, Encode(entry.1) + after);
      DecodeEncode(plugins, entry.1, after);
      MapItemsStep(plugins, acc, items, entry.0, Encode(entry.1) + after, entry.1, after);
      MapItemsEncode(plugins, acc + [entry], es[1..], t);
      ConsSplit(acc, es);
    }
  }

  /** With distinct keys, each property read is new and goes at the end. */
  lemma {:induction false} FreshKeyAppends(acc: seq<(string, Value)>, ps: seq<(string, Value)>)
    requires ps != [] && DistinctKeys(acc + ps)
    ensures Put(acc, ps[0].0, ps[0].1) == acc + [ps[0]]
    ensures acc + [ps[0]] + ps[1..] == acc + ps
  {
    forall i | 0 <= i < |acc| ensures acc[i].0 != ps[0].0 {
      assert (acc + ps)[i] == acc[i] && (acc + ps)[|acc|] == ps[0];
    }
    ConsSplit(acc, ps);
  }

  /** The loop of an object reads back a run of encoded properties whose keys are distinct. */
  lemma {:induction false} ObjectItemsEncode(plugins: set<string>, acc: seq<(string, Value)>, ps: seq<(string, Value)>, t: string)
    requires DistinctKeys(acc + ps)
    requires forall i :: 0 <= i < |ps| ==> NoLineBreak(ps[i].0) && WellFormed(plugins, ps[i].1)
    requires NoLineBreak(t)
    ensures ObjectItems(plugins, acc, EncodeProps(ps) + t) == ObjectItems(plugins, acc + ps, t)
    decreases ps
  {
    if ps == [] {
      assert EncodeProps(ps) + t == t && acc + ps == acc;
    } else {
      var prop := ps[0];
      assert prop.1 < prop;
      var after := EncodeProps(ps[1..]) + t;
      var items := EncodeProps(ps) + t;
      EncodePropsCons(ps, t);
      EncodePropsHead(ps, t);
      EncodePropsNoLineBreak(ps[1..]);
      NoLineBreakConcat(EncodeProps(ps[1..]), t);
      EncodeNoLineBreak(prop.1);
      NoLineBreakConcat(Encode(prop.1), after);
      DecodeEncodeString(prop.0, Encode(prop.1) + after);
      DecodeEncode(plugins, prop.1, after);
      ObjectItemsStep(plugins, acc, items, prop.0, Encode(prop.1) + after, prop.1, after);
      FreshKeyAppends(acc, ps);
      ObjectItemsEncode(plugins, acc + [prop], ps[1..], t);
    }
  }

  /** `main` accepts the encoding of every well-formed value and returns that value. */
  lemma MainEncode(plugins: set<string>, v: Value)
    requires WellFormed(plugins, v)
    ensures Main(plugins, Encode(v)) == Ok(v)
  {
    assert Encode(v) + "" == Encode(v);
    DecodeEncode(plugins, v, "");
  }

  /** Text holding a line break is outside the round trip: the encoding of
      `a\nb` is `Ja\nb`, which `main` reads back as `a`. */
  lemma {:induction false} LineBreakBreaksRoundTrip(plugins: set<string>)
    ensures Encode(Str("a\nb")) == "Ja\nb"
    ensures Main(plugins, Encode(Str("a\nb"))) == Ok(Str("a"))
  {
    assert DigitLetter(3) == 'j' && Terminator('j') == 'J';
    assert EncodeNat(3) == "J";
    assert Encode(Str("a\nb")) == EncodeNat(3) + "a\nb";
    LineBreakCutsString(plugins);
  }
}
