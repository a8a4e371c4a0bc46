/**
 * What each rule of the decoder accepts, what it consumes and what it returns,
 * stated over module Codec.
 */
module CodecProps {
  import opened Codec

  // ---------------------------------------------------------------------------
  // One step of the decoder and of each loop

  /** `x` reads an integer and `X` a negative one. */
  lemma {:induction false} DispatchInteger(plugins: set<string>, x: string)
    requires x != [] && (x[0] == 'x' || x[0] == 'X')
    ensures Decode(plugins, x) == AsInt(DecodeInteger(x[1..], x[0] == 'X'))
  {
    IntegerArm(plugins, x, x[0] == 'X');
  }

  lemma {:induction false} IntegerArm(plugins: set<string>, x: string, negative: bool)
    requires x != [] && TagOf(x[0]) == IntegerTag(negative)
    ensures Decode(plugins, x) == AsInt(DecodeInteger(x[1..], negative))
  {
  }

  /** `q` reads a float and `Q` a negative one. */
  lemma {:induction false} DispatchFloat(plugins: set<string>, x: string)
    requires x != [] && (x[0] == 'q' || x[0] == 'Q')
    ensures Decode(plugins, x) == DecodeFloat(x[1..], x[0] == 'Q')
  {
    FloatArm(plugins, x, x[0] == 'Q');
  }

  lemma {:induction false} FloatArm(plugins: set<string>, x: string, negative: bool)
    requires x != [] && TagOf(x[0]) == FloatTag(negative)
    ensures Decode(plugins, x) == DecodeFloat(x[1..], negative)
  {
  }

  /** `Z` reads a date. */
  lemma {:induction false} DispatchDate(plugins: set<string>, x: string)
    requires x != [] && x[0] == 'Z'
    ensures Decode(plugins, x) == DecodeDate(x[1..])
  {
    assert TagOf(x[0]) == DateTag;
    DateArm(plugins, x);
  }

  /** `v` reads a buffer. */
  lemma {:induction false} DispatchBuffer(plugins: set<string>, x: string)
    requires x != [] && x[0] == 'v'
    ensures Decode(plugins, x) == DecodeBuffer(x[1..])
  {
    assert TagOf(x[0]) == BufferTag;
    BufferArm(plugins, x);
  }

  /** A digit letter starts a string, and is part of its length. */
  lemma {:induction false} DispatchString(plugins: set<string>, x: string)
    requires x != [] && TagOf(x[0]) == StringStart
    ensures Decode(plugins, x) == AsStr(DecodeString(x))
  {
  }

  /** `(` reads an object. */
  lemma {:induction false} DispatchObject(plugins: set<string>, x: string)
    requires x != [] && x[0] == '('
    ensures Decode(plugins, x) == DecodeObject(plugins, x[1..])
  {
    assert TagOf(x[0]) == ObjectTag;
    ObjectArm(plugins, x);
  }

  /** `_` reads an array. */
  lemma {:induction false} DispatchArray(plugins: set<string>, x: string)
    requires x != [] && x[0] == '_'
    ensures Decode(plugins, x) == DecodeArray(plugins, x[1..])
  {
    assert TagOf(x[0]) == ArrayTag;
    ArrayArm(plugins, x);
  }

  /** `s` reads a set. */
  lemma {:induction false} DispatchSet(plugins: set<string>, x: string)
    requires x != [] && x[0] == 's'
    ensures Decode(plugins, x) == DecodeSet(plugins, x[1..])
  {
    assert TagOf(x[0]) == SetTag;
    SetArm(plugins, x);
  }

  /** `S` reads a map. */
  lemma {:induction false} DispatchMap(plugins: set<string>, x: string)
    requires x != [] && x[0] == 'S'
    ensures Decode(plugins, x) == DecodeMap(plugins, x[1..])
  {
    assert TagOf(x[0]) == MapTag;
    MapArm(plugins, x);
  }

  /** `)` reads a plugin call. */
  lemma {:induction false} DispatchPlugin(plugins: set<string>, x: string)
    requires x != [] && x[0] == ')'
    ensures Decode(plugins, x) == DecodePlugin(plugins, x[1..])
  {
    assert TagOf(x[0]) == PluginTag;
    PluginArm(plugins, x);
  }

  // The arms of `decode`, one per tag; the lemmas above reach them from the tag character.

  lemma {:induction false} DateArm(plugins: set<string>, x: string)
    requires x != [] && TagOf(x[0]) == DateTag
    ensures Decode(plugins, x) == DecodeDate(x[1..])
  {
  }

  lemma {:induction false} BufferArm(plugins: set<string>, x: string)
    requires x != [] && TagOf(x[0]) == BufferTag
    ensures Decode(plugins, x) == DecodeBuffer(x[1..])
  {
  }

  lemma {:induction false} ObjectArm(plugins: set<string>, x: string)
    requires x != [] && TagOf(x[0]) == ObjectTag
    ensures Decode(plugins, x) == DecodeObject(plugins, x[1..])
  {
  }

  lemma {:induction false} ArrayArm(plugins: set<string>, x: string)
    requires x != [] && TagOf(x[0]) == ArrayTag
    ensures Decode(plugins, x) == DecodeArray(plugins, x[1..])
  {
  }

  lemma {:induction false} SetArm(plugins: set<string>, x: string)
    requires x != [] && TagOf(x[0]) == SetTag
    ensures Decode(plugins, x) == DecodeSet(plugins, x[1..])
  {
  }

  lemma {:induction false} MapArm(plugins: set<string>, x: string)
    requires x != [] && TagOf(x[0]) == MapTag
    ensures Decode(plugins, x) == DecodeMap(plugins, x[1..])
  {
  }

  lemma {:induction false} PluginArm(plugins: set<string>, x: string)
    requires x != [] && TagOf(x[0]) == PluginTag
    ensures Decode(plugins, x) == DecodePlugin(plugins, x[1..])
  {
  }

  /** The element loop takes one decoded element. */
  lemma {:induction false} ArrayItemsStep(plugins: set<string>, acc: seq<Value>, items: string, v: Value, rest: string)
    requires items != [] && items[0] != '.'
    requires Decode(plugins, items) == Ok(Parsed(v, rest))
    ensures ArrayItems(plugins, acc, items) == ArrayItems(plugins, acc + [v], rest)
  {
  }

  /** Every loop stops at `.` and drops it. */
  lemma {:induction false} ItemsClose(plugins: set<string>, rest: string)
    ensures forall acc :: ArrayItems(plugins, acc, "." + rest) == Ok(Parsed(acc, rest))
    ensures forall acc :: MapItems(plugins, acc, "." + rest) == Ok(Parsed(acc, rest))
    ensures forall acc :: ObjectItems(plugins, acc, "." + rest) == Ok(Parsed(acc, rest))
  {
    assert Skip1("." + rest) == rest;
  }

  /** A map loop takes one decoded key and one decoded value. */
  lemma {:induction false} MapItemsStep(plugins: set<string>, acc: seq<(Value, Value)>, items: string, k: Value, rest1: string, v: Value, rest2: string)
    requires items != [] && items[0] != '.'
    requires Decode(plugins, items) == Ok(Parsed(k, rest1))
    requires Decode(plugins, rest1) == Ok(Parsed(v, rest2))
    ensures MapItems(plugins, acc, items) == MapItems(plugins, acc + [(k, v)], rest2)
  {
  }

  /** An object loop takes one decoded key and one decoded value and puts the property. */
  lemma {:induction false} ObjectItemsStep(plugins: set<string>, acc: seq<(string, Value)>, items: string, k: string, rest1: string, v: Value, rest2: string)
    requires items != [] && items[0] != '.'
    requires DecodeString(items) == Ok(Parsed(k, rest1))
    requires Decode(plugins, rest1) == Ok(Parsed(v, rest2))
    ensures ObjectItems(plugins, acc, items) == ObjectItems(plugins, Put(acc, k, v), rest2)
  {
  }

  // ---------------------------------------------------------------------------
  // Integers

  /** `decodeInteger` succeeds exactly when the input starts with a run
      `[a-p]*[A-P]`; the value is the hexadecimal number the mapped run spells,
      negated for `X`, and the rest is what follows the run (up to the first line
      terminator). */
  lemma DecodeIntegerExact(x: string, negative: bool)
    ensures DecodeInteger(x, negative).Ok? <==> exists k :: 0 < k <= |x| && IsRun(x[..k], false)
    ensures forall k :: 0 < k <= |x| && IsRun(x[..k], false) ==>
      var magnitude: int := ParseHex(MapDigits(x[..k]));
      DecodeInteger(x, negative) == Ok(Parsed(if negative then -magnitude else magnitude, Tail(x[k..])))
  {
    RunMatchExact(x, false);
  }

  /** With no line terminator after the run, the rest is exactly what follows it. */
  lemma DecodeIntegerRest(x: string, negative: bool, k: nat)
    requires 0 < k <= |x| && IsRun(x[..k], false) && NoLineBreak(x[k..])
    ensures DecodeInteger(x, negative).Ok? && DecodeInteger(x, negative).value.rest == x[k..]
  {
    DecodeIntegerExact(x, negative);
  }

  /** `hB` is 0x1b. */
  lemma DecodeIntegerExample()
    ensures DecodeInteger("hB", false) == Ok(Parsed(27, ""))
    ensures DecodeInteger("G", false) == Ok(Parsed(0, ""))
    ensures DecodeInteger("hB", true) == Ok(Parsed(-27, ""))
  {
    assert RunMatch("hB", false) == 2 by {
      RunMatchExact("hB", false);
      assert IsRun("hB"[..2], false);
    }
    assert "hB"[..2] == "hB" && "hB"[2..] == "";
    assert MapDigits("hB") == "1b";
    assert "1b"[..1] == "1";
    assert ParseHex("1b") == 27;
    assert RunMatch("G", false) == 1 by {
      RunMatchExact("G", false);
      assert IsRun("G"[..1], false);
    }
    assert "G"[..1] == "G" && "G"[1..] == "";
    assert MapDigits("G") == "0";
    assert ParseHex("0") == 0;
  }

  /** A string that does not start with a run is not an integer. */
  lemma DecodeIntegerRejects(x: string, negative: bool)
    requires x == [] || (!IsLowerDigit(x[0]) && !IsUpperDigit(x[0]))
    ensures DecodeInteger(x, negative) == Err(WrongInteger)
  {
    forall k | 0 < k <= |x|
      ensures !IsRun(x[..k], false)
    {
      assert x[..k][0] == x[0];
    }
    DecodeIntegerExact(x, negative);
  }

  /** The sign flag only negates the value. */
  lemma DecodeIntegerSign(x: string)
    ensures DecodeInteger(x, true).Ok? <==> DecodeInteger(x, false).Ok?
    ensures DecodeInteger(x, false).Ok? ==>
      DecodeInteger(x, true) == Ok(Parsed(-DecodeInteger(x, false).value.value, DecodeInteger(x, false).value.rest))
  {
  }

  /** Wrapping a number and its negation as values. */
  lemma {:induction false} AsIntNegates(pos: Result<Parsed<int>>, neg: Result<Parsed<int>>)
    requires neg.Ok? <==> pos.Ok?
    requires pos.Ok? ==> neg == Ok(Parsed(-pos.value.value, pos.value.rest))
    ensures AsInt(neg).Ok? <==> AsInt(pos).Ok?
    ensures AsInt(pos).Ok? ==>
      AsInt(pos).value.value.Int? &&
      AsInt(neg) == Ok(Parsed(Int(-AsInt(pos).value.value.i), AsInt(pos).value.rest))
  {
  }

  /** `X` yields the negation of what `x` yields for the same letters, with the same rest. */
  lemma {:induction false} NegativeTag(plugins: set<string>, y: string)
    ensures Decode(plugins, "X" + y).Ok? <==> Decode(plugins, "x" + y).Ok?
    ensures Decode(plugins, "x" + y).Ok? ==>
      Decode(plugins, "x" + y).value.value.Int? &&
      Decode(plugins, "X" + y) ==
        Ok(Parsed(Int(-Decode(plugins, "x" + y).value.value.i), Decode(plugins, "x" + y).value.rest))
  {
    IntegerTags(y);
    SignedPair(plugins, "x" + y, "X" + y);
  }

  /** The same letters after a positive and after a negative integer tag. */
  lemma {:induction false} SignedPair(plugins: set<string>, pos: string, neg: string)
    requires pos != [] && pos[0] == 'x'
    requires neg != [] && neg[0] == 'X' && neg[1..] == pos[1..]
    ensures Decode(plugins, neg).Ok? <==> Decode(plugins, pos).Ok?
    ensures Decode(plugins, pos).Ok? ==>
      Decode(plugins, pos).value.value.Int? &&
      Decode(plugins, neg) ==
        Ok(Parsed(Int(-Decode(plugins, pos).value.value.i), Decode(plugins, pos).value.rest))
  {
    DispatchInteger(plugins, pos);
    DispatchInteger(plugins, neg);
    DecodeIntegerSign(pos[1..]);
    AsIntNegates(DecodeInteger(pos[1..], false), DecodeInteger(pos[1..], true));
  }

  lemma {:induction false} IntegerTags(y: string)
    ensures ("x" + y)[0] == 'x' && ("x" + y)[1..] == y
    ensures ("X" + y)[0] == 'X' && ("X" + y)[1..] == y
  {
    assert ("x" + y)[0] == 'x' && ("X" + y)[0] == 'X';
  }

  // ---------------------------------------------------------------------------
  // Dispatch

  /** The characters the `switch` of `decode` handles. */
  predicate IsTag(c: char) {
    c in {'0', '1', '2', '3', '4', '5', '!', 'x', 'X', 'q', 'Q', '(', '_', 's', 'S', 'Z', 'v', ')'}
  }

  /** Dispatch order: the tag table first; then a character that lower-cases to a
      digit letter starts a string; anything else is unknown. No tag is a digit
      letter, so the string rule never shadows a tag. */
  lemma {:induction false} DispatchOrder(c: char)
    ensures IsTag(c) <==> !TagOf(c).StringStart? && !TagOf(c).UnknownTag?
    ensures TagOf(c) == StringStart <==> LowersToDigit(c)
    ensures TagOf(c) == UnknownTag <==> !IsTag(c) && !LowersToDigit(c)
  {
  }

  /** The empty input is an error. */
  lemma {:induction false} DecodeEmpty(plugins: set<string>)
    ensures Decode(plugins, []) == Err(EmptyInput)
  {
  }

  /** A character that is neither a tag nor a digit letter is an unknown type. */
  lemma {:induction false} DispatchUnknown(plugins: set<string>, x: string)
    requires x != [] && TagOf(x[0]) == UnknownTag
    ensures Decode(plugins, x) == Err(UnknownType)
  {
  }

  predicate IsConstantTag(c: char) {
    c in {'0', '1', '2', '3', '4', '5', '!'}
  }

  /** The value each constant tag stands for. */
  function ConstantOf(c: char): Value
    requires IsConstantTag(c)
  {
    match c
    case '0' => Bool(false)
    case '1' => Bool(true)
    case '2' => NaN
    case '3' => NegInfinity
    case '4' => PosInfinity
    case '5' => Undefined
    case '!' => Null
  }

  /** The seven constant tags consume exactly their own character. */
  lemma {:induction false} ConstantTags(plugins: set<string>, x: string)
    requires x != [] && IsConstantTag(x[0])
    ensures Decode(plugins, x) == Ok(Parsed(ConstantOf(x[0]), x[1..]))
  {
  }

  /** A character outside the tags and the digit alphabet fails, whatever follows it. */
  lemma {:induction false} UnknownTypeExample(plugins: set<string>, rest: string)
    ensures Decode(plugins, "#" + rest) == Err(UnknownType)
  {
    assert ("#" + rest)[0] == '#';
    DispatchUnknown(plugins, "#" + rest);
  }

  // ---------------------------------------------------------------------------
  // Strings

  /** `decodeString` reads a length `n` and takes the next `min(n, remaining)`
      characters literally, without failing when fewer remain. */
  lemma DecodeStringSpec(x: string)
    ensures DecodeString(x).Ok? <==> DecodeInteger(x, false).Ok?
    ensures DecodeInteger(x, false).Ok? ==>
      var n := DecodeInteger(x, false).value.value;
      var after := DecodeInteger(x, false).value.rest;
      var text := DecodeString(x).value.value;
      var rest := DecodeString(x).value.rest;
      text + rest == after && |text| == (if n < |after| then n else |after|)
  {
    match DecodeInteger(x, false)
    case Err(_) =>
    case Ok(Parsed(n, after)) =>
      var k := if n < |after| then n else |after|;
      assert after[..k] + after[k..] == after;
  }

  // ---------------------------------------------------------------------------
  // Floats

  /** `decodeFloat` succeeds exactly when the input starts with two runs
      `[g-p]*[G-P]`; it keeps the mapped runs as the integer and fraction digits. */
  lemma DecodeFloatExact(x: string, negative: bool)
    ensures DecodeFloat(x, negative).Ok? <==>
      exists k1, k2 :: 0 < k1 <= |x| && 0 < k2 <= |x| - k1 && IsRun(x[..k1], true) && IsRun(x[k1..][..k2], true)
    ensures forall k1, k2 :: 0 < k1 <= |x| && 0 < k2 <= |x| - k1 && IsRun(x[..k1], true) && IsRun(x[k1..][..k2], true) ==>
      DecodeFloat(x, negative) ==
        Ok(Parsed(Float(negative, MapDigits(x[..k1]), MapDigits(x[k1..][..k2])), Tail(x[k1..][k2..])))
  {
    RunMatchExact(x, true);
    var n1 := RunMatch(x, true);
    if n1 > 0 {
      RunMatchExact(x[n1..], true);
    }
  }

  /** The float digits are decimal. */
  lemma DecodeFloatDigits(x: string, negative: bool)
    requires DecodeFloat(x, negative).Ok?
    ensures var f := DecodeFloat(x, negative).value.value;
      f.Float? && f.negative == negative &&
      (forall i :: 0 <= i < |f.intDigits| ==> IsDecimalChar(f.intDigits[i])) &&
      (forall i :: 0 <= i < |f.fracDigits| ==> IsDecimalChar(f.fracDigits[i]))
  {
  }

  /** The hexadecimal letters `a`..`f` cannot start a float. */
  lemma DecodeFloatRejectsHexLetters(x: string, negative: bool)
    requires x != [] && ('a' <= x[0] <= 'f' || 'A' <= x[0] <= 'F')
    ensures DecodeFloat(x, negative) == Err(WrongFloat)
  {
    forall k1 | 0 < k1 <= |x|
      ensures !IsRun(x[..k1], true)
    {
      assert x[..k1][0] == x[0];
    }
    DecodeFloatExact(x, negative);
  }

  // ---------------------------------------------------------------------------
  // Containers

  /** `_.` is the empty array and consumes everything. */
  lemma EmptyArray(plugins: set<string>)
    ensures Decode(plugins, "_.") == Ok(Parsed(Array([]), ""))
  {
    assert "_."[1..] == "." && "."[0] == '.';
  }

  /** At the end of the input every loop stops without error and keeps what it read. */
  lemma ItemsAtEnd(plugins: set<string>)
    ensures forall acc :: ArrayItems(plugins, acc, []) == Ok(Parsed(acc, []))
    ensures forall acc :: MapItems(plugins, acc, []) == Ok(Parsed(acc, []))
    ensures forall acc :: ObjectItems(plugins, acc, []) == Ok(Parsed(acc, []))
  {
  }

  /** An unterminated array at the end of the input. */
  lemma {:induction false} UnterminatedArrayExample(plugins: set<string>)
    ensures Decode(plugins, "_01") == Ok(Parsed(Array([Bool(false), Bool(true)]), ""))
  {
    UnterminatedItems(plugins);
    UnterminatedShape();
    DispatchArray(plugins, "_01");
    ArrayOf(plugins, "01", [Bool(false), Bool(true)], "");
  }

  lemma {:induction false} UnterminatedShape()
    ensures "_01"[0] == '_' && "_01"[1..] == "01"
  {
  }

  /** The set built from what the element loop read. */
  lemma {:induction false} SetOf(plugins: set<string>, x: string, vs: seq<Value>, rest: string)
    requires ArrayItems(plugins, [], x) == Ok(Parsed(vs, rest))
    ensures DecodeSet(plugins, x) == Ok(Parsed(Set(vs), rest))
  {
  }

  /** The map built from what the entry loop read. */
  lemma {:induction false} MapOf(plugins: set<string>, x: string, es: seq<(Value, Value)>, rest: string)
    requires MapItems(plugins, [], x) == Ok(Parsed(es, rest))
    ensures DecodeMap(plugins, x) == Ok(Parsed(Map(es), rest))
  {
  }

  /** The array built from what the element loop read. */
  lemma {:induction false} ArrayOf(plugins: set<string>, x: string, vs: seq<Value>, rest: string)
    requires ArrayItems(plugins, [], x) == Ok(Parsed(vs, rest))
    ensures DecodeArray(plugins, x) == Ok(Parsed(Array(vs), rest))
  {
  }

  lemma {:induction false} UnterminatedItems(plugins: set<string>)
    ensures ArrayItems(plugins, [], "01") == Ok(Parsed([Bool(false), Bool(true)], ""))
  {
    assert Decode(plugins, "01") == Ok(Parsed(Bool(false), "1")) by {
      ConstantTags(plugins, "01");
      assert "01"[1..] == "1";
    }
    assert Decode(plugins, "1") == Ok(Parsed(Bool(true), "")) by {
      ConstantTags(plugins, "1");
    }
    ArrayItemsStep(plugins, [], "01", Bool(false), "1");
    assert [] + [Bool(false)] == [Bool(false)];
    ArrayItemsStep(plugins, [Bool(false)], "1", Bool(true), "");
    assert [Bool(false)] + [Bool(true)] == [Bool(false), Bool(true)];
  }

  /** A single terminator is a one-digit integer, and the rest starts right after it. */
  lemma {:induction false} OneLetterInteger(c: char, rest: string)
    requires IsUpperDigit(c) && NoLineBreak(rest)
    ensures DecodeInteger([c] + rest, false) == Ok(Parsed(HexCharValue(MapHexDecode(AsciiLower(c))) as int, rest))
  {
    var x := [c] + rest;
    DecodeIntegerExact(x, false);
    assert x[..1] == [c] && IsRun([c], false);
    var h := MapHexDecode(AsciiLower(c));
    assert MapDigits([c]) == [h];
    assert [h][..0] == [];
    assert ParseHex([h]) == HexCharValue(h);
    assert x[1..] == rest;
  }

  /** The key `a` (its length is `H`, that is 1) before `rest`. */
  lemma {:induction false} KeyA(rest: string)
    requires NoLineBreak(rest)
    ensures DecodeString("Ha" + rest) == Ok(Parsed("a", rest))
  {
    assert NoLineBreak("a" + rest) by {
      forall i | 0 <= i < |"a" + rest| ensures !IsLineTerminator(("a" + rest)[i]) {
        if i > 0 { assert ("a" + rest)[i] == rest[i - 1]; }
      }
    }
    assert "Ha" + rest == ['H'] + ("a" + rest);
    OneLetterInteger('H', "a" + rest);
    assert ("a" + rest)[..1] == "a" && ("a" + rest)[1..] == rest;
  }

  /** The integer `xB` (11) before `rest`. */
  lemma {:induction false} IntB(plugins: set<string>, rest: string)
    requires NoLineBreak(rest)
    ensures Decode(plugins, "xB" + rest) == Ok(Parsed(Int(11), rest))
  {
    var x := "xB" + rest;
    assert x[0] == 'x' && x[1..] == ['B'] + rest;
    OneLetterInteger('B', rest);
    DispatchInteger(plugins, x);
  }

  /** The integer `xC` (12) before `rest`. */
  lemma {:induction false} IntC(plugins: set<string>, rest: string)
    requires NoLineBreak(rest)
    ensures Decode(plugins, "xC" + rest) == Ok(Parsed(Int(12), rest))
  {
    var x := "xC" + rest;
    assert x[0] == 'x' && x[1..] == ['C'] + rest;
    OneLetterInteger('C', rest);
    DispatchInteger(plugins, x);
  }

  lemma RepeatedKeySecond(plugins: set<string>)
    ensures ObjectItems(plugins, [("a", Int(11))], "HaxC.") == Ok(Parsed([("a", Int(12))], ""))
  {
    assert NoLineBreak(".") && NoLineBreak("xC.");
    assert "HaxC." == "Ha" + "xC." && "xC." == "xC" + ".";
    KeyA("xC.");
    IntC(plugins, ".");
    ObjectItemsStep(plugins, [("a", Int(11))], "HaxC.", "a", "xC.", Int(12), ".");
    assert Put([("a", Int(11))], "a", Int(12)) == [("a", Int(12))];
    ItemsClose(plugins, "");
    assert "." + "" == ".";
  }

  lemma RepeatedKeyFirst(plugins: set<string>)
    ensures ObjectItems(plugins, [], "HaxBHaxC.") == ObjectItems(plugins, [("a", Int(11))], "HaxC.")
  {
    assert NoLineBreak("HaxC.") && NoLineBreak("xBHaxC.");
    assert "HaxBHaxC." == "Ha" + "xBHaxC." && "xBHaxC." == "xB" + "HaxC.";
    KeyA("xBHaxC.");
    IntB(plugins, "HaxC.");
    ObjectItemsStep(plugins, [], "HaxBHaxC.", "a", "xBHaxC.", Int(11), "HaxC.");
    assert Put([], "a", Int(11)) == [("a", Int(11))];
  }

  /** A repeated object key overwrites the earlier value in place. */
  lemma {:induction false} RepeatedKeyExample(plugins: set<string>)
    ensures Decode(plugins, "(HaxBHaxC.") == Ok(Parsed(Object([("a", Int(12))]), ""))
  {
    RepeatedKeyFirst(plugins);
    RepeatedKeySecond(plugins);
    RepeatedKeyShape();
    DispatchObject(plugins, "(HaxBHaxC.");
    ObjectOf(plugins, "HaxBHaxC.", [("a", Int(12))], "");
  }

  lemma {:induction false} RepeatedKeyShape()
    ensures "(HaxBHaxC."[0] == '(' && "(HaxBHaxC."[1..] == "HaxBHaxC."
  {
  }

  /** The object built from what the property loop read. */
  lemma {:induction false} ObjectOf(plugins: set<string>, x: string, props: seq<(string, Value)>, rest: string)
    requires ObjectItems(plugins, [], x) == Ok(Parsed(props, rest))
    ensures DecodeObject(plugins, x) == Ok(Parsed(Object(props), rest))
  {
  }

  // ---------------------------------------------------------------------------
  // Plugins

  /** An unregistered name fails before any argument is read, whatever follows. */
  lemma UnknownPluginFailsFirst(plugins: set<string>, x: string, name: string, rest: string)
    requires DecodeString(x) == Ok(Parsed(name, rest)) && name !in plugins
    ensures Decode(plugins, ")" + x) == Err(MissingPlugin(name))
  {
    DispatchPlugin(plugins, ")" + x);
    assert (")" + x)[1..] == x;
  }

  /** A registered name takes its arguments as a bare element list, with no `_` tag. */
  lemma PluginArguments(plugins: set<string>, x: string, name: string, rest: string)
    requires DecodeString(x) == Ok(Parsed(name, rest)) && name in plugins
    ensures Decode(plugins, ")" + x) == (match ArrayItems(plugins, [], rest)
                                        case Err(e) => Err(e)
                                        case Ok(Parsed(args, rest2)) => Ok(Parsed(Ext(name, args), rest2)))
  {
    DispatchPlugin(plugins, ")" + x);
    assert (")" + x)[1..] == x;
  }

  /** A registered extension whose arguments the element loop reads. */
  lemma {:induction false} PluginStep(plugins: set<string>, x: string, name: string, rest1: string, args: seq<Value>, rest2: string)
    requires x != [] && x[0] == ')'
    requires DecodeString(x[1..]) == Ok(Parsed(name, rest1)) && name in plugins
    requires ArrayItems(plugins, [], rest1) == Ok(Parsed(args, rest2))
    ensures Decode(plugins, x) == Ok(Parsed(Ext(name, args), rest2))
  {
    DispatchPlugin(plugins, x);
  }

  // ---------------------------------------------------------------------------
  // Top level

  /** `main` succeeds exactly when `decode` does and leaves nothing over. */
  lemma MainExact(plugins: set<string>, x: string)
    ensures Main(plugins, x).Ok? <==> Decode(plugins, x).Ok? && Decode(plugins, x).value.rest == []
    ensures Main(plugins, x).Ok? ==> Main(plugins, x).value == Decode(plugins, x).value.value
    ensures Decode(plugins, x).Ok? && Decode(plugins, x).value.rest != [] ==> Main(plugins, x) == Err(ExtraCharacters)
  {
  }

  /** `0x` is a `false` followed by an extra character. */
  lemma MainRejectsTrailing(plugins: set<string>)
    ensures Main(plugins, "0x") == Err(ExtraCharacters)
  {
    assert "0x"[1..] == "x";
  }

  /** The `(.*)` tail of an integer stops at a line terminator, so what follows a
      line break after an integer is dropped instead of being reported. */
  lemma {:induction false} LineBreakHidesTrailing(plugins: set<string>)
    ensures Main(plugins, "xB\n0") == Ok(Int(11))
  {
    LineBreakInteger();
    assert "xB\n0"[0] == 'x' && "xB\n0"[1..] == "B\n0";
    DispatchInteger(plugins, "xB\n0");
  }

  /** The length of a string is read through the same `(.*)` tail, so a string
      holding a line break is cut there: `Ja\nb` announces three characters but
      decodes to `a` alone, and `main` accepts it. */
  lemma {:induction false} LineBreakCutsString(plugins: set<string>)
    ensures Main(plugins, "Ja\nb") == Ok(Str("a"))
  {
    var x := "Ja\nb";
    LineBreakLength();
    assert DecodeString(x) == Ok(Parsed("a", ""));
    DispatchString(plugins, x);
  }

  lemma {:induction false} LineBreakLength()
    ensures DecodeInteger("Ja\nb", false) == Ok(Parsed(3, "a"))
  {
    var x := "Ja\nb";
    DecodeIntegerExact(x, false);
    assert x[..1] == "J" && IsRun("J", false);
    assert AsciiLower('J') == 'j' && MapHexDecode('j') == '3';
    assert MapDigits("J") == "3" && ParseHex("3") == 3;
    assert x[1..] == "a\nb";
    assert Tail("a\nb") == "a";
  }

  lemma {:induction false} LineBreakInteger()
    ensures DecodeInteger("B\n0", false) == Ok(Parsed(11, ""))
  {
    DecodeIntegerExact("B\n0", false);
    assert "B\n0"[..1] == "B" && IsRun("B", false);
    assert MapDigits("B") == "b" && ParseHex("b") == 11;
    assert "B\n0"[1..] == "\n0" && Tail("\n0") == "";
  }
}
