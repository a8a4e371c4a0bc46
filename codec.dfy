/**
 * The text decoder of decencode.js: a recursive-descent parser over a
 * type-tagged grammar. Every rule takes the remaining input and returns the
 * decoded value together with the input it did not consume.
 *
 * A JavaScript string is a sequence of UTF-16 code units; each `char` here stands
 * for one. Lone surrogates are outside the model.
 */
module Codec {

  /** One decoded value. A plugin's result is kept as the `Ext` node it was built from. */
  datatype Value =
    | Bool(b: bool)
    | NaN
    | NegInfinity
    | PosInfinity
    | Undefined
    | Null
    | Int(i: int)
    | Float(negative: bool, intDigits: string, fracDigits: string)
    | Str(s: string)
    | Buf(base64url: string)
    | Date(ms: nat)
    | Array(items: seq<Value>)
    | Set(members: seq<Value>)
    | Map(entries: seq<(Value, Value)>)
    | Object(props: seq<(string, Value)>)
    | Ext(name: string, args: seq<Value>)

  /** The exceptions the decoder throws, one per `throw` (or runtime error) in the source. */
  datatype Error =
    | EmptyInput               // `x[0].toLowerCase()` on an empty string: a TypeError
    | UnknownType              // "Unknown type"
    | WrongInteger             // "Wrong integer"
    | WrongFloat               // "Wrong float"
    | MissingPlugin(name: string)
    | ExtraCharacters          // "Extra characters", thrown by main

  datatype Parsed<+T> = Parsed(value: T, rest: string)

  datatype Result<+T> = Ok(value: T) | Err(error: Error)

  datatype Option<+T> = None | Some(value: T)

  /** `a` is what is left of `b` after dropping a prefix. */
  predicate IsSuffix(a: string, b: string) {
    |a| <= |b| && b[|b| - |a|..] == a
  }

  /** Suffixes of suffixes are suffixes, and inherit the absence of line terminators. */
  lemma SuffixChain(a: string, b: string, c: string)
    ensures IsSuffix(a, b) && IsSuffix(b, c) ==> IsSuffix(a, c)
    ensures IsSuffix(a, b) && NoLineBreak(b) ==> NoLineBreak(a)
  {
    if IsSuffix(a, b) && IsSuffix(b, c) {
      assert c[|c| - |a|..] == c[|c| - |b|..][|b| - |a|..];
    }
    if IsSuffix(a, b) && NoLineBreak(b) {
      forall i | 0 <= i < |a| ensures !IsLineTerminator(a[i]) {
        assert a[i] == b[|b| - |a| + i];
      }
    }
  }

  // ---------------------------------------------------------------------------
  // Line terminators and the regular expressions' `(.*)` tail

  /** The characters that `.` in a JavaScript regular expression does not match. */
  predicate IsLineTerminator(c: char) {
    c == '\n' || c == '\r' || c == '\U{2028}' || c == '\U{2029}'
  }

  predicate NoLineBreak(s: string) {
    forall i :: 0 <= i < |s| ==> !IsLineTerminator(s[i])
  }

  /** What the capture group `(.*)` keeps of `s`: everything before its first line terminator. */
  function Tail(s: string): (t: string)
    ensures t <= s && NoLineBreak(t)
    ensures |t| < |s| ==> IsLineTerminator(s[|t|])
    ensures NoLineBreak(s) ==> t == s
  {
    if s == [] || IsLineTerminator(s[0]) then [] else [s[0]] + Tail(s[1..])
  }

  /** `x.substr(1)`: drop the first character, if any. */
  function Skip1(s: string): (t: string)
    ensures |t| == if s == [] then 0 else |s| - 1
  {
    if s == [] then s else s[1..]
  }

  // ---------------------------------------------------------------------------
  // The digit alphabet: the `mapHexDecode` table

  /** The sixteen lower-case digit letters `a`..`p`. */
  predicate IsLowerDigit(c: char) { 'a' <= c <= 'p' }

  /** The sixteen upper-case terminators `A`..`P`. */
  predicate IsUpperDigit(c: char) { 'A' <= c <= 'P' }

  /** The ten letters `g`..`p` that a float run may use. */
  predicate IsLowerDecimal(c: char) { 'g' <= c <= 'p' }

  /** The ten terminators `G`..`P` of a float run. */
  predicate IsUpperDecimal(c: char) { 'G' <= c <= 'P' }

  /** The dispatch test `mapHexDecode[c.toLowerCase()] !== undefined`. Besides
      `a`..`p` and `A`..`P`, the KELVIN SIGN lower-cases to `k`. */
  predicate LowersToDigit(c: char): (b: bool)
    ensures b <==> IsLowerDigit(AsciiLower(c)) || c == '\U{212A}'
  {
    IsLowerDigit(c) || IsUpperDigit(c) || c == '\U{212A}'
  }

  /** `toLowerCase` on the ASCII letters. */
  function AsciiLower(c: char): (l: char)
    ensures IsUpperDigit(c) ==> IsLowerDigit(l)
    ensures IsUpperDecimal(c) ==> IsLowerDecimal(l)
  {
    if 'A' <= c <= 'Z' then (c as int + 32) as char else c
  }

  /** The `mapHexDecode` table: `g`..`p` stand for `0`..`9`, `a`..`f` for themselves. */
  function MapHexDecode(c: char): (h: char)
    requires IsLowerDigit(c)
    ensures IsHexChar(h)
    ensures IsLowerDecimal(c) <==> IsDecimalChar(h)
    ensures !IsLowerDecimal(c) ==> h == c
  {
    if IsLowerDecimal(c) then (c as int - 'g' as int + '0' as int) as char else c
  }

  predicate IsHexChar(h: char) { '0' <= h <= '9' || 'a' <= h <= 'f' }

  predicate IsDecimalChar(h: char) { '0' <= h <= '9' }

  /** The letters a run may use before its terminator: `[a-p]`, or `[g-p]` in a float. */
  predicate IsRunLetter(c: char, decimal: bool) {
    if decimal then IsLowerDecimal(c) else IsLowerDigit(c)
  }

  /** The letters that may end a run: `[A-P]`, or `[G-P]` in a float. */
  predicate IsRunEnd(c: char, decimal: bool) {
    if decimal then IsUpperDecimal(c) else IsUpperDigit(c)
  }

  /** What `[a-p]*[A-P]` (or, with `decimal`, `[g-p]*[G-P]`) matches: run letters
      ended by one terminator. */
  predicate IsRun(run: string, decimal: bool) {
    |run| > 0 && IsRunEnd(run[|run| - 1], decimal) &&
    forall i :: 0 <= i < |run| - 1 ==> IsRunLetter(run[i], decimal)
  }

  /** A matched run, lower-cased and mapped through the table, character by character. */
  function MapDigits(run: string): (hex: string)
    requires IsRun(run, false)
    ensures |hex| == |run|
    ensures forall i :: 0 <= i < |hex| ==> IsHexChar(hex[i])
    ensures IsRun(run, true) ==> forall i :: 0 <= i < |hex| ==> IsDecimalChar(hex[i])
  {
    seq(|run|, i requires 0 <= i < |run| => MapHexDecode(AsciiLower(run[i])))
  }

  function HexCharValue(h: char): (d: nat)
    requires IsHexChar(h)
    ensures d < 16
  {
    if h <= '9' then h as int - '0' as int else h as int - 'a' as int + 10
  }

  /** `parseInt(hex, 16)` on a string of hexadecimal digits, without precision loss. */
  function ParseHex(hex: string): nat
    requires forall i :: 0 <= i < |hex| ==> IsHexChar(hex[i])
  {
    if hex == [] then 0 else 16 * ParseHex(hex[..|hex| - 1]) + HexCharValue(hex[|hex| - 1])
  }

  /** The length of the prefix of `s` that `^[a-p]*[A-P]` (or `^[g-p]*[G-P]`) matches,
      or 0 when the match fails. */
  function RunMatch(s: string, decimal: bool): (n: nat)
    ensures n <= |s|
    ensures n > 0 ==> IsRun(s[..n], decimal)
  {
    if s == [] then 0
    else if IsRunEnd(s[0], decimal) then 1
    else if IsRunLetter(s[0], decimal) then
      var m := RunMatch(s[1..], decimal);
      assert m > 0 ==> s[..m + 1][1..] == s[1..][..m];
      if m == 0 then 0 else m + 1
    else 0
  }

  /** The match is exact: no other prefix of `s` is a run. */
  lemma {:induction false} RunMatchExact(s: string, decimal: bool)
    ensures forall k :: 0 < k <= |s| ==> (IsRun(s[..k], decimal) <==> k == RunMatch(s, decimal))
    decreases |s|
  {
    if s == [] {
    } else if IsRunEnd(s[0], decimal) {
      assert !IsRunLetter(s[0], decimal);
      forall k | 1 < k <= |s| ensures !IsRun(s[..k], decimal) {
        assert s[..k][0] == s[0];
      }
    } else if IsRunLetter(s[0], decimal) {
      RunMatchExact(s[1..], decimal);
      forall k | 1 < k <= |s| ensures IsRun(s[..k], decimal) <==> IsRun(s[1..][..k - 1], decimal) {
        assert s[..k][1..] == s[1..][..k - 1];
        assert s[..k][0] == s[0];
      }
      assert !IsRun(s[..1], decimal) by {
        assert s[..1][0] == s[0];
        assert !IsRunEnd(s[0], decimal);
      }
    } else {
      forall k | 0 < k <= |s| ensures !IsRun(s[..k], decimal) {
        assert s[..k][0] == s[0];
      }
    }
  }

  // ---------------------------------------------------------------------------
  // Scalar rules

  /** `decodeInteger`: match `^([a-p]*[A-P])(.*)`, map the run through the table,
      read it as hexadecimal, and negate it if asked. */
  function DecodeInteger(x: string, negative: bool): (r: Result<Parsed<int>>)
    ensures r.Ok? ==> |r.value.rest| < |x|
    ensures r.Ok? && NoLineBreak(x) ==> IsSuffix(r.value.rest, x)
    ensures r.Ok? && !negative ==> r.value.value >= 0
  {
    var n := RunMatch(x, false);
    if n > 0 then
      var magnitude: int := ParseHex(MapDigits(x[..n]));
      SuffixChain(x[n..], x, x);
      Ok(Parsed(if negative then -magnitude else magnitude, Tail(x[n..])))
    else
      Err(WrongInteger)
  }

  /** `decodeFloat`: match `^([g-p]*[G-P])([g-p]*[G-P])(.*)` and keep the two
      decimal digit strings that `parseFloat` would read as `int.frac`. */
  function DecodeFloat(x: string, negative: bool): (r: Result<Parsed<Value>>)
    ensures r.Ok? ==> |r.value.rest| < |x|
    ensures r.Ok? && NoLineBreak(x) ==> IsSuffix(r.value.rest, x)
  {
    var n1 := RunMatch(x, true);
    if n1 > 0 then
      var y := x[n1..];
      var n2 := RunMatch(y, true);
      if n2 > 0 then
        SuffixChain(y, x, x);
        SuffixChain(y[n2..], y, x);
        Ok(Parsed(Float(negative, MapDigits(x[..n1]), MapDigits(y[..n2])), Tail(y[n2..])))
      else
        Err(WrongFloat)
    else
      Err(WrongFloat)
  }

  /** `decodeString`: an integer length, then that many characters taken literally
      (`substr` stops early, without error, at the end of the input). */
  function DecodeString(x: string): (r: Result<Parsed<string>>)
    ensures r.Ok? ==> |r.value.rest| < |x|
    ensures r.Ok? && NoLineBreak(x) ==> IsSuffix(r.value.rest, x)
  {
    match DecodeInteger(x, false)
    case Err(e) => Err(e)
    case Ok(Parsed(length, rest)) =>
      var k := if length < |rest| then length else |rest|;
      SuffixChain(rest[k..], rest, x);
      Ok(Parsed(rest[..k], rest[k..]))
  }

  /** `decodeDate`: an unsigned integer of milliseconds. */
  function DecodeDate(x: string): (r: Result<Parsed<Value>>)
    ensures r.Ok? ==> |r.value.rest| < |x|
    ensures r.Ok? && NoLineBreak(x) ==> IsSuffix(r.value.rest, x)
  {
    match DecodeInteger(x, false)
    case Err(e) => Err(e)
    case Ok(Parsed(ms, rest)) => Ok(Parsed(Date(ms), rest))
  }

  /** `decodeBuffer`: a string holding base64url text; the conversion to bytes is not modelled. */
  function DecodeBuffer(x: string): (r: Result<Parsed<Value>>)
    ensures r.Ok? ==> |r.value.rest| < |x|
    ensures r.Ok? && NoLineBreak(x) ==> IsSuffix(r.value.rest, x)
  {
    match DecodeString(x)
    case Err(e) => Err(e)
    case Ok(Parsed(text, rest)) => Ok(Parsed(Buf(text), rest))
  }

  // ---------------------------------------------------------------------------
  // Objects: `object[key] = value`

  /** The value stored under `key`, if any. */
  function Lookup(props: seq<(string, Value)>, key: string): (r: Option<Value>)
    ensures r.None? <==> forall i :: 0 <= i < |props| ==> props[i].0 != key
  {
    if props == [] then None
    else if props[0].0 == key then Some(props[0].1)
    else Lookup(props[1..], key)
  }

  /** Assignment to a property: a key already present keeps its place and takes
      the new value; a new key goes at the end. */
  function Put(props: seq<(string, Value)>, key: string, v: Value): (r: seq<(string, Value)>)
    ensures Lookup(r, key) == Some(v)
    ensures forall k :: k != key ==> Lookup(r, k) == Lookup(props, k)
    ensures Lookup(props, key).None? ==> r == props + [(key, v)]
    ensures Lookup(props, key).Some? ==> |r| == |props|
    ensures Lookup(props, key).Some? ==> forall i :: 0 <= i < |r| ==> r[i].0 == props[i].0
  {
    if props == [] then [(key, v)]
    else if props[0].0 == key then [(key, v)] + props[1..]
    else [props[0]] + Put(props[1..], key, v)
  }

  // ---------------------------------------------------------------------------
  // Dispatch and containers

  /** What the leading character of an encoded value announces. */
  datatype Tag =
    | FalseTag | TrueTag | NaNTag | NegInfinityTag | PosInfinityTag | UndefinedTag | NullTag
    | IntegerTag(negative: bool) | FloatTag(negative: bool)
    | ObjectTag | ArrayTag | SetTag | MapTag | DateTag | BufferTag | PluginTag
    | StringStart | UnknownTag

  /** The `switch` of `decode`, then the `mapHexDecode` test for a string. */
  function TagOf(c: char): (t: Tag)
    ensures t == StringStart <==> LowersToDigit(c)
    ensures (t.IntegerTag? || t.FloatTag?) ==> (t.negative <==> 'A' <= c <= 'Z')
    ensures t.IntegerTag? <==> c == 'x' || c == 'X'
    ensures t.FloatTag? <==> c == 'q' || c == 'Q'
  {
    match c
    case '0' => FalseTag
    case '1' => TrueTag
    case '2' => NaNTag
    case '3' => NegInfinityTag
    case '4' => PosInfinityTag
    case '5' => UndefinedTag
    case '!' => NullTag
    case 'x' => IntegerTag(false)
    case 'X' => IntegerTag(true)
    case 'q' => FloatTag(false)
    case 'Q' => FloatTag(true)
    case '(' => ObjectTag
    case '_' => ArrayTag
    case 's' => SetTag
    case 'S' => MapTag
    case 'Z' => DateTag
    case 'v' => BufferTag
    case ')' => PluginTag
    case _ => if LowersToDigit(c) then StringStart else UnknownTag
  }

  /** A decoded number as a value; the rest is unchanged. */
  function AsInt(r: Result<Parsed<int>>): (d: Result<Parsed<Value>>)
    ensures d.Ok? <==> r.Ok?
    ensures d.Ok? ==> d.value.rest == r.value.rest
  {
    match r
    case Err(e) => Err(e)
    case Ok(Parsed(n, rest)) => Ok(Parsed(Int(n), rest))
  }

  /** A decoded string as a value; the rest is unchanged. */
  function AsStr(r: Result<Parsed<string>>): (d: Result<Parsed<Value>>)
    ensures d.Ok? <==> r.Ok?
    ensures d.Ok? ==> d.value.rest == r.value.rest
  {
    match r
    case Err(e) => Err(e)
    case Ok(Parsed(s, rest)) => Ok(Parsed(Str(s), rest))
  }

  /** `decode`: dispatch on the leading character. */
  function Decode(plugins: set<string>, x: string): (r: Result<Parsed<Value>>)
    ensures r.Ok? ==> |r.value.rest| < |x|
    ensures r.Ok? && NoLineBreak(x) ==> IsSuffix(r.value.rest, x)
    decreases |x|, 0
  {
    if x == [] then Err(EmptyInput)
    else
      var y := x[1..];
      var d :=
        match TagOf(x[0])
        case FalseTag => Ok(Parsed(Bool(false), y))
        case TrueTag => Ok(Parsed(Bool(true), y))
        case NaNTag => Ok(Parsed(NaN, y))
        case NegInfinityTag => Ok(Parsed(NegInfinity, y))
        case PosInfinityTag => Ok(Parsed(PosInfinity, y))
        case UndefinedTag => Ok(Parsed(Undefined, y))
        case NullTag => Ok(Parsed(Null, y))
        case IntegerTag(negative) => AsInt(DecodeInteger(y, negative))
        case FloatTag(negative) => DecodeFloat(y, negative)
        case ObjectTag => DecodeObject(plugins, y)
        case ArrayTag => DecodeArray(plugins, y)
        case SetTag => DecodeSet(plugins, y)
        case MapTag => DecodeMap(plugins, y)
        case DateTag => DecodeDate(y)
        case BufferTag => DecodeBuffer(y)
        case PluginTag => DecodePlugin(plugins, y)
        case StringStart => AsStr(DecodeString(x))
        case UnknownTag => Err(UnknownType);
      SuffixChain(y, x, x);
      if d.Ok? then SuffixChain(d.value.rest, y, x); d else d
  }

  /** The loop of `decodeArray` and `decodeSet`, from the elements `acc` collected so far:
      decode elements until `.` or the end, then drop the `.`. */
  function ArrayItems(plugins: set<string>, acc: seq<Value>, items: string): (r: Result<Parsed<seq<Value>>>)
    ensures r.Ok? ==> |r.value.rest| <= |items|
    ensures r.Ok? && NoLineBreak(items) ==> IsSuffix(r.value.rest, items)
    decreases |items|, 1
  {
    if items == [] || items[0] == '.' then Ok(Parsed(acc, Skip1(items)))
    else
      match Decode(plugins, items)
      case Err(e) => Err(e)
      case Ok(Parsed(v, rest)) => ArrayItems(plugins, acc + [v], rest)
  }

  /** The loop of `decodeObject`: a string key, then a value, until `.` or the end. */
  function ObjectItems(plugins: set<string>, acc: seq<(string, Value)>, items: string): (r: Result<Parsed<seq<(string, Value)>>>)
    ensures r.Ok? ==> |r.value.rest| <= |items|
    ensures r.Ok? && NoLineBreak(items) ==> IsSuffix(r.value.rest, items)
    decreases |items|, 1
  {
    if items == [] || items[0] == '.' then Ok(Parsed(acc, Skip1(items)))
    else
      match DecodeString(items)
      case Err(e) => Err(e)
      case Ok(Parsed(key, rest1)) =>
        match Decode(plugins, rest1)
        case Err(e) => Err(e)
        case Ok(Parsed(v, rest2)) =>
          var d := ObjectItems(plugins, Put(acc, key, v), rest2);
          SuffixChain(rest1, items, items);
          SuffixChain(rest2, rest1, items);
          if d.Ok? then SuffixChain(d.value.rest, rest2, items); d else d
  }

  /** The loop of `decodeMap`: a key value, then a value, until `.` or the end. */
  function MapItems(plugins: set<string>, acc: seq<(Value, Value)>, items: string): (r: Result<Parsed<seq<(Value, Value)>>>)
    ensures r.Ok? ==> |r.value.rest| <= |items|
    ensures r.Ok? && NoLineBreak(items) ==> IsSuffix(r.value.rest, items)
    decreases |items|, 1
  {
    if items == [] || items[0] == '.' then Ok(Parsed(acc, Skip1(items)))
    else
      match Decode(plugins, items)
      case Err(e) => Err(e)
      case Ok(Parsed(k, rest1)) =>
        match Decode(plugins, rest1)
        case Err(e) => Err(e)
        case Ok(Parsed(v, rest2)) =>
          var d := MapItems(plugins, acc + [(k, v)], rest2);
          SuffixChain(rest1, items, items);
          SuffixChain(rest2, rest1, items);
          if d.Ok? then SuffixChain(d.value.rest, rest2, items); d else d
  }

  /** `decodeArray`, applied to the input after the `_` tag. */
  function DecodeArray(plugins: set<string>, x: string): (r: Result<Parsed<Value>>)
    ensures r.Ok? <==> ArrayItems(plugins, [], x).Ok?
    ensures r.Ok? ==> r.value.value.Array? && r.value.rest == ArrayItems(plugins, [], x).value.rest
    ensures r.Ok? ==> |r.value.rest| <= |x|
    ensures r.Ok? && NoLineBreak(x) ==> IsSuffix(r.value.rest, x)
    decreases |x|, 2
  {
    match ArrayItems(plugins, [], x)
    case Err(e) => Err(e)
    case Ok(Parsed(vs, rest)) => Ok(Parsed(Array(vs), rest))
  }

  /** `decodeSet`, applied to the input after the `s` tag; members keep their decoding order. */
  function DecodeSet(plugins: set<string>, x: string): (r: Result<Parsed<Value>>)
    ensures r.Ok? <==> ArrayItems(plugins, [], x).Ok?
    ensures r.Ok? ==> r.value.value.Set? && r.value.rest == ArrayItems(plugins, [], x).value.rest
    ensures r.Ok? ==> |r.value.rest| <= |x|
    ensures r.Ok? && NoLineBreak(x) ==> IsSuffix(r.value.rest, x)
    decreases |x|, 2
  {
    match ArrayItems(plugins, [], x)
    case Err(e) => Err(e)
    case Ok(Parsed(vs, rest)) => Ok(Parsed(Set(vs), rest))
  }

  /** `decodeMap`, applied to the input after the `S` tag; entries keep their decoding order. */
  function DecodeMap(plugins: set<string>, x: string): (r: Result<Parsed<Value>>)
    ensures r.Ok? <==> MapItems(plugins, [], x).Ok?
    ensures r.Ok? ==> r.value.value.Map? && r.value.rest == MapItems(plugins, [], x).value.rest
    ensures r.Ok? ==> |r.value.rest| <= |x|
    ensures r.Ok? && NoLineBreak(x) ==> IsSuffix(r.value.rest, x)
    decreases |x|, 2
  {
    match MapItems(plugins, [], x)
    case Err(e) => Err(e)
    case Ok(Parsed(es, rest)) => Ok(Parsed(Map(es), rest))
  }

  /** `decodeObject`, applied to the input after the `(` tag. */
  function DecodeObject(plugins: set<string>, x: string): (r: Result<Parsed<Value>>)
    ensures r.Ok? <==> ObjectItems(plugins, [], x).Ok?
    ensures r.Ok? ==> r.value.value.Object? && r.value.rest == ObjectItems(plugins, [], x).value.rest
    ensures r.Ok? ==> |r.value.rest| <= |x|
    ensures r.Ok? && NoLineBreak(x) ==> IsSuffix(r.value.rest, x)
    decreases |x|, 2
  {
    match ObjectItems(plugins, [], x)
    case Err(e) => Err(e)
    case Ok(Parsed(ps, rest)) => Ok(Parsed(Object(ps), rest))
  }

  /** `decodePlugin`: a name, looked up in the registry before anything else is read,
      then the arguments as a bare element list ended by `.`. */
  function DecodePlugin(plugins: set<string>, x: string): (r: Result<Parsed<Value>>)
    ensures r.Ok? ==> |r.value.rest| < |x|
    ensures r.Ok? && NoLineBreak(x) ==> IsSuffix(r.value.rest, x)
    decreases |x|, 2
  {
    match DecodeString(x)
    case Err(e) => Err(e)
    case Ok(Parsed(name, rest1)) =>
      if name !in plugins then Err(MissingPlugin(name))
      else
        match ArrayItems(plugins, [], rest1)
        case Err(e) => Err(e)
        case Ok(Parsed(args, rest2)) =>
          SuffixChain(rest1, x, x);
          SuffixChain(rest2, rest1, x);
          Ok(Parsed(Ext(name, args), rest2))
  }

  /** `main`: decode one value and reject anything left over. */
  function Main(plugins: set<string>, x: string): (r: Result<Value>)
    ensures r.Ok? ==> Decode(plugins, x) == Ok(Parsed(r.value, []))
    ensures r.Err? && Decode(plugins, x).Ok? ==> r.error == ExtraCharacters && Decode(plugins, x).value.rest != []
  {
    match Decode(plugins, x)
    case Err(e) => Err(e)
    case Ok(Parsed(v, rest)) => if rest != [] then Err(ExtraCharacters) else Ok(v)
  }
}
