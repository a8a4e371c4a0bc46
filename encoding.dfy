/**
 * A reference encoder for the grammar decoded by module Codec, and the proof
 * that decoding inverts it. The package that encodes in kissmycipher
 * (cencode) is not part of this model; this encoder is the canonical inverse
 * the decoder is meant to have: integers without leading zero digits,
 * containers always closed by `.`.
 */
module Encoding {
  import opened Codec

  // ---------------------------------------------------------------------------
  // Digit letters

  /** The letter for a hexadecimal digit: 0..9 as `g`..`p`, 10..15 as `a`..`f`. */
  function DigitLetter(d: nat): (c: char)
    requires d < 16
    ensures IsLowerDigit(c) && HexCharValue(MapHexDecode(c)) == d
    ensures d < 10 ==> IsLowerDecimal(c)
  {
    if d < 10 then ('g' as int + d) as char else ('a' as int + d - 10) as char
  }

  /** Upper case of a digit letter: the terminator of a run. */
  function Terminator(c: char): (u: char)
    requires IsLowerDigit(c)
    ensures IsUpperDigit(u) && AsciiLower(u) == c
    ensures IsLowerDecimal(c) ==> IsUpperDecimal(u)
  {
    (c as int - 32) as char
  }

  /** The digit letters of `m` in base 16, most significant first; none for 0. */
  function Letters(m: nat): (s: string)
    ensures forall i :: 0 <= i < |s| ==> IsLowerDigit(s[i])
  {
    if m == 0 then [] else Letters(m / 16) + [DigitLetter(m % 16)]
  }

  /** The self-terminating encoding of a natural number. */
  function EncodeNat(n: nat): (s: string)
    ensures IsRun(s, false) && NoLineBreak(s)
  {
    Letters(n / 16) + [Terminator(DigitLetter(n % 16))]
  }

  /** The letter for a decimal digit character. */
  function DecimalLetter(h: char): (c: char)
    ensures IsLowerDecimal(c)
    ensures IsDecimalChar(h) ==> MapHexDecode(c) == h
  {
    if IsDecimalChar(h) then ('g' as int + (h as int - '0' as int)) as char else 'g'
  }

  predicate IsDecimalString(d: string) {
    |d| > 0 && forall i :: 0 <= i < |d| ==> IsDecimalChar(d[i])
  }

  /** One float run: the decimal digits of `d` as letters, the last one upper-case. */
  function DecimalRunOf(d: string): (s: string)
    ensures IsRun(s, true) && NoLineBreak(s)
  {
    if d == [] then "G"
    else
      seq(|d| - 1, i requires 0 <= i < |d| - 1 => DecimalLetter(d[i])) + [Terminator(DecimalLetter(d[|d| - 1]))]
  }

  /** A string: its length, then its characters. */
  function EncodeString(s: string): (e: string)
    ensures NoLineBreak(s) ==> NoLineBreak(e)
  {
    EncodeNat(|s|) + s
  }

  // ---------------------------------------------------------------------------
  // Values

  predicate DistinctKeys(props: seq<(string, Value)>) {
    forall i, j :: 0 <= i < j < |props| ==> props[i].0 != props[j].0
  }

  /** The values the encoder can write so that the decoder reads them back:
      float digits are decimal, text has no line terminator, object keys are distinct. */
  predicate Encodable(v: Value)
    decreases v
  {
    match v
    case Float(_, a, b) => IsDecimalString(a) && IsDecimalString(b)
    case Str(s) => NoLineBreak(s)
    case Buf(t) => NoLineBreak(t)
    case Array(vs) => forall i :: 0 <= i < |vs| ==> Encodable(vs[i])
    case Set(vs) => forall i :: 0 <= i < |vs| ==> Encodable(vs[i])
    case Map(es) => forall i :: 0 <= i < |es| ==> Encodable(es[i].0) && Encodable(es[i].1)
    case Object(ps) =>
      DistinctKeys(ps) && forall i :: 0 <= i < |ps| ==> NoLineBreak(ps[i].0) && Encodable(ps[i].1)
    case Ext(name, args) => NoLineBreak(name) && forall i :: 0 <= i < |args| ==> Encodable(args[i])
    case _ => true
  }

  /** Every extension name in `v` is registered. */
  predicate PluginsKnown(plugins: set<string>, v: Value)
    decreases v
  {
    match v
    case Array(vs) => forall i :: 0 <= i < |vs| ==> PluginsKnown(plugins, vs[i])
    case Set(vs) => forall i :: 0 <= i < |vs| ==> PluginsKnown(plugins, vs[i])
    case Map(es) => forall i :: 0 <= i < |es| ==> PluginsKnown(plugins, es[i].0) && PluginsKnown(plugins, es[i].1)
    case Object(ps) => forall i :: 0 <= i < |ps| ==> PluginsKnown(plugins, ps[i].1)
    case Ext(name, args) => name in plugins && forall i :: 0 <= i < |args| ==> PluginsKnown(plugins, args[i])
    case _ => true
  }

  predicate WellFormed(plugins: set<string>, v: Value) {
    Encodable(v) && PluginsKnown(plugins, v)
  }

  /** No line terminator in `a + b` when there is none in `a` or in `b`. */
  lemma NoLineBreakConcat(a: string, b: string)
    ensures NoLineBreak(a + b) <==> NoLineBreak(a) && NoLineBreak(b)
  {
    if NoLineBreak(a) && NoLineBreak(b) {
      forall i | 0 <= i < |a + b| ensures !IsLineTerminator((a + b)[i]) {
        if i >= |a| { assert (a + b)[i] == b[i - |a|]; }
      }
    }
    if NoLineBreak(a + b) {
      forall i | 0 <= i < |a| ensures !IsLineTerminator(a[i]) {
        assert a[i] == (a + b)[i];
      }
      forall i | 0 <= i < |b| ensures !IsLineTerminator(b[i]) {
        assert b[i] == (a + b)[|a| + i];
      }
    }
  }

  /** A tag character followed by `body`. */
  function Tagged(tag: char, body: string): (e: string)
    requires !IsLineTerminator(tag)
    ensures |e| > 0 && e[0] == tag && e[1..] == body
    ensures NoLineBreak(body) ==> NoLineBreak(e)
  {
    NoLineBreakConcat([tag], body);
    [tag] + body
  }

  /** A container: its tag, its elements, and the `.` terminator. */
  function Container(tag: char, elements: string): (e: string)
    requires !IsLineTerminator(tag)
    ensures |e| > 0 && e[0] == tag && e[1..] == elements + "."
    ensures NoLineBreak(elements) ==> NoLineBreak(e)
  {
    NoLineBreakConcat(elements, ".");
    Tagged(tag, elements + ".")
  }

  /** The canonical text of a value. */
  function Encode(v: Value): string
    decreases v
  {
    match v
    case Bool(b) => if b then "1" else "0"
    case NaN => "2"
    case NegInfinity => "3"
    case PosInfinity => "4"
    case Undefined => "5"
    case Null => "!"
    case Int(i) => if i >= 0 then Tagged('x', EncodeNat(i)) else Tagged('X', EncodeNat(-i))
    case Float(negative, a, b) => Tagged(if negative then 'Q' else 'q', DecimalRunOf(a) + DecimalRunOf(b))
    case Str(s) => EncodeString(s)
    case Buf(t) => Tagged('v', EncodeString(t))
    case Date(ms) => Tagged('Z', EncodeNat(ms))
    case Array(vs) => Container('_', EncodeAll(vs))
    case Set(vs) => Container('s', EncodeAll(vs))
    case Map(es) => Container('S', EncodeEntries(es))
    case Object(ps) => Container('(', EncodeProps(ps))
    case Ext(name, args) => Container(')', EncodeString(name) + EncodeAll(args))
  }

  function EncodeAll(vs: seq<Value>): string
    decreases vs
  {
    if vs == [] then [] else Encode(vs[0]) + EncodeAll(vs[1..])
  }

  function EncodeEntries(es: seq<(Value, Value)>): string
    decreases es
  {
    if es == [] then []
    else
      var entry := es[0];
      assert entry.0 < entry && entry.1 < entry;
      Encode(entry.0) + Encode(entry.1) + EncodeEntries(es[1..])
  }

  function EncodeProps(ps: seq<(string, Value)>): string
    decreases ps
  {
    if ps == [] then []
    else
      var prop := ps[0];
      assert prop.1 < prop;
      EncodeString(prop.0) + Encode(prop.1) + EncodeProps(ps[1..])
  }
}
