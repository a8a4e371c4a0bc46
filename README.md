# kissmycipher in Dafny

This project models the two algorithmic parts of kissmycipher and proves properties of them.

- **The text decoder (`decencode.js`).** It is a recursive-descent parser over a type-tagged grammar. The first character of an encoded value names its type. Integers are self-terminating runs of letters: lower-case `a`..`p`, ended by an upper-case `A`..`P`. Strings are a length followed by that many characters. Containers repeat elements until a `.` or the end of the input.
- **The stream cipher (`index.js`).** A pass (`espreadValue`) seeds a pseudo-random generator and XORs one low output byte into each byte of a buffer, from the last byte down to the first. `cipher` chains `|password| + 1` such passes. `encrypt` ciphers the payload under a random key, puts the key in front, and ciphers the whole under the password. `decrypt` undoes these steps.

Modules:

- `Codec` (`codec.dfy`) holds the value and error types and every decoding rule, as total functions from the input to `Ok(Parsed(value, rest))` or `Err(error)`.
  - The registry of plugins is the set of registered names. A plugin's result is kept as an `Ext(name, args)` node.
  - The `(.*)` tail of the integer and float regular expressions stops at a line terminator (`\n`, `\r`, U+2028, U+2029). The model keeps that truncation (`Tail`). Two consequences follow.
    - `main` accepts `xB\n0` as 11 and drops the `0` (`CodecProps.LineBreakHidesTrailing`).
    - A string's length is read by the same rule, so text holding a line terminator is cut at the terminator. `Ja\nb` announces three characters, but `main` returns `a` (`CodecProps.LineBreakCutsString`). The round trip therefore covers only values whose strings, buffer texts, object keys and plugin names hold no line terminator. These are the values the model calls well-formed. `RoundTrip.LineBreakBreaksRoundTrip` shows that `a\nb` does not come back.
  - Each `char` stands for one UTF-16 code unit of a JavaScript string. Dafny's `char` is a Unicode scalar value, so lone surrogates are outside the model.
  - Three helpers stand for JavaScript built-ins: `ParseHex` for `parseInt(…, 16)` on a digit string, `Skip1` for `substr(1)` (which yields the empty string on empty input) and `AsciiLower` for `toLowerCase()` on ASCII letters.
- `CodecLoops` (`codec_loops.dfy`) holds the four container decoders as written: a `while` loop moving the cursor `items` and growing a fresh container. Each is proved to compute the matching function of `Codec`.
- `CodecProps` (`codec_props.dfy`) holds the properties of the rules: dispatch, exact acceptance of integers and floats, string lengths, containers, plugins and `main`.
- `Encoding` and `RoundTrip` (`encoding.dfy`, `roundtrip.dfy`) hold the round trip.
  - `Encoding` is a reference encoder: canonical integers and containers always closed by `.`.
  - `RoundTrip` proves that `main` decodes the encoding of every well-formed value back to that value. A value is well-formed when no text inside it holds a line terminator, its float digits are decimal, its object keys are distinct, and its plugin names are registered.
  - The package whose encoder the system uses (cencode) is not part of this model. This encoder stands in as the inverse the decoder must have.
- `StreamCipher` (`cipher.dfy`) holds the cipher.
  - The generator is a function parameter. `gen(seed, k)` is the k-th `int32()` output of the generator seeded with `seed`. Nothing is assumed about it.
  - `Prng` is the generator object: its `drawn` counter is what `int32()` advances.
  - `SpreadValue`, `Cipher` and `AppendBuffer` work in place on `array<bv8>`. They are proved against the functions `PassMask`, `CipherMask`/`CipherBytes` and sequence concatenation.
- `Token` (`token.dfy`) models the order of steps in `encrypt` and `decrypt`. The random key, the serializer, the deserializer and base64url are parameters.

A container that runs off the end of the input is not an error. The loops of `decodeObject`, `decodeArray`, `decodeSet` and `decodeMap` (decencode.js:92-135) stop at the end of the input, and `items.substr(1)` then returns the empty string. The elements read so far are returned (`Codec.ArrayItems`, `Codec.MapItems`, `Codec.ObjectItems`, `CodecProps.ItemsAtEnd`, `CodecProps.UnterminatedArrayExample`).

The guard `typeof Buffer !== undefined` at decencode.js:59 compares a string with `undefined`, so it is always true. The `v` tag therefore always goes to `decodeBuffer`, and the "Buffer not defined" error cannot occur.

## Model

| member | source | states |
|---|---|---|
| Codec.MapHexDecode | decencode.js:1-18 | the table sends `g`..`p` to the decimal digits and `a`..`f` to themselves; every result is a hex digit, and a decimal one exactly for `g`..`p` |
| Codec.LowersToDigit | decencode.js:65-66 | the string test `mapHexDecode[c.toLowerCase()]` holds exactly for a character whose lower case is a digit letter `a`..`p`, the KELVIN SIGN included |
| Codec.Tail | decencode.js:73 | the `(.*)` group keeps a prefix with no line terminator, ended by the end of input or a line terminator; the whole input when it has none |
| Codec.RunMatch | decencode.js:73 | the length of the matched prefix, at most the input length; a nonzero length is a run |
| Codec.RunMatchExact | decencode.js:73 | the match is exact: a prefix of length k is a run if and only if k is the matched length |
| Codec.MapDigits | decencode.js:78 | mapping a run keeps its length and yields hex digits; a decimal run yields decimal digits |
| Codec.DecodeInteger | decencode.js:72-79 | success consumes input: the rest is shorter, and a suffix of the input when the input has no line break; an unsigned integer is never negative |
| Codec.DecodeFloat | decencode.js:81-88 | success consumes input; when the input has no line break, the rest is a suffix of it |
| Codec.DecodeString | decencode.js:143-146 | success consumes input; when the input has no line break, the rest is a suffix of it |
| Codec.DecodeDate | decencode.js:138-141 | success consumes input; when the input has no line break, the rest is a suffix of it |
| Codec.DecodeBuffer | decencode.js:162-166 | success consumes input; when the input has no line break, the rest is a suffix of it |
| Codec.Lookup | decencode.js:97 | no value is found exactly when no property has the key |
| Codec.Put | decencode.js:97 | afterwards the key maps to the new value and every other key is unchanged; a new key goes at the end; for an existing key the length and the order of the keys are unchanged, so the key keeps its place |
| Codec.TagOf | decencode.js:25-67 | the `switch` of `decode`: only `x`/`X` are integer tags and `q`/`Q` float tags, the upper-case one negative; a character starts a string exactly when it lower-cases to a digit letter |
| Codec.Decode | decencode.js:22-70 | every success returns a strictly shorter rest, a suffix of the input when the input has no line break (the termination measure of the decoder) |
| Codec.ArrayItems | decencode.js:107-112 | the element loop never grows the input; when the input has no line break, what it leaves is a suffix |
| Codec.ObjectItems | decencode.js:93-101 | the property loop never grows the input; when the input has no line break, what it leaves is a suffix |
| Codec.MapItems | decencode.js:129-135 | the entry loop never grows the input; when the input has no line break, what it leaves is a suffix |
| Codec.DecodeArray | decencode.js:104-113 | succeeds exactly when the element loop does, and then gives an array with the rest the loop left |
| Codec.DecodeSet | decencode.js:115-124 | succeeds exactly when the element loop does, and then gives a set with the rest the loop left |
| Codec.DecodeMap | decencode.js:126-136 | succeeds exactly when the entry loop does, and then gives a map with the rest the loop left |
| Codec.DecodeObject | decencode.js:90-102 | succeeds exactly when the property loop does, and then gives an object with the rest the loop left |
| Codec.DecodePlugin | decencode.js:148-160 | success consumes input; when the input has no line break, the rest is a suffix of it |
| Codec.Main | decencode.js:168-175 | a result of `main` is a value `decode` returns with nothing left over; when `decode` succeeds and `main` fails, characters were left over and the error is the extra-characters one |
| CodecLoops.DecodeArray | decencode.js:104-113 | the loop that pushes elements until `.` or the end computes the array rule exactly, errors included |
| CodecLoops.DecodeSet | decencode.js:115-124 | the loop that adds members computes the set rule exactly, errors included |
| CodecLoops.DecodeMap | decencode.js:126-136 | the loop that sets key-value entries computes the map rule exactly, errors included |
| CodecLoops.DecodeObject | decencode.js:90-102 | the loop that assigns `object[key]` computes the object rule exactly, errors included |
| CodecProps.DispatchInteger | decencode.js:40-43 | a leading `x` reads an integer from the next character, and a leading `X` reads a negated one |
| CodecProps.DispatchFloat | decencode.js:44-47 | a leading `q` reads a float from the next character, and a leading `Q` reads a negative one |
| CodecProps.DispatchObject | decencode.js:48-49 | a leading `(` reads an object from the next character |
| CodecProps.DispatchArray | decencode.js:50-51 | a leading `_` reads an array from the next character |
| CodecProps.DispatchSet | decencode.js:52-53 | a leading `s` reads a set from the next character |
| CodecProps.DispatchMap | decencode.js:54-55 | a leading `S` reads a map from the next character |
| CodecProps.DispatchDate | decencode.js:56-57 | a leading `Z` reads a date from the next character |
| CodecProps.DispatchBuffer | decencode.js:58-62 | a leading `v` reads a buffer from the next character |
| CodecProps.DispatchPlugin | decencode.js:63-64 | a leading `)` reads a plugin call from the next character |
| CodecProps.DispatchString | decencode.js:66-67 | a leading digit letter not in the tag table starts a string, read from that same character |
| CodecProps.DispatchOrder | decencode.js:25-69 | the tag table is consulted first; a character that lower-cases to a digit letter starts a string exactly when it is no tag; every other character is unknown |
| CodecProps.DecodeEmpty | decencode.js:23 | empty input is an error |
| CodecProps.DispatchUnknown | decencode.js:69 | a character neither in the table nor a digit letter fails with the unknown-type error |
| CodecProps.UnknownTypeExample | decencode.js:69 | `#` followed by anything is an unknown type |
| CodecProps.ConstantTags | decencode.js:26-39 | each of `0 1 2 3 4 5 !` gives its constant and consumes exactly one character |
| CodecProps.DecodeIntegerExact | decencode.js:72-79 | the integer rule succeeds if and only if some prefix is a run; the value is the hex number of the mapped run, negated for the sign flag; the rest follows the run |
| CodecProps.DecodeIntegerRest | decencode.js:72-79 | with no line break after the run, the rest is exactly the input after the run |
| CodecProps.DecodeIntegerExample | decencode.js:72-79 | `hB` gives 27 (0x1b), `G` gives 0, and `hB` negated gives -27 |
| CodecProps.DecodeIntegerRejects | decencode.js:74-76 | input that does not start with a digit letter fails with the wrong-integer error |
| CodecProps.DecodeIntegerSign | decencode.js:78 | the sign flag changes nothing but the sign of the value |
| CodecProps.NegativeTag | decencode.js:40-43 | `X` succeeds exactly when `x` does on the same letters, and yields the negated integer with the same rest |
| CodecProps.SignedPair | decencode.js:40-43 | the same statement for any two inputs that differ only in the sign tag |
| CodecProps.DecodeStringSpec | decencode.js:143-146 | a string succeeds exactly when its length does; it takes `min(n, remaining)` characters, and text plus rest is what followed the length |
| CodecProps.DecodeFloatExact | decencode.js:81-88 | a float succeeds if and only if two decimal runs follow; its digits are the mapped runs, and the rest follows the second run |
| CodecProps.DecodeFloatDigits | decencode.js:87 | both digit strings of a decoded float are decimal, and the sign is the flag |
| CodecProps.DecodeFloatRejectsHexLetters | decencode.js:82-85 | a float starting with `a`..`f` or `A`..`F` fails |
| CodecProps.EmptyArray | decencode.js:104-113 | `_.` is the empty array with empty rest |
| CodecProps.ItemsAtEnd | decencode.js:90-136 | at the end of input every loop stops without error and returns what it has |
| CodecProps.UnterminatedArrayExample | decencode.js:104-113 | `_01` is `[false, true]` without error, although no `.` closes it |
| CodecProps.ItemsClose | decencode.js:90-136 | a `.` ends every loop and is consumed |
| CodecProps.OneLetterInteger | decencode.js:72-79 | a lone terminator is a one-digit integer, and the rest starts right after it |
| CodecProps.RepeatedKeyExample | decencode.js:94-97 | in `(HaxBHaxC.` the second `a` overwrites the first: the object is `{a: 12}` |
| CodecProps.UnknownPluginFailsFirst | decencode.js:149-154 | an unregistered name fails with the missing-plugin error whatever follows it |
| CodecProps.PluginArguments | decencode.js:156-159 | a registered name takes its arguments as a bare element list, with no `_` tag |
| CodecProps.MainExact | decencode.js:168-175 | `main` succeeds exactly when `decode` does with empty rest, and then returns its value; a nonempty rest is the extra-characters error |
| CodecProps.MainRejectsTrailing | decencode.js:171-173 | `0x` is rejected for its trailing character |
| CodecProps.LineBreakHidesTrailing | decencode.js:168-175 | `xB\n0` is accepted as 11: the tail group stops at the line break, so the `0` is dropped |
| CodecProps.LineBreakCutsString | decencode.js:143-146 | `Ja\nb` announces three characters, but the tail of the length stops at the line break: `main` returns `a` |
| Encoding.EncodeNat | decencode.js:72-79 | the encoding of a natural number is one run, with no line break |
| Encoding.DecimalRunOf | decencode.js:81-88 | a float run of decimal digits matches `[g-p]*[G-P]` and has no line break |
| Encoding.EncodeString | decencode.js:143-146 | a string with no line break encodes to text with no line break |
| Encoding.DigitLetter | decencode.js:1-18 | each hex digit has a lower-case letter that the table maps back to it |
| RoundTrip.DecimalRunValue | decencode.js:87 | mapping a float run through the table gives back its decimal digits |
| RoundTrip.EncodeNatValue | decencode.js:78 | mapping the encoding of `n` through the table spells `n` in hexadecimal |
| RoundTrip.DecodeEncodeNat | decencode.js:72-79 | the integer rule reads back the encoding of `n`, with either sign, and leaves the rest untouched |
| RoundTrip.DecodeEncodeString | decencode.js:143-146 | the string rule reads back a length-prefixed string |
| RoundTrip.DecodeEncodeFloat | decencode.js:81-88 | the float rule reads back two decimal runs as their digit strings |
| RoundTrip.DecodeEncodeInt | decencode.js:40-43 | `decode` reads back every integer, negative ones through `X` |
| RoundTrip.DecodeEncode | decencode.js:22-160 | `decode` reads back the encoding of every well-formed value and leaves the rest untouched |
| RoundTrip.ArrayItemsEncode | decencode.js:107-111 | the element loop reads back a run of encoded elements |
| RoundTrip.MapItemsEncode | decencode.js:129-134 | the entry loop reads back a run of encoded entries |
| RoundTrip.ObjectItemsEncode | decencode.js:93-100 | the property loop reads back a run of properties with distinct keys |
| RoundTrip.MainEncode | decencode.js:168-175 | `main` returns every well-formed value from its encoding |
| RoundTrip.LineBreakBreaksRoundTrip | decencode.js:143-146 | text holding a line break is outside the round trip: `a\nb` encodes to `Ja\nb`, which `main` reads back as `a` |
| StreamCipher.Prng.constructor | index.js:35 | a freshly seeded generator has drawn nothing |
| StreamCipher.Prng.Int32 | index.js:35-40 | each call returns the next output of the seeded generator and advances the counter by one |
| StreamCipher.PassMask | index.js:37-38 | one pass over a buffer of length n has n mask bytes |
| StreamCipher.LowByteResidue | index.js:38 | `LowByte` is `v & 255`: values 256 apart have one low byte, 0..255 are their own low byte, and -1 gives 255 |
| StreamCipher.PassChangesEachByteOnce | index.js:37-38 | byte k is XORed once, with the low byte of output n-1-k: the last index is visited first |
| StreamCipher.PassOfBytes | index.js:37-38 | conversely, a buffer changed at each index k by exactly the low byte of output n-1-k is the result of the pass |
| StreamCipher.SpreadValue | index.js:34-41 | the buffer becomes its old contents XOR the pass mask of seed `lastValue + value`; the result is output number n of that generator |
| StreamCipher.Seeds | index.js:44-48 | the chain of seeds has one entry per pass, and the first is `|password| + |message|` |
| StreamCipher.SeedsChain | index.js:46-47 | pass t+1 is seeded by pass t's return value plus password byte `|password|-1-t` |
| StreamCipher.CipherSeeds | index.js:43-49 | `cipher` makes `|password| + 1` passes |
| StreamCipher.CipherMask | index.js:43-49 | the combined mask of all passes has the message's length, and is a function of the generator, the password and that length alone: the message bytes are not among its arguments |
| StreamCipher.CipherBytes | index.js:43-49 | the bytes `cipher` leaves keep the message's length; `StreamCipher.CipherInvolution` states that applying it twice restores them |
| StreamCipher.PassStep | index.js:46-47 | one turn of the loop: the pass seeded by the previous return value plus password byte i extends the combined mask by the next seed of the chain, and returns the value that seeds the pass after it |
| StreamCipher.Cipher | index.js:43-49 | the message becomes `CipherBytes(password, old message)`: the old bytes XOR the combined mask of all passes |
| StreamCipher.CipherInvolution | index.js:43-49 | `cipher` applied twice with one password restores the message |
| StreamCipher.MaskIndependent | index.js:43-49 | two messages of one length are changed by the same bytes: the mask depends only on the password and the length |
| StreamCipher.XorTwice | index.js:38 | XOR with the same mask twice is the identity |
| StreamCipher.XorAssoc | index.js:38 | successive XOR passes compose into one |
| StreamCipher.AppendBuffer | index.js:51-57 | the result is a fresh buffer of length `|key| + |payload|`, holding `key` then `payload` |
| Token.Seal | index.js:72-83 | the bytes `encrypt` encodes are as long as the key and the payload together |
| Token.Open | index.js:59-69 | the bytes `decrypt` deserializes are as long as the message without its first `min(strength, length)` bytes; `Token.OpenSeal` states that they are the payload `encrypt` was given |
| Token.RecoveredKey | index.js:65 | the key `decrypt` reads is `min(strength, length)` bytes long |
| Token.PasswordPassUndone | index.js:59-84 | undoing the password pass gives back the key followed by the ciphered payload |
| Token.KeyRecovered | index.js:59-84 | with the strength the key was made with, the first bytes after the password pass are exactly the key |
| Token.OpenSeal | index.js:59-84 | `decrypt` with the same password and strength returns the payload that `encrypt` was given |
| Token.TokenRoundTrip | index.js:59-84 | `decrypt` returns `data` from `encrypt`'s token when base64url decoding inverts encoding and the deserializer reads `data` itself back from its serialization. The hypothesis is about `data` alone, so a codec that reads back only some values qualifies for those values. The decoder is such a codec: it reads back every well-formed value (`RoundTrip.MainEncode`) |
| Token.Encrypt | index.js:72-84 | `encrypt` returns the base64url encoding of `Seal(password, key, serialized data)` |
| Token.Decrypt | index.js:59-70 | `decrypt` returns the deserialization of `Open(password, strength, decoded token)` |

## Left out

- The seedrandom generator's internals (index.js:1, 35) are not modelled. The generator is a parameter, so every property holds for any generator.
- Random key generation and the browser/server switch (index.js:14-32) are not modelled. `Token.Encrypt` takes the random key as a parameter.
- base64url encoding and decoding (index.js:2, 60, 83) are not modelled. They are parameters, and the round trip assumes that decoding inverts encoding.
- The `v` rule keeps the base64url text (`Buf`). `Buffer.from(text, 'base64url')` at decencode.js:165 is a foreign call and is not modelled.
- The cencode package behind the default serializer and deserializer (index.js:3, 6-7) is not part of this model. Both are parameters of `Token.Encrypt` and `Token.Decrypt`.
- The `prng` option (index.js:59, 63, 67, 72, 77, 81) is not modelled, because `cipher` ignores its third argument.
- The conversion of the password string to UTF-8 bytes (index.js:61, 74) is not modelled. The password is given as bytes.
- Token.Decrypt: `message.slice` (index.js:65-66) returns views that share memory with `message`. The model copies the payload instead. This changes nothing observable, because `message` is not read again.
- Token.Decrypt: `strength` is a natural number. Negative and fractional strengths, which `slice` interprets differently, are not modelled.
- Codec.DecodeInteger: `parseInt` loses precision above 2^53 (decencode.js:78). The model uses unbounded integers. It also returns 0 where JavaScript returns -0.
- Codec.DecodeFloat: `parseFloat` (decencode.js:87) is not modelled. A float is kept as its sign and its two decimal digit strings.
- Codec.DecodeDate: `new Date(integer)` (decencode.js:140) is kept as the millisecond count. Date validity and the time-value range are not modelled.
- Codec.DecodePlugin: calling the plugin function (decencode.js:159) is a foreign call into a mutable global registry. The model returns the `Ext(name, args)` node, and the registry is the set of names whose lookup is truthy.
- The `verify` callback and its promise handling (decencode.js:181-190) are asynchronous control flow around `decode` and `main`, and are not modelled.
- Codec.DecodeSet, Codec.DecodeMap: the de-duplication of `Set.add` and `Map.set` (decencode.js:120, 132) by SameValueZero and reference identity is not modelled. Members and entries are kept in decoding order.
- Codec.Put: JavaScript lists integer-like keys first in ascending order, and `__proto__` is special. Neither is modelled: every key keeps its insertion position.
- The text of error messages, including the `x.substr(10)` at decencode.js:69, is not modelled. Each error is a constructor of `Error`.
- Surrogates are not modelled. Each `char` stands for one UTF-16 code unit, as `x[0]` and `substr` see it. Lone surrogates cannot be written as a Dafny `char`, so strings holding them are outside the model.
- Case folding outside ASCII is not modelled, except for the one character whose lower case is a digit letter (KELVIN SIGN). Other non-ASCII characters that lower-case to ASCII, such as U+0130, do not lower-case to a single table key.
