/**
 * `encrypt` and `decrypt` of index.js: the payload is ciphered under a random
 * key, the key is put in front of it, and the whole is ciphered under the
 * password; decryption undoes the password pass, splits the key off after
 * `strength` bytes and undoes the key pass.
 *
 * The random key, the serializer and deserializer, and base64url encoding and
 * decoding are parameters.
 */
module Token {
  import opened StreamCipher

  function Min(a: nat, b: nat): (m: nat)
    ensures m <= a && m <= b && (m == a || m == b)
  {
    if a <= b then a else b
  }

  /** The bytes `encrypt` produces before base64url encoding. */
  function Seal(gen: Generator, password: seq<Byte>, key: seq<Byte>, payload: seq<Byte>): (message: seq<Byte>)
    ensures |message| == |key| + |payload|
  {
    CipherBytes(gen, password, key + CipherBytes(gen, key, payload))
  }

  /** The split point of `message.slice(0, strength)` and `message.slice(strength)`. */
  function Cut(strength: nat, message: seq<Byte>): (cut: nat)
    ensures cut <= |message|
  {
    Min(strength, |message|)
  }

  /** The key `decrypt` reads: the first `strength` bytes once the password pass is undone. */
  function RecoveredKey(gen: Generator, password: seq<Byte>, strength: nat, message: seq<Byte>): (key: seq<Byte>)
    ensures |key| == Min(strength, |message|)
  {
    var m := CipherBytes(gen, password, message);
    m[..Cut(strength, m)]
  }

  /** The bytes `decrypt` hands to the deserializer. */
  function Open(gen: Generator, password: seq<Byte>, strength: nat, message: seq<Byte>): (payload: seq<Byte>)
    ensures |payload| == |message| - Min(strength, |message|)
  {
    var m := CipherBytes(gen, password, message);
    var cut := Cut(strength, m);
    CipherBytes(gen, m[..cut], m[cut..])
  }

  /** Undoing the password pass gives back the key followed by the ciphered payload. */
  lemma {:induction false} PasswordPassUndone(gen: Generator, password: seq<Byte>, key: seq<Byte>, payload: seq<Byte>)
    ensures CipherBytes(gen, password, Seal(gen, password, key, payload)) == key + CipherBytes(gen, key, payload)
  {
    CipherInvolution(gen, password, key + CipherBytes(gen, key, payload));
  }

  /** With the strength the key was made with, the first bytes `decrypt` reads are the key. */
  lemma {:induction false} KeyRecovered(gen: Generator, password: seq<Byte>, key: seq<Byte>, payload: seq<Byte>)
    ensures RecoveredKey(gen, password, |key|, Seal(gen, password, key, payload)) == key
  {
    PasswordPassUndone(gen, password, key, payload);
    var m := key + CipherBytes(gen, key, payload);
    assert m[..|key|] == key;
  }

  /** `decrypt` with the same password and strength returns the payload `encrypt` was given. */
  lemma {:induction false} OpenSeal(gen: Generator, password: seq<Byte>, key: seq<Byte>, payload: seq<Byte>)
    ensures Open(gen, password, |key|, Seal(gen, password, key, payload)) == payload
  {
    PasswordPassUndone(gen, password, key, payload);
    var m := key + CipherBytes(gen, key, payload);
    assert m[..|key|] == key && m[|key|..] == CipherBytes(gen, key, payload);
    CipherInvolution(gen, key, payload);
  }

  /** `decrypt(password, encrypt(password, data))` is `data` when base64url decoding
      inverts encoding and the deserializer reads `data` back from its serialization. */
  lemma {:induction false} TokenRoundTrip<D>(gen: Generator, password: seq<Byte>, key: seq<Byte>, data: D,
                                             serializer: D -> seq<Byte>, deserializer: seq<Byte> -> D,
                                             encode: seq<Byte> -> string, decode: string -> seq<Byte>)
    requires deserializer(serializer(data)) == data
    requires forall b :: decode(encode(b)) == b
    ensures deserializer(Open(gen, password, |key|, decode(encode(Seal(gen, password, key, serializer(data)))))) == data
  {
    OpenSeal(gen, password, key, serializer(data));
  }

  /** A fresh buffer holding `bytes`. */
  method FromBytes(bytes: seq<Byte>) returns (a: array<Byte>)
    ensures fresh(a) && a[..] == bytes
  {
    a := new Byte[|bytes|](i requires 0 <= i < |bytes| => bytes[i]);
  }

  /** `encrypt`, with the random key of `strength` bytes given. */
  method Encrypt<D>(gen: Generator, password: seq<Byte>, randomKey: seq<Byte>, data: D,
                    serializer: D -> seq<Byte>, encode: seq<Byte> -> string) returns (sealed: string)
    ensures sealed == encode(Seal(gen, password, randomKey, serializer(data)))
  {
    var key := FromBytes(randomKey);
    var payload := FromBytes(serializer(data));
    Cipher(gen, key[..], payload);
    var message := AppendBuffer(key, payload);
    Cipher(gen, password, message);
    sealed := encode(message[..]);
  }

  /** `decrypt`: the key and the payload are the two parts of the message after
      the password pass. */
  method Decrypt<D>(gen: Generator, password: seq<Byte>, sealed: string, strength: nat,
                    deserializer: seq<Byte> -> D, decode: string -> seq<Byte>) returns (data: D)
    ensures data == deserializer(Open(gen, password, strength, decode(sealed)))
  {
    var message := FromBytes(decode(sealed));
    Cipher(gen, password, message);
    var cut := Min(strength, message.Length);
    var key := message[..cut];
    var payload := FromBytes(message[cut..]);
    Cipher(gen, key, payload);
    data := deserializer(payload[..]);
  }
}
