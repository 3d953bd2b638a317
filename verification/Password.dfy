/**
 Password hashing (internal/auth/password.go): the hand-written PBKDF2 loops against section 5.2 of
 RFC 8018, and hashing against verification.  HMAC-SHA-256 and base64 are function-valued parameters.
 */
module Password {
  import opened Text

  type Mac = (Bytes, Bytes) -> Bytes

  const HASH_BYTES: nat := 32
  const SALT_BYTES: nat := 16
  const KEY_BYTES: nat := 32
  const ITERATIONS: nat := 600_000

  ghost predicate IsMac(mac: Mac) {
    forall key: Bytes, message: Bytes :: |mac(key, message)| == HASH_BYTES
  }

  // ----- Section 5.2 of RFC 8018 -----

  /** INT(i): the four-octet encoding of the block index, most significant octet first. */
  function Int(i: nat): Bytes {
    [i / 0x100_0000 % 0x100, i / 0x1_0000 % 0x100, i / 0x100 % 0x100, i % 0x100]
  }

  function XorByte(a: Byte, b: Byte): Byte {
    ((a as bv8) ^ (b as bv8)) as int
  }

  function Xor(a: Bytes, b: Bytes): (r: Bytes)
    requires |a| == |b|
    ensures |r| == |a| && forall i :: 0 <= i < |a| ==> r[i] == XorByte(a[i], b[i])
  {
    seq(|a|, i requires 0 <= i < |a| => XorByte(a[i], b[i]))
  }

  /** U_j of block i. */
  ghost function U(mac: Mac, p: Bytes, s: Bytes, i: nat, j: nat): (u: Bytes)
    requires IsMac(mac) && j >= 1
    ensures |u| == HASH_BYTES
  {
    if j == 1 then mac(p, s + Int(i)) else mac(p, U(mac, p, s, i, j - 1))
  }

  /** F(P, S, c, i) = U_1 xor ... xor U_c. */
  ghost function F(mac: Mac, p: Bytes, s: Bytes, c: nat, i: nat): (t: Bytes)
    requires IsMac(mac) && c >= 1
    ensures |t| == HASH_BYTES
  {
    if c == 1 then U(mac, p, s, i, 1) else Xor(F(mac, p, s, c - 1, i), U(mac, p, s, i, c))
  }

  /** T_1 || ... || T_l. */
  ghost function Blocks(mac: Mac, p: Bytes, s: Bytes, c: nat, l: nat): (dk: Bytes)
    requires IsMac(mac) && c >= 1
    ensures |dk| == l * HASH_BYTES
  {
    if l == 0 then [] else Blocks(mac, p, s, c, l - 1) + F(mac, p, s, c, l)
  }

  function BlockCount(length: nat): nat {
    (length + HASH_BYTES - 1) / HASH_BYTES
  }

  /** The first `length` octets of the concatenated blocks. */
  ghost function Pbkdf2(mac: Mac, p: Bytes, s: Bytes, c: nat, length: nat): (dk: Bytes)
    requires IsMac(mac) && c >= 1
    ensures |dk| == length
  {
    Blocks(mac, p, s, c, BlockCount(length))[..length]
  }

  // ----- The source's loops -----

  method XorInto(t: array<Byte>, u: Bytes)
    requires t.Length == |u|
    modifies t
    ensures t[..] == Xor(old(t[..]), u)
  {
    hide XorByte;
    for j := 0 to t.Length
      invariant forall k :: 0 <= k < j ==> t[k] == XorByte(old(t[k]), u[k])
      invariant forall k :: j <= k < t.Length ==> t[k] == old(t[k])
    {
      t[j] := XorByte(t[j], u[j]);
    }
  }

  method CopyOf(u: Bytes) returns (t: array<Byte>)
    ensures fresh(t) && t[..] == u
  {
    t := new Byte[|u|](i requires 0 <= i < |u| => u[i]);
    assert t[..] == u;
  }

  method DeriveBlock(mac: Mac, password: Bytes, salt: Bytes, iterations: int, block: nat) returns (t: array<Byte>)
    requires IsMac(mac)
    ensures fresh(t) && t[..] == F(mac, password, salt, if iterations < 1 then 1 else iterations, block)
  {
    hide Int, Xor;
    var u := mac(password, salt + Int(block));
    t := CopyOf(u);
    var i := 1;
    while i < iterations
      invariant 1 <= i && (iterations >= 1 ==> i <= iterations) && (iterations < 1 ==> i == 1)
      invariant u == U(mac, password, salt, block, i)
      invariant t[..] == F(mac, password, salt, i, block)
    {
      u := mac(password, u);
      XorInto(t, u);
      i := i + 1;
    }
  }

  /** For every password, salt, iteration count and length; a count below 1 behaves as 1. */
  method Derive(mac: Mac, password: Bytes, salt: Bytes, iterations: int, length: nat) returns (key: Bytes)
    requires IsMac(mac)
    ensures key == Pbkdf2(mac, password, salt, if iterations < 1 then 1 else iterations, length)
  {
    ghost var c := if iterations < 1 then 1 else iterations;
    key := [];
    var block := 1;
    while |key| < length
      invariant block >= 1 && key == Blocks(mac, password, salt, c, block - 1)
      invariant block > 1 ==> (block - 2) * HASH_BYTES < length
      decreases length - |key|
    {
      var t := DeriveBlock(mac, password, salt, iterations, block);
      key := key + t[..];
      block := block + 1;
    }
    assert block - 1 == BlockCount(length);
    key := key[..length];
  }

  /** Within the first 2^32-1 blocks the four octets do encode the block index. */
  lemma IntIsBlockIndex(i: nat)
    requires i < 0x1_0000_0000
    ensures
      var o := Int(i);
      o[0] as int * 0x100_0000 + o[1] as int * 0x1_0000 + o[2] as int * 0x100 + o[3] as int == i
  {
    FourBytes(i);
    assert i / 0x100_0000 % 0x100 == i / 0x100_0000;
  }

  // ----- Hashing and verifying -----

  datatype Base64 = Base64(encode: Bytes -> string, decode: string -> Option<Bytes>)

  /** Unpadded base64: decoding undoes encoding, and the alphabet has no '$'. */
  ghost predicate IsBase64(b: Base64) {
    forall data: Bytes :: b.decode(b.encode(data)) == Some(data) && '$' !in b.encode(data)
  }

  /** `strings.Split(s, "$")`. */
  function Split(s: string): seq<string>
    decreases |s|
  {
    var cut := IndexOf(s, '$');
    if cut == |s| then [s] else [s[..cut]] + Split(s[cut + 1..])
  }

  lemma SplitFirst(a: string, b: string)
    requires '$' !in a
    ensures Split(a + "$" + b) == [a] + Split(b)
  {
    var s := a + ['$'] + b;
    IndexOfConcat(a, '$', b);
    assert s[..|a|] == a && s[|a| + 1..] == b;
  }

  lemma SplitLast(a: string)
    requires '$' !in a
    ensures Split(a) == [a]
  {
  }

  predicate IsDigit(c: char) {
    '0' <= c <= '9'
  }

  function Digits(s: string, value: nat): Option<nat> {
    if s == "" then Some(value)
    else if IsDigit(s[0]) then Digits(s[1..], value * 10 + (s[0] as int - '0' as int))
    else None
  }

  /** `strconv.Atoi`, without its range: a value outside 64 bits is out of the accepted range anyway. */
  function Atoi(s: string): Option<int> {
    var signed := s != "" && (s[0] == '-' || s[0] == '+');
    var digits := if signed then s[1..] else s;
    if digits == "" then None
    else
      match Digits(digits, 0)
      case None => None
      case Some(n) => Some(if signed && s[0] == '-' then 0 - n as int else n as int)
  }

  const ALGORITHM := "pbkdf2-sha256"
  const ITERATIONS_TEXT := "600000"

  ghost function HashText(mac: Mac, b: Base64, password: Bytes, salt: Bytes): string
    requires IsMac(mac)
  {
    ALGORITHM + "$" + (ITERATIONS_TEXT + "$" + (b.encode(salt) + "$" +
    b.encode(Pbkdf2(mac, password, salt, ITERATIONS, KEY_BYTES))))
  }

  method HashPassword(mac: Mac, b: Base64, password: Bytes, salt: Option<Bytes>) returns (hash: Option<string>)
    requires IsMac(mac)
    ensures hash == if |password| < 12 || salt.None? then None else Some(HashText(mac, b, password, salt.value))
  {
    if |password| < 12 || salt.None? {
      return None;
    }
    var key := Derive(mac, password, salt.value, ITERATIONS, KEY_BYTES);
    return Some(ALGORITHM + "$" + (ITERATIONS_TEXT + "$" + (b.encode(salt.value) + "$" + b.encode(key))));
  }

  /** Whether a stored hash is well-formed, and if so its iteration count, salt and key. */
  function ReadHash(b: Base64, encoded: string): Option<(int, Bytes, Bytes)> {
    var parts := Split(encoded);
    if |parts| != 4 || parts[0] != ALGORITHM then None
    else
      var iterations, salt, key := Atoi(parts[1]), b.decode(parts[2]), b.decode(parts[3]);
      if iterations.None? || iterations.value < 100_000 || iterations.value > 2_000_000 then None
      else if salt.None? || |salt.value| < 16 then None
      else if key.None? || |key.value| != KEY_BYTES then None
      else Some((iterations.value, salt.value, key.value))
  }

  // ----- What a stored text must look like -----

  function Join(parts: seq<string>): string
    requires parts != []
  {
    if |parts| == 1 then parts[0] else parts[0] + "$" + Join(parts[1..])
  }

  /** Splitting is undone by joining, and no part contains a separator. */
  lemma {:induction false} SplitJoins(s: string)
    ensures Split(s) != [] && Join(Split(s)) == s
    ensures forall i :: 0 <= i < |Split(s)| ==> '$' !in Split(s)[i]
    decreases |s|
  {
    var cut := IndexOf(s, '$');
    if cut < |s| {
      var rest := s[cut + 1..];
      SplitJoins(rest);
      assert s == s[..cut] + "$" + rest;
      assert Split(s)[1..] == Split(rest);
    }
  }

  lemma SplitFour(a: string, b: string, c: string, d: string)
    requires '$' !in a && '$' !in b && '$' !in c && '$' !in d
    ensures Split(a + "$" + (b + "$" + (c + "$" + d))) == [a, b, c, d]
  {
    hide Split;
    SplitFirst(a, b + "$" + (c + "$" + d));
    SplitFirst(b, c + "$" + d);
    SplitFirst(c, d);
    SplitLast(d);
  }

  /** Iteration count, salt and key as they stand in a text. */
  predicate Spells(b: Base64, encoded: string, iterations: string, salt: string, key: string) {
    && encoded == ALGORITHM + "$" + (iterations + "$" + (salt + "$" + key))
    && '$' !in iterations && '$' !in salt && '$' !in key
    && Atoi(iterations).Some? && 100_000 <= Atoi(iterations).value <= 2_000_000
    && b.decode(salt).Some? && |b.decode(salt).value| >= 16
    && b.decode(key).Some? && |b.decode(key).value| == 32
  }

  /** A stored text is readable exactly when it spells a count in range, a long enough salt and a 32-byte key. */
  lemma ReadableHash(b: Base64, encoded: string)
    ensures ReadHash(b, encoded).Some? <==>
            exists iterations, salt, key :: Spells(b, encoded, iterations, salt, key)
    ensures forall iterations, salt, key :: Spells(b, encoded, iterations, salt, key) ==>
              ReadHash(b, encoded) == Some((Atoi(iterations).value, b.decode(salt).value, b.decode(key).value))
  {
    hide Split, Atoi, Join;
    SplitJoins(encoded);
    forall iterations, salt, key | Spells(b, encoded, iterations, salt, key)
      ensures ReadHash(b, encoded) == Some((Atoi(iterations).value, b.decode(salt).value, b.decode(key).value))
    {
      assert '$' !in ALGORITHM;
      SplitFour(ALGORITHM, iterations, salt, key);
    }
    if ReadHash(b, encoded).Some? {
      var parts := Split(encoded);
      JoinFour(parts[0], parts[1], parts[2], parts[3]);
      assert parts == [parts[0], parts[1], parts[2], parts[3]];
      assert Spells(b, encoded, parts[1], parts[2], parts[3]);
    }
  }

  lemma JoinFour(a: string, b: string, c: string, d: string)
    ensures Join([a, b, c, d]) == a + "$" + (b + "$" + (c + "$" + d))
  {
    assert [a, b, c, d][1..] == [b, c, d] && [b, c, d][1..] == [c, d] && [c, d][1..] == [d];
    assert Join([c, d]) == c + "$" + d;
    assert Join([b, c, d]) == b + "$" + Join([c, d]);
  }

  /** The decimal text of a number reads back as that number. */
  function Decimal(n: nat): string {
    (if n < 10 then "" else Decimal(n / 10)) + [('0' as int + n % 10) as char]
  }

  lemma {:induction false} DigitsAppend(s: string, c: char, value: nat)
    requires Digits(s, value).Some? && IsDigit(c)
    ensures Digits(s + [c], value) == Some(Digits(s, value).value * 10 + (c as int - '0' as int))
    decreases |s|
  {
    if s == "" {
      assert (s + [c])[1..] == "";
    } else {
      assert (s + [c])[1..] == s[1..] + [c];
      DigitsAppend(s[1..], c, value * 10 + (s[0] as int - '0' as int));
    }
  }

  lemma {:induction false} DecimalReadsBack(n: nat)
    ensures Atoi(Decimal(n)) == Some(n) && Digits(Decimal(n), 0) == Some(n)
    ensures Decimal(n) != "" && IsDigit(Decimal(n)[0])
  {
    var c := ('0' as int + n % 10) as char;
    if n < 10 {
      assert Decimal(n) == [c] && [c][1..] == "" && IsDigit(c);
      assert Digits("", 0 * 10 + n) == Some(n);
    } else {
      DecimalReadsBack(n / 10);
      DigitsAppend(Decimal(n / 10), c, 0);
      assert Decimal(n)[0] == Decimal(n / 10)[0];
    }
    assert Digits(Decimal(n), 0) == Some(n) && Decimal(n)[0] != '-' && Decimal(n)[0] != '+';
  }

  ghost predicate Accepts(mac: Mac, b: Base64, encoded: string, password: Bytes)
    requires IsMac(mac)
  {
    ReadHash(b, encoded).Some? &&
    var (iterations, salt, key) := ReadHash(b, encoded).value;
    iterations >= 1 && Pbkdf2(mac, password, salt, iterations, |key|) == key
  }

  method VerifyPassword(mac: Mac, b: Base64, encoded: string, password: Bytes) returns (ok: bool)
    requires IsMac(mac)
    ensures ok == Accepts(mac, b, encoded, password)
  {
    hide Pbkdf2, Split, Atoi;
    var parsed := ReadHash(b, encoded);
    if parsed.None? {
      return false;
    }
    var (iterations, salt, expected) := parsed.value;
    var actual := Derive(mac, password, salt, iterations, |expected|);
    return actual == expected;
  }

  lemma AtoiIterations()
    ensures Atoi(ITERATIONS_TEXT) == Some(ITERATIONS)
  {
    calc {
      Digits("600000", 0);
      Digits("00000", 6);
      Digits("0000", 60);
      Digits("000", 600);
      Digits("00", 6000);
      Digits("0", 60000);
      Digits("", 600000);
    }
  }

  lemma HashParts(mac: Mac, b: Base64, password: Bytes, salt: Bytes)
    requires IsMac(mac) && IsBase64(b)
    ensures Split(HashText(mac, b, password, salt)) ==
            [ALGORITHM, ITERATIONS_TEXT, b.encode(salt), b.encode(Pbkdf2(mac, password, salt, ITERATIONS, KEY_BYTES))]
  {
    hide Split, Pbkdf2;
    var key := b.encode(Pbkdf2(mac, password, salt, ITERATIONS, KEY_BYTES));
    SplitFirst(ALGORITHM, ITERATIONS_TEXT + "$" + (b.encode(salt) + "$" + key));
    SplitFirst(ITERATIONS_TEXT, b.encode(salt) + "$" + key);
    SplitFirst(b.encode(salt), key);
    SplitLast(key);
  }

  /** A hash accepts its own password, and another one exactly when it derives the same key. */
  lemma HashVerifies(mac: Mac, b: Base64, password: Bytes, salt: Bytes, attempt: Bytes)
    requires IsMac(mac) && IsBase64(b) && |salt| == SALT_BYTES
    ensures Accepts(mac, b, HashText(mac, b, password, salt), password)
    ensures Accepts(mac, b, HashText(mac, b, password, salt), attempt) <==>
            Pbkdf2(mac, attempt, salt, ITERATIONS, KEY_BYTES) == Pbkdf2(mac, password, salt, ITERATIONS, KEY_BYTES)
  {
    hide Split, Pbkdf2, HashText, Atoi;
    AtoiIterations();
    HashParts(mac, b, password, salt);
  }
}
