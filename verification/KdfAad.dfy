/** The associated data that binds key-derivation parameters to an encrypted key, and its decoder. */
module KdfAad {
  import opened MachineTypes
  import opened Wrappers

  const TWO_32: nat := 0x1_0000_0000

  type U32 = n: int | 0 <= n < TWO_32

  /** `algorithm` as its UTF-8 bytes. */
  datatype KdfParams = KdfParams(algorithm: Bytes, timeCost: U32, memoryCost: U32, parallelism: U32, salt: Bytes)

  const MAX_TIME_COST: nat := 10
  const MAX_PARALLELISM: nat := 16
  const MAX_MEMORY_KIB: nat := 524_288
  const MIN_SALT_LEN: nat := 16
  const MAX_SALT_LEN: nat := 64

  /** "argon2id". */
  const ARGON2ID: Bytes := [97, 114, 103, 111, 110, 50, 105, 100]

  /** "vger:kdf-aad:v1" and a zero byte. */
  const PREFIX: Bytes := [118, 103, 101, 114, 58, 107, 100, 102, 45, 97, 97, 100, 58, 118, 49, 0]

  predicate ValidKdfParams(kdf: KdfParams) {
    && kdf.algorithm == ARGON2ID
    && 0 < kdf.timeCost <= MAX_TIME_COST
    && 0 < kdf.parallelism <= MAX_PARALLELISM
    && 0 < kdf.memoryCost <= MAX_MEMORY_KIB
    && MIN_SALT_LEN <= |kdf.salt| <= MAX_SALT_LEN
  }

  // ---------- encoding ----------

  /** Four bytes, least significant first. */
  function LittleEndian(n: U32): (r: Bytes)
    ensures |r| == 4
  {
    [n % 256, (n / 256) % 256, (n / 65536) % 256, n / 16777216]
  }

  function FromLittleEndian(b: Bytes): U32
    requires |b| == 4
  {
    (b[0] as int) + 256 * (b[1] as int) + 65536 * (b[2] as int) + 16777216 * (b[3] as int)
  }

  lemma LittleEndianRoundTrip(n: U32)
    ensures FromLittleEndian(LittleEndian(n)) == n
  {
    var a, b, c := n / 256, n / 65536, n / 16777216;
    assert b == a / 256 && c == b / 256;
    assert n == 256 * a + n % 256 && a == 256 * b + a % 256 && b == 256 * c + b % 256;
  }

  lemma FromLittleEndianRoundTrip(b: Bytes)
    requires |b| == 4
    ensures LittleEndian(FromLittleEndian(b)) == b
  {
    var n: int, b1: int, b2: int, b3: int := FromLittleEndian(b), b[1], b[2], b[3];
    assert n / 256 == b1 + 256 * b2 + 65536 * b3;
    assert n / 65536 == b2 + 256 * b3;
    assert n / 16777216 == b3;
  }

  /** A length cast to `u32`. */
  function Length(b: Bytes): U32 {
    |b| % TWO_32
  }

  /** A length and the bytes themselves. */
  function Prefixed(b: Bytes): Bytes {
    LittleEndian(Length(b)) + b
  }

  function Encode(kdf: KdfParams): Bytes {
    PREFIX + (Prefixed(kdf.algorithm) + (LittleEndian(kdf.timeCost) + (LittleEndian(kdf.memoryCost)
      + (LittleEndian(kdf.parallelism) + Prefixed(kdf.salt)))))
  }

  /** `kdf_params_aad_v1`. */
  method KdfParamsAadV1(kdf: KdfParams) returns (buf: Bytes)
    ensures buf == Encode(kdf)
  {
    buf := PREFIX;
    buf := buf + LittleEndian(Length(kdf.algorithm));
    buf := buf + kdf.algorithm;
    buf := buf + LittleEndian(kdf.timeCost);
    buf := buf + LittleEndian(kdf.memoryCost);
    buf := buf + LittleEndian(kdf.parallelism);
    buf := buf + LittleEndian(Length(kdf.salt));
    buf := buf + kdf.salt;
  }

  // ---------- decoding ----------

  /** Read a `u32` off the front. */
  function TakeU32(b: Bytes): Option<(U32, Bytes)> {
    if |b| < 4 then None else Some((FromLittleEndian(b[..4]), b[4..]))
  }

  /** Read a length and that many bytes off the front. */
  function TakePrefixed(b: Bytes): Option<(Bytes, Bytes)> {
    match TakeU32(b)
    case None => None
    case Some((n, rest)) => if |rest| < n then None else Some((rest[..n], rest[n..]))
  }

  function Decode(b: Bytes): Option<KdfParams> {
    if !(PREFIX <= b) then None
    else
      match TakePrefixed(b[|PREFIX|..])
      case None => None
      case Some((algorithm, b1)) =>
        match TakeU32(b1)
        case None => None
        case Some((timeCost, b2)) =>
          match TakeU32(b2)
          case None => None
          case Some((memoryCost, b3)) =>
            match TakeU32(b3)
            case None => None
            case Some((parallelism, b4)) =>
              match TakePrefixed(b4)
              case None => None
              case Some((salt, b5)) =>
                if b5 != [] then None
                else Some(KdfParams(algorithm, timeCost, memoryCost, parallelism, salt))
  }

  lemma TakeU32Inverts(n: U32, rest: Bytes)
    ensures TakeU32(LittleEndian(n) + rest) == Some((n, rest))
  {
    LittleEndianRoundTrip(n);
    var b := LittleEndian(n) + rest;
    assert b[..4] == LittleEndian(n) && b[4..] == rest;
  }

  lemma TakePrefixedInverts(b: Bytes, rest: Bytes)
    requires |b| < TWO_32
    ensures TakePrefixed(Prefixed(b) + rest) == Some((b, rest))
  {
    PrefixedConcat(b, rest);
    TakeU32Inverts(|b|, b + rest);
    assert (b + rest)[..|b|] == b && (b + rest)[|b|..] == rest;
  }

  /** Lengths that fit their four-byte fields. */
  predicate Encodable(kdf: KdfParams) {
    |kdf.algorithm| < TWO_32 && |kdf.salt| < TWO_32
  }

  /** Decoding inverts encoding. */
  lemma DecodeEncode(kdf: KdfParams)
    requires Encodable(kdf)
    ensures Decode(Encode(kdf)) == Some(kdf)
  {
    var b4 := Prefixed(kdf.salt);
    var b3 := LittleEndian(kdf.parallelism) + b4;
    var b2 := LittleEndian(kdf.memoryCost) + b3;
    var b1 := LittleEndian(kdf.timeCost) + b2;
    var b0 := Prefixed(kdf.algorithm) + b1;
    assert Encode(kdf) == PREFIX + b0;
    assert Encode(kdf)[|PREFIX|..] == b0;
    TakePrefixedInverts(kdf.algorithm, b1);
    TakeU32Inverts(kdf.timeCost, b2);
    TakeU32Inverts(kdf.memoryCost, b3);
    TakeU32Inverts(kdf.parallelism, b4);
    TakePrefixedInverts(kdf.salt, []);
    assert Prefixed(kdf.salt) + [] == b4;
  }

  /** Different parameters never share their associated data. */
  lemma EncodeInjective(a: KdfParams, b: KdfParams)
    requires Encodable(a) && Encodable(b) && Encode(a) == Encode(b)
    ensures a == b
  {
    DecodeEncode(a);
    DecodeEncode(b);
  }

  lemma TakeU32Rebuilds(b: Bytes)
    requires TakeU32(b).Some?
    ensures LittleEndian(TakeU32(b).value.0) + TakeU32(b).value.1 == b
  {
    FromLittleEndianRoundTrip(b[..4]);
  }

  lemma PrefixedConcat(b: Bytes, rest: Bytes)
    requires |b| < TWO_32
    ensures Prefixed(b) + rest == LittleEndian(|b|) + (b + rest)
  {
    SmallLength(b);
    var head := LittleEndian(|b|);
    assert (head + b) + rest == head + (b + rest);
  }

  lemma SmallLength(b: Bytes)
    requires |b| < TWO_32
    ensures Length(b) == |b|
  {
  }

  lemma TakePrefixedRebuilds(b: Bytes)
    requires TakePrefixed(b).Some?
    ensures Prefixed(TakePrefixed(b).value.0) + TakePrefixed(b).value.1 == b
    ensures |TakePrefixed(b).value.0| < TWO_32
  {
    TakeU32Rebuilds(b);
    var (n, rest) := TakeU32(b).value;
    PrefixedConcat(rest[..n], rest[n..]);
    assert rest[..n] + rest[n..] == rest;
  }

  /** The decoder accepts nothing but encodings. */
  lemma EncodeDecode(b: Bytes)
    requires Decode(b).Some?
    ensures Encodable(Decode(b).value) && Encode(Decode(b).value) == b
  {
    var b0 := b[|PREFIX|..];
    assert b == PREFIX + b0;
    TakePrefixedRebuilds(b0);
    var b1 := TakePrefixed(b0).value.1;
    TakeU32Rebuilds(b1);
    var b2 := TakeU32(b1).value.1;
    TakeU32Rebuilds(b2);
    var b3 := TakeU32(b2).value.1;
    TakeU32Rebuilds(b3);
    var b4 := TakeU32(b3).value.1;
    TakePrefixedRebuilds(b4);
    var salt := TakePrefixed(b4).value.0;
    assert Prefixed(salt) + [] == Prefixed(salt);
  }

  /** In particular for parameters that pass validation. */
  lemma ValidParamsAreBound(a: KdfParams, b: KdfParams)
    requires ValidKdfParams(a) && ValidKdfParams(b)
    ensures Encode(a) == Encode(b) <==> a == b
  {
    if Encode(a) == Encode(b) {
      EncodeInjective(a, b);
    }
  }

  // ---------- the layout, byte by byte ----------

  /** The little-endian number at an offset. */
  function NumberAt(b: Bytes, offset: nat): int
    requires offset + 4 <= |b|
  {
    (b[offset] as int) + 256 * (b[offset + 1] as int) + 65536 * (b[offset + 2] as int)
    + 16777216 * (b[offset + 3] as int)
  }

  lemma NumberFirst(n: U32, rest: Bytes)
    ensures NumberAt(LittleEndian(n) + rest, 0) == n
  {
    LittleEndianRoundTrip(n);
    assert (LittleEndian(n) + rest)[..4] == LittleEndian(n);
  }

  lemma NumberPast(before: Bytes, b: Bytes, offset: nat)
    requires offset + 4 <= |b|
    ensures NumberAt(before + b, |before| + offset) == NumberAt(b, offset)
  {
  }

  /** What follows the algorithm. */
  function Costs(kdf: KdfParams): Bytes {
    LittleEndian(kdf.timeCost) + (LittleEndian(kdf.memoryCost) + (LittleEndian(kdf.parallelism) + Prefixed(kdf.salt)))
  }

  lemma CostsLayout(kdf: KdfParams)
    requires Encodable(kdf)
    ensures var b := Costs(kdf);
      && |b| == 16 + |kdf.salt| && NumberAt(b, 0) == kdf.timeCost && NumberAt(b, 4) == kdf.memoryCost
      && NumberAt(b, 8) == kdf.parallelism && NumberAt(b, 12) == |kdf.salt| && b[16..] == kdf.salt
  {
    SmallLength(kdf.salt);
    var b3 := Prefixed(kdf.salt);
    var b2 := LittleEndian(kdf.parallelism) + b3;
    var b1 := LittleEndian(kdf.memoryCost) + b2;
    NumberFirst(kdf.timeCost, b1);
    NumberFirst(kdf.memoryCost, b2);
    NumberFirst(kdf.parallelism, b3);
    NumberFirst(|kdf.salt|, kdf.salt);
    NumberPast(LittleEndian(kdf.timeCost), b1, 0);
    NumberPast(LittleEndian(kdf.timeCost), b1, 4);
    NumberPast(LittleEndian(kdf.timeCost), b1, 8);
    NumberPast(LittleEndian(kdf.memoryCost), b2, 0);
    NumberPast(LittleEndian(kdf.memoryCost), b2, 4);
    NumberPast(LittleEndian(kdf.parallelism), b3, 0);
  }

  lemma EncodeSplits(kdf: KdfParams)
    ensures Encode(kdf) == (PREFIX + Prefixed(kdf.algorithm)) + Costs(kdf)
  {
  }

  /** Where everything stands: prefix, length and bytes of the algorithm, the three costs, length and bytes of
      the salt. */
  lemma Layout(kdf: KdfParams)
    requires Encodable(kdf)
    ensures var b, a := Encode(kdf), |kdf.algorithm|;
      && |b| == 36 + a + |kdf.salt|
      && b[..16] == [118, 103, 101, 114, 58, 107, 100, 102, 45, 97, 97, 100, 58, 118, 49, 0]
      && NumberAt(b, 16) == a && b[20..20 + a] == kdf.algorithm
      && NumberAt(b, 20 + a) == kdf.timeCost && NumberAt(b, 24 + a) == kdf.memoryCost
      && NumberAt(b, 28 + a) == kdf.parallelism
      && NumberAt(b, 32 + a) == |kdf.salt| && b[36 + a..] == kdf.salt
  {
    var head, costs := PREFIX + Prefixed(kdf.algorithm), Costs(kdf);
    EncodeSplits(kdf);
    CostsLayout(kdf);
    NumberPast(head, costs, 0);
    NumberPast(head, costs, 4);
    NumberPast(head, costs, 8);
    NumberPast(head, costs, 12);
    HeadLayout(kdf.algorithm, costs);
    assert (head + costs)[|head| + 16..] == costs[16..];
  }

  lemma HeadLayout(algorithm: Bytes, rest: Bytes)
    requires |algorithm| < TWO_32
    ensures var b := PREFIX + Prefixed(algorithm) + rest;
      b[..16] == PREFIX && NumberAt(b, 16) == |algorithm| && b[20..20 + |algorithm|] == algorithm
  {
    SmallLength(algorithm);
    PrefixedConcat(algorithm, rest);
    var tail := Prefixed(algorithm) + rest;
    assert PREFIX + Prefixed(algorithm) + rest == PREFIX + tail;
    NumberFirst(|algorithm|, algorithm + rest);
    NumberPast(PREFIX, tail, 0);
  }
}
