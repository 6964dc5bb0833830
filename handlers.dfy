/** What the shared handler framework (passlib.utils.handlers and passlib.utils.h64)
    contributes to the three schemes, reduced to what the schemes' class
    attributes state: the error outcomes, the 64-character hash alphabet and its
    one-character integer codec, identifier matching and aliases, and the
    validation of rounds, salt and checksum when a record is constructed.
    MD5 is an uninterpreted function from byte strings to 16-byte digests and is
    passed to every member that uses it. */
module Handlers {
  import opened Wrappers
  import opened PyText

  type Byte = bv8

  type Digest = d: seq<Byte> | |d| == 16 witness seq(16, _ => 0 as bv8)

  /** hashlib.md5(data).digest(), uninterpreted. */
  type Md5 = seq<Byte> -> Digest

  /** Why a parse, a construction or a computation fails (Python's ValueError,
      IndexError and the missing-backend error). */
  datatype Error =
    | NoHash              // the empty string was given as a hash
    | UnknownPrefix       // no identifier or scheme prefix matches
    | MalformedRounds     // the rounds field is unterminated or not an integer
    | ZeroPaddedRounds    // the rounds text is not the canonical rendering of its value
    | ExplicitZeroRounds  // sun-md5-crypt: "rounds=0" written out
    | TooManySeparators   // sun-md5-crypt: "$$" with no checksum after it
    | MissingField        // an index past the end of the string (IndexError)
    | InvalidInt6         // a character outside the hash alphabet where one digit is decoded
    | RoundsOutOfRange
    | SaltSize
    | SaltChars
    | ChecksumSize
    | ChecksumChars
    | UnknownIdent
    | BadSaltSizeRequest
    | NoBackend
    | BackendFailed

  /** uh.H64_CHARS, the alphabet of phpass and sun-md5-crypt salts and
      checksums: "./", the digits, "A-Z", then "a-z". */
  const H64Chars: string := H64Alphabet()

  predicate AllIn(s: string, alphabet: string) {
    forall i :: 0 <= i < |s| ==> s[i] in alphabet
  }

  /** The code point at each position of H64Chars. */
  function H64Code(i: nat): (c: int)
    requires i < 64
    ensures '.' as int <= c <= 'z' as int
  {
    if i == 0 then '.' as int
    else if i == 1 then '/' as int
    else if i < 12 then '0' as int + (i - 2)
    else if i < 38 then 'A' as int + (i - 12)
    else 'a' as int + (i - 38)
  }

  function H64Alphabet(): (s: string)
    ensures |s| == 64 && forall i :: 0 <= i < 64 ==> s[i] as int == H64Code(i)
  {
    seq(64, i requires 0 <= i < 64 => H64Code(i) as char)
  }

  lemma H64Layout()
    ensures |H64Chars| == 64
    ensures forall i :: 0 <= i < 64 ==> H64Chars[i] as int == H64Code(i)
  {
  }

  /** H64Chars has 64 characters in strictly increasing order, so no two
      positions hold the same character; '$' is not among them. */
  lemma H64Distinct()
    ensures |H64Chars| == 64
    ensures forall i, j :: 0 <= i < j < |H64Chars| ==> H64Chars[i] < H64Chars[j]
    ensures '$' !in H64Chars
  {
    H64Layout();
  }

  /** Salt and checksum text over the hash alphabet is ASCII and free of '$'. */
  lemma H64Text(s: string)
    requires AllIn(s, H64Chars)
    ensures IsAscii(s) && '$' !in s
  {
    H64Layout();
    forall i | 0 <= i < |s|
      ensures s[i] as int < 128 && s[i] != '$'
    {
      var k := IndexOf(H64Chars, s[i]);
    }
  }

  /** text.encode("ascii") for text over the hash alphabet. */
  function H64Bytes(s: string): (b: seq<Byte>)
    requires AllIn(s, H64Chars)
    ensures |b| == |s|
  {
    H64Text(s);
    Ascii(s)
  }

  /** h64.encode_int6: the value as one character of the hash alphabet. */
  function EncodeInt6(n: nat): (c: char)
    requires n < 64
    ensures c in H64Chars
  {
    H64Chars[n]
  }

  /** h64.decode_int6: the position of a character in the hash alphabet. */
  function DecodeInt6(c: char): (r: Result<nat, Error>)
    ensures r.Err? <==> c !in H64Chars
    ensures r.Ok? ==> r.value < |H64Chars| && H64Chars[r.value] == c
  {
    if c in H64Chars then Ok(IndexOf(H64Chars, c)) else Err(InvalidInt6)
  }

  /** decode_int6 inverts encode_int6 on [0, 63]. */
  lemma Int6RoundTrip(n: nat)
    requires n < 64
    ensures DecodeInt6(EncodeInt6(n)) == Ok(n)
  {
    H64Distinct();
  }

  /** The `for ident in ident_values: if hash.startswith(ident): break` search:
      the first identifier, in declared order, that the hash starts with. */
  function MatchIdent(hash: string, identValues: seq<string>): (r: Option<nat>)
    ensures r.None? <==> forall k :: 0 <= k < |identValues| ==> !StartsWith(hash, identValues[k])
    ensures r.Some? ==> r.value < |identValues| && StartsWith(hash, identValues[r.value])
    ensures r.Some? ==> forall k :: 0 <= k < r.value ==> !StartsWith(hash, identValues[k])
  {
    if identValues == [] then None
    else if StartsWith(hash, identValues[0]) then Some(0)
    else match MatchIdent(hash, identValues[1..])
      case None => None
      case Some(k) => Some(k + 1)
  }

  /** HasManyIdents.norm_ident: an alias is replaced by the identifier it names,
      and the outcome must be one of the accepted identifiers. */
  function NormIdent(value: string, aliases: map<string, string>, identValues: seq<string>): (r: Result<string, Error>)
    ensures r.Ok? <==> (if value in aliases then aliases[value] else value) in identValues
    ensures r.Ok? ==> r.value in identValues
    ensures value !in aliases && value in identValues ==> r == Ok(value)
  {
    var ident := if value in aliases then aliases[value] else value;
    if ident in identValues then Ok(ident) else Err(UnknownIdent)
  }

  /** HasRounds.norm_rounds: a value outside [minRounds, maxRounds] is an error
      when strict (the caller's strict flag or the scheme's _strict_rounds_bounds),
      and is clamped to the nearer bound otherwise. */
  function NormRounds(rounds: int, minRounds: int, maxRounds: int, strict: bool): (r: Result<int, Error>)
    requires minRounds <= maxRounds
    ensures r.Err? <==> strict && !(minRounds <= rounds <= maxRounds)
    ensures r.Ok? ==> minRounds <= r.value <= maxRounds
    ensures minRounds <= rounds <= maxRounds ==> r == Ok(rounds)
    ensures r.Ok? && rounds < minRounds ==> r.value == minRounds
    ensures r.Ok? && maxRounds < rounds ==> r.value == maxRounds
  {
    if rounds < minRounds then
      if strict then Err(RoundsOutOfRange) else Ok(minRounds)
    else if maxRounds < rounds then
      if strict then Err(RoundsOutOfRange) else Ok(maxRounds)
    else Ok(rounds)
  }

  /** HasSalt.norm_salt for a given salt: its size must lie in
      [minSize, maxSize] (no upper bound when maxSize is None) and every
      character must come from the salt alphabet. */
  function CheckSalt(salt: string, chars: string, minSize: nat, maxSize: Option<nat>): (r: Result<string, Error>)
    ensures r.Ok? <==> minSize <= |salt| && (maxSize.Some? ==> |salt| <= maxSize.value) && AllIn(salt, chars)
    ensures r.Ok? ==> r.value == salt
  {
    if |salt| < minSize || (maxSize.Some? && maxSize.value < |salt|) then Err(SaltSize)
    else if !AllIn(salt, chars) then Err(SaltChars)
    else Ok(salt)
  }

  /** GenericHandler.norm_checksum: None stays None; a given checksum must have
      the scheme's size (when it fixes one) and use the checksum alphabet. */
  function CheckChecksum(checksum: Option<string>, chars: string, size: Option<nat>): (r: Result<Option<string>, Error>)
    ensures checksum.None? ==> r == Ok(None)
    ensures checksum.Some? ==>
      (r.Ok? <==> (size.Some? ==> |checksum.value| == size.value) && AllIn(checksum.value, chars))
    ensures r.Ok? ==> r.value == checksum
  {
    match checksum
    case None => Ok(None)
    case Some(c) =>
      if size.Some? && |c| != size.value then Err(ChecksumSize)
      else if !AllIn(c, chars) then Err(ChecksumChars)
      else Ok(checksum)
  }

  /** 2 ** n, the iteration count of a log2-costed rounds value (1 << n). */
  function Pow2(n: nat): (p: nat)
    ensures p > n
  {
    if n == 0 then 1 else 2 * Pow2(n - 1)
  }
}
