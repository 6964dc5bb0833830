/** PHPass portable hashes (phpBB3's "$H$" variant included):
    <ident><one rounds character><8 salt characters><checksum>, where the rounds
    character is the log2 iteration count written as one digit of the hash
    alphabet, and the checksum chains MD5 2**rounds times over the secret. */
module Phpass {
  import opened Wrappers
  import opened PyText
  import opened Handlers

  const SaltLen: nat := 8
  const DefaultRounds: int := 9
  const MinRounds: int := 7
  const MaxRounds: int := 30
  const DefaultIdent: string := "$P$"
  const IdentValues: seq<string> := ["$P$", "$H$"]
  const IdentAliases: map<string, string> := map["P" := "$P$", "H" := "$H$"]

  /** One phpass hash record. The checksum is the value handed to the
      constructor: from_string always hands over a string, possibly empty. */
  datatype Record = Record(ident: string, rounds: int, salt: string, checksum: Option<string>)

  /** What the constructor guarantees of every record it returns. */
  predicate Valid(r: Record) {
    && r.ident in IdentValues
    && MinRounds <= r.rounds <= MaxRounds
    && |r.salt| == SaltLen && AllIn(r.salt, H64Chars)
    && (r.checksum.Some? ==> AllIn(r.checksum.value, H64Chars))
  }

  /** The constructor phpass(ident=, rounds=, salt=, checksum=): the identifier
      goes through the alias table, the rounds are checked against [7, 30]
      (_strict_rounds_bounds, so never clamped), the salt must be 8 characters
      of the hash alphabet and the checksum must use that alphabet. */
  function New(ident: string, rounds: int, salt: string, checksum: Option<string>): (r: Result<Record, Error>)
    ensures r.Ok? <==>
      && NormIdent(ident, IdentAliases, IdentValues).Ok?
      && MinRounds <= rounds <= MaxRounds
      && |salt| == SaltLen && AllIn(salt, H64Chars)
      && (checksum.Some? ==> AllIn(checksum.value, H64Chars))
    ensures r.Ok? ==> Valid(r.value)
    ensures r.Ok? ==> r.value.rounds == rounds && r.value.salt == salt && r.value.checksum == checksum
    ensures r.Ok? && ident in IdentValues ==> r.value.ident == ident
  {
    var id :- NormIdent(ident, IdentAliases, IdentValues);
    var n :- NormRounds(rounds, MinRounds, MaxRounds, true);
    var s :- CheckSalt(salt, H64Chars, SaltLen, Some(SaltLen));
    var c :- CheckChecksum(checksum, H64Chars, None);
    Ok(Record(id, n, s, c))
  }

  /** phpass.from_string: every record it returns is valid, carries the
      identifier the hash starts with, and has a checksum (possibly empty). */
  function FromString(hash: string): (r: Result<Record, Error>)
    ensures r.Ok? ==> Valid(r.value) && StartsWith(hash, r.value.ident) && r.value.checksum.Some?
  {
    if hash == [] then Err(NoHash)
    else match MatchIdent(hash, IdentValues)
      case None => Err(UnknownPrefix)
      case Some(k) =>
        var ident := IdentValues[k];
        var data := hash[|ident|..];
        if data == [] then Err(MissingField)
        else
          var rounds :- DecodeInt6(data[0]);
          New(ident, rounds, Slice(data, 1, 9), Some(Slice(data, 9, |data|)))
  }

  /** phpass.to_string: ident, the rounds digit, the salt, then the checksum
      (nothing when it is None or empty). */
  function ToString(r: Record): (s: string)
    requires 0 <= r.rounds < 64
    ensures StartsWith(s, r.ident) && |s| > |r.ident| && DecodeInt6(s[|r.ident|]) == Ok(r.rounds)
  {
    Int6RoundTrip(r.rounds);
    r.ident + [EncodeInt6(r.rounds)] + r.salt + (if r.checksum.Some? then r.checksum.value else "")
  }

  /** Only "$P$" and "$H$" hashes are accepted. */
  lemma FromStringPrefix(hash: string)
    ensures FromString(hash).Ok? ==> StartsWith(hash, "$P$") || StartsWith(hash, "$H$")
    ensures !StartsWith(hash, "$P$") && !StartsWith(hash, "$H$") ==> FromString(hash).Err?
  {
  }

  /** Every accepted hash is a valid record written out in full: the
      identifier, the rounds digit, exactly 8 salt characters and the rest as
      checksum; rendering that record gives the hash back. */
  lemma {:induction false} FromStringLayout(hash: string)
    requires FromString(hash).Ok?
    ensures Valid(FromString(hash).value)
    ensures FromString(hash).value.checksum.Some?
    ensures ToString(FromString(hash).value) == hash
  {
    var r := FromString(hash).value;
    var k := MatchIdent(hash, IdentValues).value;
    var ident := IdentValues[k];
    var data := hash[|ident|..];
    var rounds := DecodeInt6(data[0]).value;
    assert r == Record(ident, rounds, data[1..9], Some(data[9..]));
    RenderParsed(ident, rounds, data);
    assert hash == ident + data;
  }

  /** The fields from_string cuts from the text after the identifier render
      back to that text. */
  lemma RenderParsed(ident: string, rounds: nat, data: string)
    requires rounds < 64 && |data| >= 9 && EncodeInt6(rounds) == data[0]
    ensures ToString(Record(ident, rounds, data[1..9], Some(data[9..]))) == ident + data
  {
    assert data == [data[0]] + data[1..9] + data[9..];
  }

  /** to_string is inverted by from_string for every valid record that holds
      a checksum (an empty one included). */
  lemma {:induction false} RoundTrip(r: Record)
    requires Valid(r) && r.checksum.Some?
    ensures FromString(ToString(r)) == Ok(r)
  {
    var h := ToString(r);
    var c := EncodeInt6(r.rounds);
    var rest := [c] + r.salt + r.checksum.value;
    assert h == r.ident + rest;
    Int6RoundTrip(r.rounds);
    var k := if r.ident == "$P$" then 0 else 1;
    assert h[..|r.ident|] == r.ident;
    assert StartsWith(h, IdentValues[k]);
    assert k == 1 ==> !StartsWith(h, IdentValues[0]) by {
      if k == 1 { assert h[1] == 'H'; }
    }
    assert MatchIdent(h, IdentValues) == Some(k);
    var data := h[|r.ident|..];
    assert data == rest;
    assert data[0] == c;
    assert data[1..9] == r.salt;
    assert data[9..] == r.checksum.value;
  }

  /** The identifier aliases and defaults that the class attributes declare. */
  lemma IdentsAndDefaults()
    ensures NormIdent("P", IdentAliases, IdentValues) == Ok("$P$")
    ensures NormIdent("H", IdentAliases, IdentValues) == Ok("$H$")
    ensures NormIdent(DefaultIdent, IdentAliases, IdentValues) == Ok(DefaultIdent)
    ensures MinRounds <= DefaultRounds <= MaxRounds
  {
  }

  /** The checksum chain: d0 is md5(salt + secret) and each further step is
      md5(previous + secret); Chain(md5, d0, secret, n) is the digest after n steps. */
  function Chain(md5: Md5, d0: Digest, secret: seq<Byte>, n: nat): Digest {
    if n == 0 then d0 else md5(Chain(md5, d0, secret, n - 1) + secret)
  }

  /** Running m steps and then n more is running m + n steps. */
  lemma {:induction false} ChainSplit(md5: Md5, d0: Digest, secret: seq<Byte>, m: nat, n: nat)
    ensures Chain(md5, Chain(md5, d0, secret, m), secret, n) == Chain(md5, d0, secret, m + n)
  {
    if n > 0 {
      ChainSplit(md5, d0, secret, m, n - 1);
    }
  }

  /** The iteration count 1 << rounds of a valid record lies in [2**7, 2**30]. */
  lemma {:induction false} RealRoundsBounds(rounds: nat)
    requires MinRounds <= rounds <= MaxRounds
    ensures Pow2(7) <= Pow2(rounds) <= Pow2(30)
  {
    Pow2Monotone(7, rounds);
    Pow2Monotone(rounds, 30);
  }

  lemma {:induction false} Pow2Monotone(m: nat, n: nat)
    requires m <= n
    ensures Pow2(m) <= Pow2(n)
    decreases n
  {
    if m < n {
      Pow2Monotone(m, n - 1);
    }
  }

  /** phpass.calc_checksum: md5(salt + secret), then exactly 1 << rounds
      further steps of md5(result + secret). The h64.encode_bytes rendering of
      the final digest is not part of this model, so the digest is returned. */
  method CalcChecksum(r: Record, secret: seq<Byte>, md5: Md5) returns (result: Digest)
    requires Valid(r)
    ensures result == Chain(md5, md5(H64Bytes(r.salt) + secret), secret, Pow2(r.rounds))
  {
    var realRounds := Pow2(r.rounds);
    ghost var d0 := md5(H64Bytes(r.salt) + secret);
    result := md5(H64Bytes(r.salt) + secret);
    var k := 0;
    while k < realRounds
      invariant 0 <= k <= realRounds
      invariant result == Chain(md5, d0, secret, k)
    {
      result := md5(result + secret);
      k := k + 1;
    }
  }
}
