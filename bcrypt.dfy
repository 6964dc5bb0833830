/** OpenBSD's bcrypt hash format: <ident><two-digit rounds>$<22 salt><31 checksum>,
    with the repair of padding bits that some legacy hashes have set in the
    final salt and checksum characters, the check that flags such hashes for
    rehashing, and the dispatch to the first available external engine.  The
    engines themselves are opaque functions. */
module Bcrypt {
  import opened Wrappers
  import opened PyText
  import opened Handlers

  /** BCHARS: bcrypt's ordering of the 64 characters: "./", "A-Z", "a-z",
      then the digits. */
  const BChars: string := BAlphabet()

  /** BSLAST: the final salt character encodes 2 data bits and 4 zero padding
      bits, so only the characters at BCHARS indices 0, 16, 32, 48 are allowed. */
  const BSLast: string := ".Oeu"

  /** BHLAST: the final checksum character has 2 zero padding bits: the
      characters at BCHARS indices that are multiples of 4. */
  const BHLast: string := ".CGKOSWaeimquy26"

  const SaltLen: nat := 22
  const ChecksumLen: nat := 31
  const DefaultRounds: int := 12
  const MinRounds: int := 4
  const MaxRounds: int := 31
  const DefaultIdent: string := "$2a$"
  const IdentValues: seq<string> := ["$2$", "$2a$"]
  const IdentAliases: map<string, string> := map["2" := "$2$", "2a" := "$2a$"]

  /** The backends, in the priority order that `backends` declares. */
  datatype Backend = PyBcrypt | Bcryptor | OsCrypt

  const Backends: seq<Backend> := [PyBcrypt, Bcryptor, OsCrypt]

  datatype Record = Record(ident: string, rounds: int, salt: string, checksum: Option<string>)

  // ---------------------------------------------------------------------
  // The alphabet and its padding-safe sub-alphabets

  /** The code point at each position of BChars. */
  function BCode(i: nat): (c: int)
    requires i < 64
    ensures '.' as int <= c <= 'z' as int
  {
    if i == 0 then '.' as int
    else if i == 1 then '/' as int
    else if i < 28 then 'A' as int + (i - 2)
    else if i < 54 then 'a' as int + (i - 28)
    else '0' as int + (i - 54)
  }

  function BAlphabet(): (s: string)
    ensures |s| == 64 && forall i :: 0 <= i < 64 ==> s[i] as int == BCode(i)
  {
    seq(64, i requires 0 <= i < 64 => BCode(i) as char)
  }

  lemma BCharsLayout()
    ensures |BChars| == 64
    ensures forall i :: 0 <= i < 64 ==> BChars[i] as int == BCode(i)
  {
  }

  /** No character occurs twice in BCHARS, so BCHARS.index is the inverse of indexing. */
  lemma BCharsDistinct()
    ensures |BChars| == 64
    ensures forall i, j :: 0 <= i < j < |BChars| ==> BChars[i] != BChars[j]
    ensures '$' !in BChars
  {
    BCharsLayout();
  }

  lemma IndexOfBChars(i: nat)
    requires i < 64
    ensures |BChars| == 64 && IndexOf(BChars, BChars[i]) == i
  {
    BCharsDistinct();
  }

  lemma LastLayout()
    ensures |BSLast| == 4 && forall k :: 0 <= k < 4 ==> BSLast[k] as int == BCode(16 * k)
    ensures |BHLast| == 16 && forall k :: 0 <= k < 16 ==> BHLast[k] as int == BCode(4 * k)
  {
  }

  /** index is a multiple of unit, the size of a padding block (16 for the
      four padding bits of a salt, 4 for the two of a checksum). */
  predicate Aligned(index: nat, unit: nat) {
    if unit == 16 then index % 16 == 0 else index % 4 == 0
  }

  /** index & ~(unit - 1): the index with its padding bits cleared. */
  function ClearLow(index: nat, unit: nat): (j: nat)
    requires unit == 4 || unit == 16
    ensures j <= index < j + unit && Aligned(j, unit)
  {
    if unit == 16 then 16 * (index / 16) else 4 * (index / 4)
  }

  /** BSLAST holds exactly the BCHARS characters at multiples of 16, and
      BHLAST exactly those at multiples of 4. */
  lemma LastAlphabets(i: nat)
    requires i < 64
    ensures |BChars| == 64
    ensures BChars[i] in BSLast <==> i % 16 == 0
    ensures BChars[i] in BHLast <==> i % 4 == 0
  {
    LastLayout();
    LastAlphabet(i, 16, BSLast);
    LastAlphabet(i, 4, BHLast);
  }

  lemma LastAlphabet(i: nat, unit: nat, allowed: string)
    requires i < 64 && (unit == 4 || unit == 16)
    requires |allowed| == (if unit == 16 then 4 else 16)
    requires forall k :: 0 <= k < |allowed| ==> allowed[k] as int == BCode(if unit == 16 then 16 * k else 4 * k)
    ensures |BChars| == 64
    ensures BChars[i] in allowed <==> Aligned(i, unit)
  {
    BCharsLayout();
    if Aligned(i, unit) {
      var k := if unit == 16 then i / 16 else i / 4;
      assert (if unit == 16 then 16 * k else 4 * k) == i;
      assert BChars[i] as int == allowed[k] as int;
    }
    if BChars[i] in allowed {
      var k :| 0 <= k < |allowed| && allowed[k] == BChars[i];
      var j := if unit == 16 then 16 * k else 4 * k;
      MultipleAligned(k, unit);
      BCodeInjective(i, j);
    }
  }

  lemma MultipleAligned(k: nat, unit: nat)
    requires (unit == 16 && k < 4) || (unit == 4 && k < 16)
    ensures var j := if unit == 16 then 16 * k else 4 * k;
      j < 64 && Aligned(j, unit)
  {
  }

  lemma BCodeInjective(i: nat, j: nat)
    requires i < 64 && j < 64 && BCode(i) == BCode(j)
    ensures i == j
  {
  }

  /** The last character of s replaced by the BCHARS character whose index is
      that of the old one with its padding bits cleared, unless it already lies
      in the allowed sub-alphabet. */
  function ClearLastPadding(s: string, unit: nat, allowed: string): (r: string)
    requires s != [] && AllIn(s, BChars) && (unit == 4 || unit == 16)
    ensures |r| == |s| && r[..|s| - 1] == s[..|s| - 1] && AllIn(r, BChars)
    ensures s[|s| - 1] in allowed ==> r == s
  {
    var last := s[|s| - 1];
    if last in allowed then s
    else
      BCharsDistinct();
      s[..|s| - 1] + [BChars[ClearLow(IndexOf(BChars, last), unit)]]
  }

  /** What the repair achieves: the final character lands in the allowed
      sub-alphabet, and its index is the old one with the padding bits cleared
      (the old index itself when they were clear already). */
  lemma RepairedLast(s: string, unit: nat, allowed: string)
    requires s != [] && AllIn(s, BChars)
    requires (unit == 16 && allowed == BSLast) || (unit == 4 && allowed == BHLast)
    ensures var r := ClearLastPadding(s, unit, allowed);
      && r[|s| - 1] in allowed
      && IndexOf(BChars, r[|s| - 1]) == ClearLow(IndexOf(BChars, s[|s| - 1]), unit)
      && (s[|s| - 1] !in allowed <==> r != s)
  {
    BCharsDistinct();
    LastLayout();
    var r := ClearLastPadding(s, unit, allowed);
    var i := IndexOf(BChars, s[|s| - 1]);
    LastAlphabet(i, unit, allowed);
    var j := ClearLow(i, unit);
    LastAlphabet(j, unit, allowed);
    IndexOfBChars(j);
    if s[|s| - 1] in allowed {
      assert ClearLow(i, unit) == i;
    } else {
      assert r[|s| - 1] == BChars[j];
      assert r[|s| - 1] != s[|s| - 1];
    }
  }

  /** bcrypt.norm_salt: the generic check (22 characters of BCHARS), then the
      padding repair of the final character: its index has its low four bits
      cleared. */
  function NormSalt(salt: string): (r: Result<string, Error>)
    ensures r.Ok? <==> |salt| == SaltLen && AllIn(salt, BChars)
    ensures r.Ok? ==> |r.value| == SaltLen && AllIn(r.value, BChars)
    ensures r.Ok? ==> r.value[..SaltLen - 1] == salt[..SaltLen - 1]
    ensures r.Ok? ==> r.value[SaltLen - 1] in BSLast
    ensures r.Ok? ==>
      var i, j := IndexOf(BChars, salt[SaltLen - 1]), IndexOf(BChars, r.value[SaltLen - 1]);
      j % 16 == 0 && j <= i < j + 16
    ensures r.Ok? ==> (r.value == salt <==> salt[SaltLen - 1] in BSLast)
  {
    var s :- CheckSalt(salt, BChars, SaltLen, Some(SaltLen));
    RepairedLast(s, 16, BSLast);
    Ok(ClearLastPadding(s, 16, BSLast))
  }

  /** bcrypt.norm_checksum: None stays None; otherwise the generic check (31
      characters of BCHARS), then the padding repair of the final character:
      its index has its low two bits cleared. */
  function NormChecksum(checksum: Option<string>): (r: Result<Option<string>, Error>)
    ensures checksum.None? ==> r == Ok(None)
    ensures checksum.Some? ==> (r.Ok? <==> |checksum.value| == ChecksumLen && AllIn(checksum.value, BChars))
    ensures r.Ok? && checksum.Some? ==>
      && r.value.Some? && |r.value.value| == ChecksumLen && AllIn(r.value.value, BChars)
      && r.value.value[..ChecksumLen - 1] == checksum.value[..ChecksumLen - 1]
      && r.value.value[ChecksumLen - 1] in BHLast
    ensures r.Ok? && checksum.Some? ==>
      var i, j := IndexOf(BChars, checksum.value[ChecksumLen - 1]), IndexOf(BChars, r.value.value[ChecksumLen - 1]);
      j % 4 == 0 && j <= i < j + 4
    ensures r.Ok? && checksum.Some? ==> (r.value.value == checksum.value <==> checksum.value[ChecksumLen - 1] in BHLast)
  {
    var checked :- CheckChecksum(checksum, BChars, Some(ChecksumLen));
    match checked
    case None => Ok(None)
    case Some(c) =>
      RepairedLast(c, 4, BHLast);
      Ok(Some(ClearLastPadding(c, 4, BHLast)))
  }

  /** What the constructor guarantees of every record it returns. */
  predicate Valid(r: Record) {
    && r.ident in IdentValues
    && MinRounds <= r.rounds <= MaxRounds
    && |r.salt| == SaltLen && AllIn(r.salt, BChars) && r.salt[SaltLen - 1] in BSLast
    && (r.checksum.Some? ==>
         |r.checksum.value| == ChecksumLen && AllIn(r.checksum.value, BChars)
         && r.checksum.value[ChecksumLen - 1] in BHLast)
  }

  /** The constructor bcrypt(ident=, rounds=, salt=, checksum=, strict=): rounds
      outside [4, 31] are an error when strict and clamped otherwise (bcrypt
      does not ask for strict bounds); salt and checksum are checked and
      repaired by norm_salt and norm_checksum. */
  function New(ident: string, rounds: int, salt: string, checksum: Option<string>, strict: bool): (r: Result<Record, Error>)
    ensures r.Ok? <==>
      && NormIdent(ident, IdentAliases, IdentValues).Ok?
      && (strict ==> MinRounds <= rounds <= MaxRounds)
      && NormSalt(salt).Ok? && NormChecksum(checksum).Ok?
    ensures r.Ok? ==> Valid(r.value)
    ensures r.Ok? ==> r.value.salt == NormSalt(salt).value && r.value.checksum == NormChecksum(checksum).value
    ensures r.Ok? && MinRounds <= rounds <= MaxRounds ==> r.value.rounds == rounds
    ensures r.Ok? && ident in IdentValues ==> r.value.ident == ident
  {
    var id :- NormIdent(ident, IdentAliases, IdentValues);
    var n :- NormRounds(rounds, MinRounds, MaxRounds, strict);
    var s :- NormSalt(salt);
    var c :- NormChecksum(checksum);
    Ok(Record(id, n, s, c))
  }

  // ---------------------------------------------------------------------
  // Parsing and rendering

  /** bcrypt.from_string(hash, strict): every record it returns is valid and
      carries the identifier the hash starts with. */
  function FromString(hash: string, strict: bool): (r: Result<Record, Error>)
    ensures r.Ok? ==> Valid(r.value) && StartsWith(hash, r.value.ident)
  {
    if hash == [] then Err(NoHash)
    else match MatchIdent(hash, IdentValues)
      case None => Err(UnknownPrefix)
      case Some(k) =>
        var ident := IdentValues[k];
        var rest := hash[|ident|..];
        var sep := Find(rest, '$', 0);
        // `rounds, data = rest.split("$")` needs exactly one "$"
        if sep == -1 || Find(rest, '$', sep + 1) != -1 then Err(MalformedRounds)
        else FromFields(ident, rest[..sep], rest[sep + 1..], strict)
  }

  /** The second half of from_string: the rounds text and the data after "$". */
  function FromFields(ident: string, roundsText: string, data: string, strict: bool): Result<Record, Error> {
    match ParseInt(roundsText)
    case None => Err(MalformedRounds)
    case Some(rval) =>
      if strict && roundsText != Pad2(rval) then Err(ZeroPaddedRounds)
      else
        var salt, chk := Slice(data, 0, SaltLen), Slice(data, SaltLen, |data|);
        New(ident, rval, salt, if chk == [] then None else Some(chk), strict && chk != [])
  }

  /** A hash made of an identifier, "$"-free rounds text, "$" and "$"-free data
      is parsed from those fields. */
  lemma FromStringFields(hash: string, ident: string, roundsText: string, data: string, strict: bool)
    requires ident in IdentValues && hash == ident + (roundsText + "$" + data)
    requires '$' !in roundsText && '$' !in data
    ensures FromString(hash, strict) == FromFields(ident, roundsText, data, strict)
  {
    IdentSplit(hash, ident, roundsText + "$" + data);
    SplitOnce(roundsText + "$" + data, '$', roundsText, data);
  }

  /** bcrypt.to_string: ident, "%02d" rounds, "$", salt, checksum (if any).
      A valid record renders as a 29-character config or a 60-character hash
      (for "$2a$"). */
  function ToString(r: Record): (s: string)
    ensures StartsWith(s, r.ident)
    ensures Valid(r) ==> |s| == |r.ident| + 3 + SaltLen + (if r.checksum.Some? then ChecksumLen else 0)
  {
    assert Valid(r) ==> |Pad2(r.rounds)| == 2 by {
      if Valid(r) {
        ParsePad2(r.rounds);
      }
    }
    r.ident + Pad2(r.rounds) + "$" + r.salt + (if r.checksum.Some? then r.checksum.value else "")
  }

  /** Only "$2$" and "$2a$" hashes are accepted, the identifier being the first
      of those, in declared order, that the hash starts with. */
  lemma FromStringPrefix(hash: string, strict: bool)
    ensures !StartsWith(hash, "$2$") && !StartsWith(hash, "$2a$") ==> FromString(hash, strict).Err?
    ensures FromString(hash, strict).Ok? ==>
      FromString(hash, strict).value.ident == (if StartsWith(hash, "$2$") then "$2$" else "$2a$")
  {
  }

  /** A hash is the identifier, a rounds field, "$", 22 salt characters and a
      31-character checksum (or none). */
  predicate Shaped(hash: string, ident: string, roundsText: string, salt: string, checksum: string) {
    && hash == ident + (roundsText + "$" + (salt + checksum))
    && |salt| == SaltLen && (checksum == [] || |checksum| == ChecksumLen)
  }

  /** Salt and checksum text over BCHARS holds no "$". */
  lemma BText(s: string)
    requires AllIn(s, BChars)
    ensures '$' !in s
  {
    BCharsDistinct();
    assert forall i :: 0 <= i < |s| ==> s[i] in BChars;
  }

  /** An identifier followed by anything is matched as that identifier. */
  lemma IdentSplit(h: string, ident: string, tail: string)
    requires ident in IdentValues && h == ident + tail
    ensures MatchIdent(h, IdentValues) == Some(if ident == "$2$" then 0 else 1)
    ensures h[|ident|..] == tail
  {
    assert h[..|ident|] == ident;
    if ident == "$2a$" {
      assert h[2] == 'a';
      assert !StartsWith(h, IdentValues[0]);
    }
  }

  /** What a parse accepts: the record's identifier, a rounds field that int()
      reads (written exactly as "%02d" when strict), "$", a salt and a checksum;
      the record holds those rounds checked or clamped, and the salt and
      checksum as norm_salt and norm_checksum repair them. */
  predicate ParsedFrom(r: Record, hash: string, strict: bool, roundsText: string, rounds: int, salt: string, chk: string) {
    && Shaped(hash, r.ident, roundsText, salt, chk)
    && '$' !in roundsText
    && ParseInt(roundsText) == Some(rounds)
    && (strict ==> roundsText == Pad2(rounds))
    && NormRounds(rounds, MinRounds, MaxRounds, strict && chk != []) == Ok(r.rounds)
    && NormSalt(salt) == Ok(r.salt)
    && NormChecksum(if chk == [] then None else Some(chk)) == Ok(r.checksum)
  }

  lemma {:induction false} ParsedShape(hash: string, strict: bool)
    requires FromString(hash, strict).Ok?
    ensures exists roundsText, rounds, salt, chk ::
      ParsedFrom(FromString(hash, strict).value, hash, strict, roundsText, rounds, salt, chk)
  {
    var ident, roundsText, data := ParsedPieces(hash, strict);
    FieldsShape(ident, roundsText, data, strict);
    var salt, chk := Slice(data, 0, SaltLen), Slice(data, SaltLen, |data|);
    assert ParsedFrom(FromString(hash, strict).value, hash, strict, roundsText, ParseInt(roundsText).value, salt, chk);
  }

  /** An accepted hash is an identifier, "$"-free rounds text, "$" and the data
      that the second half of from_string parses. */
  lemma ParsedPieces(hash: string, strict: bool) returns (ident: string, roundsText: string, data: string)
    requires FromString(hash, strict).Ok?
    ensures ident in IdentValues && hash == ident + (roundsText + "$" + data) && '$' !in roundsText
    ensures FromFields(ident, roundsText, data, strict) == FromString(hash, strict)
  {
    var k := MatchIdent(hash, IdentValues).value;
    ident := IdentValues[k];
    var rest := hash[|ident|..];
    var sep := Find(rest, '$', 0);
    roundsText, data := rest[..sep], rest[sep + 1..];
    SplitPrefix(hash, ident);
    SplitAtFound(rest, '$', sep);
    assert '$' !in roundsText by {
      assert forall j :: 0 <= j < sep ==> roundsText[j] == rest[j];
    }
  }

  /** What the second half of from_string accepts. */
  lemma FieldsShape(ident: string, roundsText: string, data: string, strict: bool)
    requires ident in IdentValues && FromFields(ident, roundsText, data, strict).Ok?
    ensures FromFields(ident, roundsText, data, strict).value.ident == ident
    ensures data == Slice(data, 0, SaltLen) + Slice(data, SaltLen, |data|)
    ensures |Slice(data, 0, SaltLen)| == SaltLen
    ensures Slice(data, SaltLen, |data|) == [] || |Slice(data, SaltLen, |data|)| == ChecksumLen
    ensures ParseInt(roundsText).Some?
    ensures strict ==> roundsText == Pad2(ParseInt(roundsText).value)
    ensures NormRounds(ParseInt(roundsText).value, MinRounds, MaxRounds, strict && Slice(data, SaltLen, |data|) != [])
      == Ok(FromFields(ident, roundsText, data, strict).value.rounds)
    ensures NormSalt(Slice(data, 0, SaltLen)) == Ok(FromFields(ident, roundsText, data, strict).value.salt)
    ensures var chk := Slice(data, SaltLen, |data|);
      NormChecksum(if chk == [] then None else Some(chk)) == Ok(FromFields(ident, roundsText, data, strict).value.checksum)
  {
    var r := FromFields(ident, roundsText, data, strict).value;
    var rval := ParseInt(roundsText).value;
    var salt, chk := Slice(data, 0, SaltLen), Slice(data, SaltLen, |data|);
    var checksum := if chk == [] then None else Some(chk);
    assert New(ident, rval, salt, checksum, strict && chk != []) == Ok(r);
    assert NormChecksum(checksum) == Ok(r.checksum);
    SliceSplit(data, SaltLen);
  }

  /** from_string inverts to_string on every valid record, strict or not. */
  lemma {:induction false} RoundTrip(r: Record, strict: bool)
    requires Valid(r)
    ensures FromString(ToString(r), strict) == Ok(r)
  {
    var chk := if r.checksum.Some? then r.checksum.value else "";
    var p := Pad2(r.rounds);
    assert ToString(r) == r.ident + (p + "$" + (r.salt + chk));
    ParsePad2(r.rounds);
    DigitsAreAscii(p);
    BText(r.salt);
    BText(chk);
    FromStringFields(ToString(r), r.ident, p, r.salt + chk, strict);
    FieldsOf(r, strict);
  }

  /** The fields to_string writes for a valid record are read back as that
      record: the rounds text is canonical, salt and checksum need no repair. */
  lemma FieldsOf(r: Record, strict: bool)
    requires Valid(r)
    ensures FromFields(r.ident, Pad2(r.rounds), r.salt + (if r.checksum.Some? then r.checksum.value else ""), strict) == Ok(r)
  {
    var chk := if r.checksum.Some? then r.checksum.value else "";
    ParsePad2(r.rounds);
    SliceConcat(r.salt, chk);
    assert NormSalt(r.salt) == Ok(r.salt);
    assert NormChecksum(if chk == [] then None else Some(chk)) == Ok(r.checksum);
  }

  // ---------------------------------------------------------------------
  // Rehash check and normalisation

  /** bcrypt._hash_needs_update: a "$2a$" hash whose character 28, the final
      salt character, lies outside BSLAST. A shorter "$2a$" string raises IndexError. */
  function HashNeedsUpdate(hash: string): (r: Result<bool, Error>)
    ensures !StartsWith(hash, "$2a$") ==> r == Ok(false)
    ensures StartsWith(hash, "$2a$") && |hash| > 28 ==> r == Ok(hash[28] !in BSLast)
    ensures r.Err? <==> StartsWith(hash, "$2a$") && |hash| <= 28
  {
    if StartsWith(hash, "$2a$") then
      if |hash| <= 28 then Err(MissingField) else Ok(hash[28] !in BSLast)
    else Ok(false)
  }

  /** The identify of HasManyIdents: the hash starts with an accepted identifier. */
  predicate Identify(hash: string)
    ensures Identify(hash) <==> StartsWith(hash, "$2$") || StartsWith(hash, "$2a$")
  {
    assert StartsWith(hash, IdentValues[0]) == StartsWith(hash, "$2$");
    assert StartsWith(hash, IdentValues[1]) == StartsWith(hash, "$2a$");
    MatchIdent(hash, IdentValues).Some?
  }

  /** bcrypt.normhash: an identified hash is parsed leniently and rendered again,
      which repairs its padding bits; any other string is returned as it is. */
  function NormHash(hash: string): (r: Result<string, Error>)
    ensures !Identify(hash) ==> r == Ok(hash)
    ensures Identify(hash) ==> (r.Ok? <==> FromString(hash, false).Ok?)
    ensures r.Ok? && Identify(hash) ==> Identify(r.value) && FromString(r.value, false) == FromString(hash, false)
  {
    if Identify(hash) then
      var rec :- FromString(hash, false);
      RoundTrip(rec, false);
      Ok(ToString(rec))
    else Ok(hash)
  }

  /** Every record the constructor returns renders to a hash that needs no update. */
  lemma ValidNeedsNoUpdate(r: Record)
    requires Valid(r)
    ensures HashNeedsUpdate(ToString(r)) == Ok(false)
  {
    var h := ToString(r);
    if StartsWith(h, "$2a$") {
      IdentsExclusive(h);
      FinalSaltAt28(r);
    }
  }

  /** No string starts with both identifiers. */
  lemma IdentsExclusive(s: string)
    ensures StartsWith(s, "$2$") ==> !StartsWith(s, "$2a$")
  {
    if StartsWith(s, "$2$") {
      assert s[2] == "$2$"[2] == '$';
    }
  }

  /** In a rendered "$2a$" hash, character 28 is the final salt character. */
  lemma FinalSaltAt28(r: Record)
    requires Valid(r) && r.ident == "$2a$"
    ensures |ToString(r)| > 28 && ToString(r)[28] == r.salt[SaltLen - 1]
  {
    var chk := if r.checksum.Some? then r.checksum.value else "";
    var data := r.salt + chk;
    var tail := Pad2(r.rounds) + "$" + data;
    assert ToString(r) == r.ident + tail;
    ParsePad2(r.rounds);
    assert tail[24] == data[21];
  }

  /** normhash output never needs an update, and normhash is idempotent. */
  lemma {:induction false} NormHashCanonical(hash: string)
    requires NormHash(hash).Ok?
    ensures HashNeedsUpdate(NormHash(hash).value) == Ok(false)
    ensures NormHash(NormHash(hash).value) == NormHash(hash)
  {
    if Identify(hash) {
      var r := FromString(hash, false).value;
      ValidNeedsNoUpdate(r);
      RoundTrip(r, false);
      var h := ToString(r);
      assert MatchIdent(h, IdentValues).Some? by {
        assert h[..|r.ident|] == r.ident;
      }
    } else {
      assert !StartsWith(hash, IdentValues[1]);
    }
  }

  /** On a "$2a$" hash with a two-character rounds field, the update check
      fires exactly when parsing had to repair the final salt character. */
  lemma {:induction false} NeedsUpdateExactlyWhenRepaired(hash: string, strict: bool, roundsText: string, rounds: int, salt: string, chk: string)
    requires FromString(hash, strict).Ok? && FromString(hash, strict).value.ident == "$2a$"
    requires ParsedFrom(FromString(hash, strict).value, hash, strict, roundsText, rounds, salt, chk)
    requires |roundsText| == 2
    ensures HashNeedsUpdate(hash) == Ok(FromString(hash, strict).value.salt != salt)
  {
    var tail := roundsText + "$" + (salt + chk);
    assert hash == "$2a$" + tail;
    assert hash[..4] == "$2a$";
    assert hash[28] == tail[24] == salt[21];
  }

  /** Why the lemma above needs a two-character rounds field: "%02d" % 100 is
      "100", so a config with rounds 100 passes the strict rendering check, and
      without a checksum its rounds are clamped to 31 instead of rejected.
      Character 28 of that config is salt[20], not the final salt character, so
      it is reported as needing an update although its salt needs no repair. */
  lemma ThreeDigitRoundsConfig()
    ensures FromString("$2a$100$" + ExampleSalt, true) == Ok(Record("$2a$", 31, ExampleSalt, None))
  {
    var h := "$2a$100$" + ExampleSalt;
    assert h == "$2a$" + ("100" + "$" + ExampleSalt);
    ExampleSaltValid();
    FromStringFields(h, "$2a$", "100", ExampleSalt, true);
    HundredRead();
    HundredPad();
    assert Slice(ExampleSalt, 0, SaltLen) == ExampleSalt && Slice(ExampleSalt, SaltLen, |ExampleSalt|) == [];
  }

  /** The same config needs no salt repair but is reported as needing an update. */
  lemma ThreeDigitRoundsNeedsUpdate()
    ensures ExampleSalt[SaltLen - 1] in BSLast
    ensures HashNeedsUpdate("$2a$100$" + ExampleSalt) == Ok(true)
  {
    var h := "$2a$100$" + ExampleSalt;
    assert h[..4] == "$2a$";
    assert h[28] == 'P';
  }

  /** A salt whose final character is in BSLAST but whose character 20 is not. */
  const ExampleSalt: string := "....................P."

  /** int() reads "100" as 100. */
  lemma HundredRead()
    ensures ParseInt("100") == Some(100)
  {
    assert DigitsValue("1") == 1 by {
      assert "1"[..0] == "";
    }
    assert DigitsValue("10") == 10 by {
      assert "10"[..1] == "1";
    }
    assert DigitsValue("100") == 100 by {
      assert "100"[..2] == "10";
    }
  }

  /** "%02d" % 100 is "100". */
  lemma HundredPad()
    ensures Pad2(100) == "100"
  {
    assert DigitChar(0) == '0' && DigitChar(1) == '1';
    assert NatStr(1) == "1";
    assert NatStr(10) == NatStr(1) + [DigitChar(0)] == "10";
    assert NatStr(100) == NatStr(10) + [DigitChar(0)] == "100";
  }

  lemma ExampleSaltValid()
    ensures AllIn(ExampleSalt, BChars) && '$' !in ExampleSalt && NormSalt(ExampleSalt) == Ok(ExampleSalt)
  {
    BCharsLayout();
    assert BChars[0] == '.' && BChars[17] == 'P';
    assert forall i :: 0 <= i < |ExampleSalt| ==> ExampleSalt[i] == BChars[0] || ExampleSalt[i] == BChars[17];
    BText(ExampleSalt);
    assert ExampleSalt[SaltLen - 1] in BSLast;
  }

  /** bcrypt.generate_salt: 21 characters drawn from BCHARS, then one drawn from
      BSLAST; the random source is given as the drawn positions. Any requested
      size other than None or 22 is an error. */
  function GenerateSalt(saltSize: Option<int>, draws: seq<nat>, lastDraw: nat): (r: Result<string, Error>)
    requires |draws| == SaltLen - 1 && (forall i :: 0 <= i < |draws| ==> draws[i] < 64) && lastDraw < 4
    ensures r.Err? <==> saltSize.Some? && saltSize.value != SaltLen
    ensures r.Ok? ==> |r.value| == SaltLen && AllIn(r.value, BChars) && r.value[SaltLen - 1] in BSLast
    ensures r.Ok? ==> forall i :: 0 <= i < SaltLen - 1 ==> r.value[i] == BChars[draws[i]]
    ensures r.Ok? ==> r.value[SaltLen - 1] == BSLast[lastDraw]
    ensures r.Ok? ==> NormSalt(r.value) == Ok(r.value)
  {
    if saltSize.Some? && saltSize.value != SaltLen then Err(BadSaltSizeRequest)
    else
      BCharsDistinct();
      LastAlphabets(16 * lastDraw);
      var salt := seq(SaltLen - 1, i requires 0 <= i < SaltLen - 1 => BChars[draws[i]]) + [BSLast[lastDraw]];
      assert BSLast[lastDraw] == BChars[16 * lastDraw];
      Ok(salt)
  }

  // ---------------------------------------------------------------------
  // Backends

  /** The first backend, in the given order, whose availability probe holds. */
  function FirstAvailable(bs: seq<Backend>, available: Backend -> bool): (r: Option<nat>)
    ensures r.None? <==> forall k :: 0 <= k < |bs| ==> !available(bs[k])
    ensures r.Some? ==> r.value < |bs| && available(bs[r.value])
    ensures r.Some? ==> forall k :: 0 <= k < r.value ==> !available(bs[k])
  {
    if bs == [] then None
    else if available(bs[0]) then Some(0)
    else match FirstAvailable(bs[1..], available)
      case None => None
      case Some(k) => Some(k + 1)
  }

  /** get_backend over ("pybcrypt", "bcryptor", "os_crypt"). */
  function SelectBackend(available: Backend -> bool): (r: Result<Backend, Error>)
    ensures r.Ok? ==> r.value in Backends && available(r.value)
  {
    match FirstAvailable(Backends, available)
    case None => Err(NoBackend)
    case Some(k) => Ok(Backends[k])
  }

  /** The selected backend is available and every backend before it is not;
      selection fails only when none is available. */
  lemma SelectBackendFirst(available: Backend -> bool)
    ensures SelectBackend(available).Err? <==> !available(PyBcrypt) && !available(Bcryptor) && !available(OsCrypt)
    ensures SelectBackend(available) == Ok(PyBcrypt) <==> available(PyBcrypt)
    ensures SelectBackend(available) == Ok(Bcryptor) <==> !available(PyBcrypt) && available(Bcryptor)
    ensures SelectBackend(available) == Ok(OsCrypt) <==> !available(PyBcrypt) && !available(Bcryptor) && available(OsCrypt)
  {
    var r := FirstAvailable(Backends, available);
    assert r.None? ==> !available(Backends[0]) && !available(Backends[1]) && !available(Backends[2]);
  }

  /** The engine output a backend's checksum is cut from: pybcrypt_hashpw and
      bcryptor's hash_key (engine), or safe_os_crypt (osCrypt, with its success
      flag), each called with the secret and the record's own string. */
  function EngineOutput(r: Record, secret: seq<Byte>, backend: Backend,
                        engine: (Backend, seq<Byte>, string) -> string,
                        osCrypt: (seq<Byte>, string) -> (bool, string)): (bool, string)
  {
    if backend == OsCrypt then osCrypt(secret, ToString(r))
    else (true, engine(backend, secret, ToString(r)))
  }

  /** _calc_checksum_<backend>: the last 31 characters of the engine's output;
      only os_crypt can fail, when the host crypt() reports failure. */
  function CalcChecksum(r: Record, secret: seq<Byte>, backend: Backend,
                        engine: (Backend, seq<Byte>, string) -> string,
                        osCrypt: (seq<Byte>, string) -> (bool, string)): (res: Result<string, Error>)
    ensures res.Err? <==> backend == OsCrypt && !osCrypt(secret, ToString(r)).0
    ensures res.Ok? ==>
      var out := EngineOutput(r, secret, backend, engine, osCrypt).1;
      && |res.value| == (if |out| < ChecksumLen then |out| else ChecksumLen)
      && out == out[..|out| - |res.value|] + res.value
  {
    var (ok, out) := EngineOutput(r, secret, backend, engine, osCrypt);
    if ok then Ok(Tail(out, ChecksumLen)) else Err(BackendFailed)
  }
}
