/** Sun's MD5-crypt, as found on Solaris: hash strings
    "$md5$<salt>..." or "$md5,rounds=<n>$<salt>..." in four historical layouts
    (bare salt, "$"-config, "$$"-hash and "$"-hash), and the round function
    that chains 4096 + rounds MD5 digests, each round feeding in the Hamlet
    passage or not according to a coin flipped from bits of the previous
    digest.  MD5 and the Hamlet bytes are parameters. */
module SunMd5Crypt {
  import opened Wrappers
  import opened PyText
  import opened Handlers

  const DefaultRounds: int := 5000
  const MinRounds: int := 0
  /** 2**32 - 1 - 4096, so that 4096 + rounds fits in 32 bits. */
  const MaxRounds: int := 4294963199
  const DefaultSaltLen: nat := 8

  /** One sun-md5-crypt record; bareSalt marks the legacy layouts whose salt
      is not followed by "$" in the digest input. */
  datatype Record = Record(rounds: int, salt: string, checksum: Option<string>, bareSalt: bool)

  /** What the constructor guarantees of every record it returns. */
  predicate Valid(r: Record) {
    && MinRounds <= r.rounds <= MaxRounds
    && AllIn(r.salt, H64Chars)
    && (r.checksum.Some? ==> AllIn(r.checksum.value, H64Chars))
  }

  /** The constructor sun_md5_crypt(rounds=, salt=, checksum=, bare_salt=):
      rounds outside [0, 4294963199] are always an error (_strict_rounds_bounds),
      the salt has any length and uses the hash alphabet, and so does the checksum. */
  function New(rounds: int, salt: string, checksum: Option<string>, bareSalt: bool): (r: Result<Record, Error>)
    ensures r.Ok? <==>
      && MinRounds <= rounds <= MaxRounds
      && AllIn(salt, H64Chars)
      && (checksum.Some? ==> AllIn(checksum.value, H64Chars))
    ensures r.Ok? ==> r.value == Record(rounds, salt, checksum, bareSalt) && Valid(r.value)
  {
    var n :- NormRounds(rounds, MinRounds, MaxRounds, true);
    var s :- CheckSalt(salt, H64Chars, 0, None);
    var c :- CheckChecksum(checksum, H64Chars, None);
    Ok(Record(n, s, c, bareSalt))
  }

  /** identify: the hash starts with "$md5$" or "$md5,"; so every hash with a
      rounds field is identified. */
  predicate Identify(hash: string)
    ensures StartsWith(hash, "$md5,rounds=") ==> Identify(hash)
  {
    assert StartsWith(hash, "$md5,rounds=") ==> hash[..5] == "$md5,rounds="[..5];
    StartsWith(hash, "$md5$") || StartsWith(hash, "$md5,")
  }

  // ---------------------------------------------------------------------
  // Parsing and rendering

  /** sun_md5_crypt.from_string: the prefix fixes the rounds and where the
      salt starts; Layout separates salt and checksum. */
  function FromString(hash: string): (r: Result<Record, Error>)
    ensures r.Ok? ==> Valid(r.value)
    ensures r.Ok? && StartsWith(hash, "$md5$") ==> r.value.rounds == 0
  {
    if hash == [] then Err(NoHash)
    else if StartsWith(hash, "$md5$") then Layout(hash, 0, 5)
    else if StartsWith(hash, "$md5,rounds=") then
      var field :- RoundsField(hash);
      Layout(hash, field.0, field.1 + 1)
    else Err(UnknownPrefix)
  }

  /** The rounds field of a "$md5,rounds=" hash: the text up to the first "$"
      from position 12 must be the plain decimal rendering of a non-zero
      integer. The result is that integer and the position of the "$". */
  function RoundsField(hash: string): (r: Result<(int, nat), Error>)
    requires StartsWith(hash, "$md5,rounds=")
    ensures r.Ok? <==>
      && Find(hash, '$', 12) != -1
      && ParseInt(hash[12..Find(hash, '$', 12)]).Some?
      && hash[12..Find(hash, '$', 12)] == IntStr(ParseInt(hash[12..Find(hash, '$', 12)]).value)
      && ParseInt(hash[12..Find(hash, '$', 12)]).value != 0
    ensures r.Ok? ==> r.value.1 == Find(hash, '$', 12) && hash[12..r.value.1] == IntStr(r.value.0) && r.value.0 != 0
  {
    var idx := Find(hash, '$', 12);
    if idx == -1 then Err(MalformedRounds)
    else
      var rstr := hash[12..idx];
      match ParseInt(rstr)
      case None => Err(MalformedRounds)
      case Some(n) =>
        if rstr != IntStr(n) then Err(ZeroPaddedRounds)
        else if n == 0 then Err(ExplicitZeroRounds)
        else Ok((n, idx))
  }

  /** The salt/checksum separation of from_string, from the last "$" at or
      after the salt start:
      none             -> bare salt, no checksum ("" config of a "$"-hash);
      the last char    -> salt before it, no checksum ("$" config of a "$$"-hash),
                          except that a trailing "$$" after the salt start is an error;
      preceded by "$"  -> "$$"-hash: salt, "$$", checksum;
      otherwise        -> "$"-hash with bare salt: salt, "$", checksum. */
  function Layout(hash: string, rounds: int, saltIdx: nat): (r: Result<Record, Error>)
    requires saltIdx <= |hash|
    ensures r.Ok? ==> r.value.rounds == rounds && Valid(r.value)
  {
    var chkIdx := RFind(hash, '$', saltIdx);
    if chkIdx == -1 then New(rounds, hash[saltIdx..], None, true)
    else if chkIdx == |hash| - 1 then
      if chkIdx > saltIdx && hash[|hash| - 2] == '$' then Err(TooManySeparators)
      else New(rounds, hash[saltIdx..|hash| - 1], None, false)
    else if chkIdx > 0 && hash[chkIdx - 1] == '$' then
      New(rounds, Slice(hash, saltIdx, chkIdx - 1), Some(hash[chkIdx + 1..]), false)
    else New(rounds, hash[saltIdx..chkIdx], Some(hash[chkIdx + 1..]), true)
  }

  /** The prefix to_string writes: "$md5,rounds=<n>$" for positive rounds,
      "$md5$" otherwise. */
  function Prefix(rounds: int): (p: string)
    ensures |p| >= 5 && p[..4] == "$md5" && p[|p| - 1] == '$'
  {
    if rounds > 0 then "$md5,rounds=" + IntStr(rounds) + "$" else "$md5$"
  }

  /** sun_md5_crypt.to_string(withchk): prefix, salt, "$" unless the salt is
      bare, then "$" and the checksum when asked for and non-empty. */
  function ToString(r: Record, withChk: bool): (s: string)
    ensures StartsWith(s, Prefix(r.rounds))
  {
    var out := if r.bareSalt then Prefix(r.rounds) + r.salt else Prefix(r.rounds) + r.salt + "$";
    if withChk && r.checksum.Some? && r.checksum.value != [] then out + "$" + r.checksum.value else out
  }

  /** The records that to_string writes in a form from_string reads back
      unchanged: valid, a non-empty checksum if any, and a non-empty salt when
      a bare salt is followed by a checksum. */
  predicate Renderable(r: Record) {
    && Valid(r)
    && (r.checksum.Some? ==> r.checksum.value != [] && (r.bareSalt ==> r.salt != []))
  }

  /** Which prefix is accepted, and the rounds each one yields. */
  lemma FromStringPrefix(hash: string)
    ensures FromString(hash).Ok? ==> Identify(hash)
    ensures !StartsWith(hash, "$md5$") && !StartsWith(hash, "$md5,rounds=") ==> FromString(hash).Err?
    ensures FromString(hash).Ok? && StartsWith(hash, "$md5$") ==> FromString(hash).value.rounds == 0
    ensures FromString(hash).Ok? && !StartsWith(hash, "$md5$") ==>
      StartsWith(hash, "$md5,rounds=") && FromString(hash).value.rounds > 0
  {
    if FromString(hash).Ok? && !StartsWith(hash, "$md5$") && StartsWith(hash, "$md5,rounds=") {
      assert hash[..5] == "$md5,rounds="[..5];
    }
  }

  /** The rounds field of "$md5,rounds=<rstr>$...": a field int() cannot read,
      one that is not the plain decimal rendering of its value, and an explicit
      zero are each rejected. */
  lemma RoundsFieldErrors(rstr: string, tail: string)
    requires '$' !in rstr
    ensures var hash := "$md5,rounds=" + rstr + "$" + tail;
      && (ParseInt(rstr).None? ==> FromString(hash) == Err(MalformedRounds))
      && (ParseInt(rstr).Some? && rstr != IntStr(ParseInt(rstr).value) ==> FromString(hash) == Err(ZeroPaddedRounds))
      && (rstr == "0" ==> FromString(hash) == Err(ExplicitZeroRounds))
  {
    var hash := "$md5,rounds=" + rstr + "$" + tail;
    RoundsPrefix(hash, rstr, tail);
    if rstr == "0" {
      ParseIntStr(0);
      assert IntStr(0) == "0";
    }
  }

  /** "$md5,rounds=<rstr>$" followed by anything: the first "$" after position
      12 ends the rounds field. */
  lemma RoundsPrefix(hash: string, rstr: string, tail: string)
    requires '$' !in rstr && hash == "$md5,rounds=" + rstr + "$" + tail
    ensures !StartsWith(hash, "$md5$") && StartsWith(hash, "$md5,rounds=")
    ensures Find(hash, '$', 12) == 12 + |rstr| && hash[12..12 + |rstr|] == rstr
  {
    assert hash[4] == ',';
    assert hash[..12] == "$md5,rounds=";
    assert forall j :: 12 <= j < 12 + |rstr| ==> hash[j] == rstr[j - 12];
    assert hash[12 + |rstr|] == '$';
  }

  /** from_string reads the prefix to_string writes for any rounds in range,
      and continues with Layout just after it. */
  lemma PrefixParse(rounds: int, hash: string)
    requires MinRounds <= rounds <= MaxRounds && StartsWith(hash, Prefix(rounds))
    ensures var p := Prefix(rounds);
      && p != [] && p[|p| - 1] == '$'
      && FromString(hash) == Layout(hash, rounds, |p|)
  {
    if rounds > 0 {
      RoundsFieldOf(rounds, hash);
    } else {
      assert hash[..5] == "$md5$";
    }
  }

  /** The rounds field that Prefix writes for positive rounds is read back by
      RoundsField, ending at the last character of the prefix. */
  lemma RoundsFieldOf(rounds: int, hash: string)
    requires 0 < rounds && StartsWith(hash, Prefix(rounds))
    ensures !StartsWith(hash, "$md5$") && StartsWith(hash, "$md5,rounds=")
    ensures RoundsField(hash) == Ok((rounds, |Prefix(rounds)| - 1))
  {
    var n := IntStr(rounds);
    var tail := hash[|Prefix(rounds)|..];
    assert hash == "$md5,rounds=" + n + "$" + tail;
    assert n == NatStr(rounds);
    DigitsAreAscii(n);
    RoundsPrefix(hash, n, tail);
    ParseIntStr(rounds);
  }

  // The four layouts of Layout, each stated on where the "$" separators lie
  // at or after the salt start.

  lemma LayoutBare(h: string, rounds: int, saltIdx: nat, salt: string)
    requires saltIdx <= |h| && h[saltIdx..] == salt && '$' !in salt
    ensures Layout(h, rounds, saltIdx) == New(rounds, salt, None, true)
  {
  }

  lemma LayoutConfig(h: string, rounds: int, saltIdx: nat, salt: string)
    requires saltIdx < |h| && h[|h| - 1] == '$' && h[saltIdx..|h| - 1] == salt && '$' !in salt
    ensures Layout(h, rounds, saltIdx) == New(rounds, salt, None, false)
  {
    RFindAt(h, '$', saltIdx, |h| - 1);
    if saltIdx < |h| - 1 {
      assert h[|h| - 2] == salt[|h| - 2 - saltIdx];
    }
  }

  lemma LayoutSingleSep(h: string, rounds: int, saltIdx: nat, i: nat, salt: string, chk: string)
    requires saltIdx < i && i + 1 < |h| && h[i] == '$'
    requires h[saltIdx..i] == salt && '$' !in salt && h[i + 1..] == chk && '$' !in chk
    ensures Layout(h, rounds, saltIdx) == New(rounds, salt, Some(chk), true)
  {
    RFindAt(h, '$', saltIdx, i);
    assert h[i - 1] == salt[i - 1 - saltIdx];
  }

  lemma LayoutDoubleSep(h: string, rounds: int, saltIdx: nat, i: nat, salt: string, chk: string)
    requires saltIdx < i && i + 1 < |h| && h[i - 1] == '$' && h[i] == '$'
    requires h[saltIdx..i - 1] == salt && h[i + 1..] == chk && '$' !in chk
    ensures Layout(h, rounds, saltIdx) == New(rounds, salt, Some(chk), false)
  {
    RFindAt(h, '$', saltIdx, i);
    assert Slice(h, saltIdx, i - 1) == salt;
  }

  // Where to_string puts each piece, layout by layout.

  lemma TextBare(r: Record)
    requires r.checksum.None? && r.bareSalt
    ensures var h, p := ToString(r, true), Prefix(r.rounds);
      StartsWith(h, p) && h[|p|..] == r.salt
  {
  }

  lemma TextConfig(r: Record)
    requires r.checksum.None? && !r.bareSalt
    ensures var h, p := ToString(r, true), Prefix(r.rounds);
      && |h| == |p| + |r.salt| + 1 && StartsWith(h, p)
      && h[|p|..|h| - 1] == r.salt && h[|h| - 1] == '$'
  {
    var h, p := ToString(r, true), Prefix(r.rounds);
    assert h[..|h| - 1] == p + r.salt;
  }

  lemma TextSingleSep(r: Record)
    requires r.checksum.Some? && r.bareSalt && r.checksum.value != []
    ensures var h, p := ToString(r, true), Prefix(r.rounds); var i := |p| + |r.salt|;
      && i + 1 < |h| && StartsWith(h, p)
      && h[|p|..i] == r.salt && h[i] == '$' && h[i + 1..] == r.checksum.value
  {
    var h, p := ToString(r, true), Prefix(r.rounds);
    var i := |p| + |r.salt|;
    assert h[..i + 1] == p + r.salt + "$";
    assert h[..i] == p + r.salt;
  }

  lemma TextDoubleSep(r: Record)
    requires r.checksum.Some? && !r.bareSalt && r.checksum.value != []
    ensures var h, p := ToString(r, true), Prefix(r.rounds); var i := |p| + |r.salt| + 1;
      && i + 1 < |h| && StartsWith(h, p)
      && h[|p|..i - 1] == r.salt && h[i - 1] == '$' && h[i] == '$' && h[i + 1..] == r.checksum.value
  {
    var h, p := ToString(r, true), Prefix(r.rounds);
    var i := |p| + |r.salt| + 1;
    assert h[..i + 1] == p + r.salt + "$" + "$";
    assert h[..i] == p + r.salt + "$";
    assert h[..i - 1] == p + r.salt;
  }

  // to_string read back by from_string, one layout at a time.

  /** The constructor accepts every valid record's fields unchanged. */
  lemma NewOf(r: Record)
    requires Valid(r)
    ensures New(r.rounds, r.salt, r.checksum, r.bareSalt) == Ok(r)
  {
  }

  lemma RoundTripBare(r: Record)
    requires Renderable(r) && r.checksum.None? && r.bareSalt
    ensures FromString(ToString(r, true)) == Ok(r)
  {
    var p, h := Prefix(r.rounds), ToString(r, true);
    H64Text(r.salt);
    NewOf(r);
    TextBare(r);
    PrefixParse(r.rounds, h);
    LayoutBare(h, r.rounds, |p|, r.salt);
  }

  lemma RoundTripConfig(r: Record)
    requires Renderable(r) && r.checksum.None? && !r.bareSalt
    ensures FromString(ToString(r, true)) == Ok(r)
  {
    var p, h := Prefix(r.rounds), ToString(r, true);
    H64Text(r.salt);
    NewOf(r);
    TextConfig(r);
    PrefixParse(r.rounds, h);
    LayoutConfig(h, r.rounds, |p|, r.salt);
  }

  lemma ReadSingleSep(r: Record)
    requires Renderable(r) && r.checksum.Some? && r.bareSalt
    ensures Layout(ToString(r, true), r.rounds, |Prefix(r.rounds)|) == Ok(r)
  {
    var p, h := Prefix(r.rounds), ToString(r, true);
    H64Text(r.salt);
    H64Text(r.checksum.value);
    NewOf(r);
    TextSingleSep(r);
    LayoutSingleSep(h, r.rounds, |p|, |p| + |r.salt|, r.salt, r.checksum.value);
  }

  lemma ReadDoubleSep(r: Record)
    requires Renderable(r) && r.checksum.Some? && !r.bareSalt
    ensures Layout(ToString(r, true), r.rounds, |Prefix(r.rounds)|) == Ok(r)
  {
    var p, h := Prefix(r.rounds), ToString(r, true);
    H64Text(r.checksum.value);
    NewOf(r);
    TextDoubleSep(r);
    LayoutDoubleSep(h, r.rounds, |p|, |p| + |r.salt| + 1, r.salt, r.checksum.value);
  }

  lemma RoundTripSingleSep(r: Record)
    requires Renderable(r) && r.checksum.Some? && r.bareSalt
    ensures FromString(ToString(r, true)) == Ok(r)
  {
    TextSingleSep(r);
    PrefixParse(r.rounds, ToString(r, true));
    ReadSingleSep(r);
  }

  lemma RoundTripDoubleSep(r: Record)
    requires Renderable(r) && r.checksum.Some? && !r.bareSalt
    ensures FromString(ToString(r, true)) == Ok(r)
  {
    TextDoubleSep(r);
    PrefixParse(r.rounds, ToString(r, true));
    ReadDoubleSep(r);
  }

  /** from_string inverts to_string on every renderable record, in each of the
      four layouts. */
  lemma RoundTrip(r: Record)
    requires Renderable(r)
    ensures FromString(ToString(r, true)) == Ok(r)
  {
    if r.checksum.None? {
      if r.bareSalt {
        RoundTripBare(r);
      } else {
        RoundTripConfig(r);
      }
    } else if r.bareSalt {
      RoundTripSingleSep(r);
    } else {
      RoundTripDoubleSep(r);
    }
  }

  /** The salt start of an accepted hash: just after a "$", with Prefix of the
      parsed rounds before it, and Layout giving the record. */
  lemma SaltStart(hash: string) returns (saltIdx: nat)
    requires FromString(hash).Ok?
    ensures 0 < saltIdx <= |hash| && hash[..saltIdx] == Prefix(FromString(hash).value.rounds)
    ensures Layout(hash, FromString(hash).value.rounds, saltIdx) == FromString(hash)
  {
    if StartsWith(hash, "$md5$") {
      saltIdx := 5;
    } else {
      saltIdx := RoundsSaltStart(hash);
    }
  }

  /** The salt start of an accepted "$md5,rounds=" hash: just after the "$"
      that ends the rounds field. */
  lemma RoundsSaltStart(hash: string) returns (saltIdx: nat)
    requires FromString(hash).Ok? && !StartsWith(hash, "$md5$")
    ensures 0 < saltIdx <= |hash| && hash[..saltIdx] == Prefix(FromString(hash).value.rounds)
    ensures Layout(hash, FromString(hash).value.rounds, saltIdx) == FromString(hash)
  {
    var field := RoundsField(hash).value;
    var n, idx := field.0, field.1;
    saltIdx := idx + 1;
    assert FromString(hash) == Layout(hash, n, saltIdx);
    FieldPrefix(hash, n, idx);
  }

  /** The text up to the "$" that ends a rounds field is the prefix of those rounds. */
  lemma FieldPrefix(hash: string, n: int, idx: nat)
    requires StartsWith(hash, "$md5,rounds=") && 12 <= idx < |hash| && hash[idx] == '$'
    requires n > 0 && hash[12..idx] == IntStr(n)
    ensures hash[..idx + 1] == Prefix(n)
  {
    assert hash[..idx + 1] == hash[..12] + hash[12..idx] + [hash[idx]];
  }

  /** Every accepted hash gives a renderable record. */
  lemma {:induction false} ParsedRenderable(hash: string)
    requires FromString(hash).Ok?
    ensures Renderable(FromString(hash).value)
  {
    var saltIdx := SaltStart(hash);
    assert hash[saltIdx - 1] == hash[..saltIdx][saltIdx - 1];
    LayoutRenderable(hash, FromString(hash).value.rounds, saltIdx);
  }

  /** A layout whose salt starts just after a "$" gives a renderable record:
      a "$" before the checksum is never the one before the salt. */
  lemma LayoutRenderable(hash: string, rounds: int, saltIdx: nat)
    requires 0 < saltIdx <= |hash| && hash[saltIdx - 1] == '$' && Layout(hash, rounds, saltIdx).Ok?
    ensures Renderable(Layout(hash, rounds, saltIdx).value)
  {
  }

  /** Rendering an accepted hash gives it back, except when a checksum follows
      an empty salt, where the layout is not recorded (see the lemmas below). */
  lemma ParseRender(hash: string)
    requires FromString(hash).Ok?
    requires FromString(hash).value.salt != [] || FromString(hash).value.checksum.None?
    ensures ToString(FromString(hash).value, true) == hash
  {
    var saltIdx := SaltStart(hash);
    LayoutRender(hash, FromString(hash).value.rounds, saltIdx);
  }

  /** Layout's record, rendered after the prefix that precedes the salt,
      gives the hash back in each of the four layouts. */
  lemma LayoutRender(hash: string, rounds: int, saltIdx: nat)
    requires 0 < saltIdx <= |hash| && hash[..saltIdx] == Prefix(rounds) && Layout(hash, rounds, saltIdx).Ok?
    requires Layout(hash, rounds, saltIdx).value.salt != [] || Layout(hash, rounds, saltIdx).value.checksum.None?
    ensures ToString(Layout(hash, rounds, saltIdx).value, true) == hash
  {
    var i := RFind(hash, '$', saltIdx);
    if i == -1 {
      CutBare(hash, rounds, saltIdx);
      RenderBare(hash, rounds, saltIdx);
    } else if i == |hash| - 1 {
      CutConfig(hash, rounds, saltIdx);
      RenderConfig(hash, rounds, saltIdx);
    } else if hash[i - 1] == '$' {
      CutDoubleSep(hash, rounds, saltIdx, i);
      RenderDoubleSep(hash, rounds, saltIdx, i);
    } else {
      CutSingleSep(hash, rounds, saltIdx, i);
      RenderSingleSep(hash, rounds, saltIdx, i);
    }
  }

  // Each layout rendered back, from where its separators lie: the Cut
  // lemmas say which record Layout builds, the Render lemmas write that
  // record out again.

  lemma CutBare(hash: string, rounds: int, saltIdx: nat)
    requires saltIdx <= |hash| && RFind(hash, '$', saltIdx) == -1 && Layout(hash, rounds, saltIdx).Ok?
    ensures Layout(hash, rounds, saltIdx).value == Record(rounds, hash[saltIdx..], None, true)
  {
  }

  lemma CutConfig(hash: string, rounds: int, saltIdx: nat)
    requires saltIdx < |hash| && RFind(hash, '$', saltIdx) == |hash| - 1 && Layout(hash, rounds, saltIdx).Ok?
    ensures Layout(hash, rounds, saltIdx).value == Record(rounds, hash[saltIdx..|hash| - 1], None, false)
  {
  }

  lemma CutSingleSep(hash: string, rounds: int, saltIdx: nat, i: nat)
    requires saltIdx <= i && i + 1 < |hash| && RFind(hash, '$', saltIdx) == i && (i == 0 || hash[i - 1] != '$')
    requires Layout(hash, rounds, saltIdx).Ok?
    ensures Layout(hash, rounds, saltIdx).value == Record(rounds, hash[saltIdx..i], Some(hash[i + 1..]), true)
  {
    assert Layout(hash, rounds, saltIdx) == New(rounds, hash[saltIdx..i], Some(hash[i + 1..]), true);
  }

  lemma CutDoubleSep(hash: string, rounds: int, saltIdx: nat, i: nat)
    requires 0 < saltIdx <= i && i + 1 < |hash| && RFind(hash, '$', saltIdx) == i && hash[i - 1] == '$'
    requires Layout(hash, rounds, saltIdx).Ok?
    ensures Layout(hash, rounds, saltIdx).value == Record(rounds, Slice(hash, saltIdx, i - 1), Some(hash[i + 1..]), false)
  {
    assert Layout(hash, rounds, saltIdx) == New(rounds, Slice(hash, saltIdx, i - 1), Some(hash[i + 1..]), false);
  }

  lemma RenderBare(hash: string, rounds: int, saltIdx: nat)
    requires saltIdx <= |hash| && hash[..saltIdx] == Prefix(rounds)
    ensures ToString(Record(rounds, hash[saltIdx..], None, true), true) == hash
  {
    assert hash == hash[..saltIdx] + hash[saltIdx..];
  }

  lemma RenderConfig(hash: string, rounds: int, saltIdx: nat)
    requires saltIdx < |hash| && hash[..saltIdx] == Prefix(rounds) && hash[|hash| - 1] == '$'
    ensures ToString(Record(rounds, hash[saltIdx..|hash| - 1], None, false), true) == hash
  {
    Pieces(hash, saltIdx, |hash| - 1);
  }

  lemma RenderSingleSep(hash: string, rounds: int, saltIdx: nat, i: nat)
    requires saltIdx <= i && i + 1 < |hash| && hash[..saltIdx] == Prefix(rounds) && hash[i] == '$'
    ensures ToString(Record(rounds, hash[saltIdx..i], Some(hash[i + 1..]), true), true) == hash
  {
    Pieces(hash, saltIdx, i);
  }

  lemma RenderDoubleSep(hash: string, rounds: int, saltIdx: nat, i: nat)
    requires saltIdx < i && i + 1 < |hash| && hash[..saltIdx] == Prefix(rounds) && hash[i - 1] == '$' && hash[i] == '$'
    requires Slice(hash, saltIdx, i - 1) != []
    ensures ToString(Record(rounds, Slice(hash, saltIdx, i - 1), Some(hash[i + 1..]), false), true) == hash
  {
    var salt := hash[saltIdx..i - 1];
    assert ToString(Record(rounds, salt, Some(hash[i + 1..]), false), true) == Prefix(rounds) + salt + "$" + "$" + hash[i + 1..];
    PiecesDouble(hash, saltIdx, i - 1);
  }

  /** A string cut before i, at the single character j and after it. */
  lemma Pieces(s: string, i: nat, j: nat)
    requires i <= j < |s|
    ensures s == s[..i] + s[i..j] + [s[j]] + s[j + 1..]
    ensures s[j + 1..] == [] ==> s == s[..i] + s[i..j] + [s[j]]
  {
    assert s[..j] == s[..i] + s[i..j];
    assert s == s[..j] + [s[j]] + s[j + 1..];
  }

  /** A string cut before i, at the two characters j and j + 1 and after them. */
  lemma PiecesDouble(s: string, i: nat, j: nat)
    requires i <= j && j + 1 < |s|
    ensures s == s[..i] + s[i..j] + [s[j]] + [s[j + 1]] + s[j + 2..]
  {
    assert s[..j] == s[..i] + s[i..j];
    assert s[..j + 1] == s[..j] + [s[j]];
    assert s == s[..j + 1] + [s[j + 1]] + s[j + 2..];
  }

  /** A checksum straight after "$md5$" is read as a "$$"-hash with an empty
      salt, which is rendered with one more "$". */
  lemma EmptySaltChecksum()
    ensures FromString("$md5$$abc") == Ok(Record(0, "", Some("abc"), false))
    ensures ToString(Record(0, "", Some("abc"), false), true) == "$md5$$$abc"
  {
    var h := "$md5$$abc";
    H64Layout();
    assert H64Chars[38] == 'a' && H64Chars[39] == 'b' && H64Chars[40] == 'c';
    assert AllIn("abc", H64Chars);
    assert h[5] == '$' && h[6] == 'a' && h[7] == 'b' && h[8] == 'c';
    assert RFind(h, '$', 5) == 5;
    assert Slice(h, 5, 4) == [];
    assert h[6..] == "abc";
  }

  /** A bare empty salt with a checksum renders as that same text, so the
      bare-salt flag is lost. */
  lemma BareEmptySaltLost()
    ensures Valid(Record(0, "", Some("abc"), true))
    ensures ToString(Record(0, "", Some("abc"), true), true) == "$md5$$abc"
    ensures FromString(ToString(Record(0, "", Some("abc"), true), true)) != Ok(Record(0, "", Some("abc"), true))
  {
    EmptySaltChecksum();
  }

  /** "$$" at the end, after a non-empty salt, is rejected, whichever prefix
      the hash has. */
  lemma TrailingDoubleSep(rounds: int, salt: string)
    requires MinRounds <= rounds <= MaxRounds && salt != [] && '$' !in salt
    ensures FromString(Prefix(rounds) + salt + "$$") == Err(TooManySeparators)
  {
    var p := Prefix(rounds);
    var h := p + salt + "$$";
    assert h[..|p|] == p;
    PrefixParse(rounds, h);
    assert h[|h| - 1] == '$' && h[|h| - 2] == '$';
    assert RFind(h, '$', |p|) == |h| - 1;
  }

  /** The configuration string hashed into the first digest ends in "$"
      exactly when the salt is not bare (for a non-empty salt). */
  lemma ConfigSeparator(r: Record)
    requires Valid(r) && r.salt != []
    ensures var c := ToString(r, false); c != [] && (c[|c| - 1] == '$' <==> !r.bareSalt)
  {
    H64Text(r.salt);
    var c := ToString(r, false);
    if r.bareSalt {
      assert c[|c| - 1] == r.salt[|r.salt| - 1];
    }
  }

  // ---------------------------------------------------------------------
  // The round function

  /** An entry (i, ia, ib) of the _XY_ROUNDS tables: bit i of x or y is
      computed from digest bytes ia and ib. */
  datatype Triple = Triple(i: bv8, ia: nat, ib: nat)

  /** Entry k of the table whose first entry reads bytes ia0 and ib0: every
      table advances both byte positions by one per entry, modulo 16. */
  function Entry(ia0: nat, ib0: nat, k: nat): (t: Triple)
    requires k < 7
    ensures t.i == k as bv8 && t.i < 7 && t.ia < 16 && t.ib < 16
  {
    Triple(k as bv8, (k + ia0) % 16, (k + ib0) % 16)
  }

  function Table(ia0: nat, ib0: nat): (ts: seq<Triple>)
    ensures |ts| == 7 && forall k :: 0 <= k < 7 ==> ts[k] == Entry(ia0, ib0, k)
  {
    seq(7, k requires 0 <= k < 7 => Entry(ia0, ib0, k))
  }

  /** _XY_ROUNDS: (i, i, i + 3), (i, i + 1, i + 4), (i, i + 8, (i + 11) & 15)
      and (i, (i + 9) & 15, (i + 12) & 15) for i in range(7). */
  const XRounds0: seq<Triple> := Table(0, 3)
  const XRounds1: seq<Triple> := Table(1, 4)
  const YRounds0: seq<Triple> := Table(8, 11)
  const YRounds1: seq<Triple> := Table(9, 12)

  /** Every entry of a table has i < 7 and reads two of the 16 digest bytes. */
  predicate InDigest(ts: seq<Triple>) {
    |ts| == 7 && forall k :: 0 <= k < 7 ==> ts[k].i < 7 && ts[k].ia < 16 && ts[k].ib < 16
  }

  /** The four tables, entry by entry, in the form _XY_ROUNDS writes them, and
      every rval read they drive stays inside the digest. */
  lemma TablesAsWritten()
    ensures forall k :: 0 <= k < 7 ==> XRounds0[k] == Triple(k as bv8, k, k + 3)
    ensures forall k :: 0 <= k < 7 ==> XRounds1[k] == Triple(k as bv8, k + 1, k + 4)
    ensures forall k :: 0 <= k < 7 ==> YRounds0[k] == Triple(k as bv8, k + 8, (k + 11) % 16)
    ensures forall k :: 0 <= k < 7 ==> YRounds1[k] == Triple(k as bv8, (k + 9) % 16, (k + 12) % 16)
    ensures InDigest(XRounds0) && InDigest(XRounds1) && InDigest(YRounds0) && InDigest(YRounds1)
  {
    TableForm(0, 3);
    TableForm(1, 4);
    TableForm(8, 11);
    TableForm(9, 12);
  }

  /** Entry k of a table is (k, (k + ia0) mod 16, (k + ib0) mod 16). */
  lemma TableForm(ia0: nat, ib0: nat)
    ensures forall k :: 0 <= k < 7 ==> Table(ia0, ib0)[k] == Triple(k as bv8, (k + ia0) % 16, (k + ib0) % 16)
    ensures InDigest(Table(ia0, ib0))
  {
  }

  /** z & 15, as a position in the digest. */
  function Low4(z: bv8): (n: nat)
    ensures n < 16
  {
    (z & 15) as int
  }

  /** rbitval(v) = (rval((v >> 3) & 15) >> (v & 7)) & 1, inlined in the source. */
  function RBit(d: Digest, v: bv8): (r: bv8)
    ensures r <= 1
  {
    (d[Low4(v >> 3)] >> (v & 7)) & 1
  }

  /** rbitval(v) reads bit v mod 128 of the digest. */
  lemma RBitIsBit(d: Digest, v: bv8)
    ensures RBit(d, v) == Bit(d, v & 127)
  {
    assert (v >> 3) & 15 == (v & 127) >> 3;
    assert (v & 127) & 7 == v & 7;
  }

  /** The bit one table entry contributes: for a, b the bytes it names,
      v = rval((a >> (b % 5)) & 15) >> ((b >> (a & 7)) & 1), then rbitval(v). */
  function TripleBit(d: Digest, t: Triple): (b: bv8)
    requires t.ia < 16 && t.ib < 16
    ensures b <= 1
  {
    var a, b := d[t.ia], d[t.ib];
    RBit(d, d[Low4(a >> (b % 5))] >> ((b >> (a & 7)) & 1))
  }

  /** x (or y) after the first k entries of the table that starts at s: the
      OR of each entry's bit, shifted to the entry's position. */
  function Accum(d: Digest, s: (nat, nat), k: nat): (x: bv8)
    requires k <= 7
    ensures x < 128
  {
    if k == 0 then 0
    else
      var t := Entry(s.0, s.1, k - 1);
      OrBelow128(Accum(d, s, k - 1), TripleBit(d, t), t.i);
      Accum(d, s, k - 1) | (TripleBit(d, t) << t.i)
  }

  lemma OrBelow128(x: bv8, bit: bv8, i: bv8)
    requires x < 128 && bit <= 1 && i < 7
    ensures x | (bit << i) < 128
  {
  }

  /** Setting bit m of a value below 2**m keeps the lower bits and makes
      bit m the new bit. */
  lemma SetBit(x: bv8, bit: bv8, m: bv8, k: bv8, want: bv8)
    requires m < 7 && k <= m && bit <= 1 && x < (1 as bv8 << m)
    requires k < m ==> (x >> k) & 1 == want
    requires k == m ==> bit == want
    ensures ((x | (bit << m)) >> k) & 1 == want
  {
  }

  lemma SetBitBound(x: bv8, bit: bv8, m: bv8)
    requires m < 7 && bit <= 1 && x < (1 as bv8 << m)
    ensures x | (bit << m) < (1 as bv8 << (m + 1))
  {
  }

  /** Only the low k bits are set after k entries. */
  lemma {:induction false} AccumBound(d: Digest, s: (nat, nat), k: nat)
    requires k <= 7
    ensures Accum(d, s, k) < (1 as bv8 << (k as bv8))
  {
    if k > 0 {
      AccumBound(d, s, k - 1);
      SetBitBound(Accum(d, s, k - 1), TripleBit(d, Entry(s.0, s.1, k - 1)), (k - 1) as bv8);
      assert ((k - 1) as bv8) + 1 == k as bv8;
    }
  }

  /** Bit j of x after k entries is the j-th entry's bit. */
  lemma {:induction false} AccumBit(d: Digest, s: (nat, nat), k: nat, j: nat)
    requires j < k <= 7
    ensures (Accum(d, s, k) >> (j as bv8)) & 1 == TripleBit(d, Entry(s.0, s.1, j))
  {
    var x, bit := Accum(d, s, k - 1), TripleBit(d, Entry(s.0, s.1, k - 1));
    AccumBound(d, s, k - 1);
    if j < k - 1 {
      AccumBit(d, s, k - 1, j);
      Bv8Below(j, k - 1);
      SetBit(x, bit, (k - 1) as bv8, j as bv8, TripleBit(d, Entry(s.0, s.1, j)));
    } else {
      SetBit(x, bit, (k - 1) as bv8, (k - 1) as bv8, bit);
    }
  }

  lemma Bv8Below(j: nat, k: nat)
    requires j < k < 8
    ensures j as bv8 < k as bv8
  {
  }

  /** Bit j of x is the bit that the table's j-th entry produces. */
  lemma AccumBits(d: Digest, s: (nat, nat))
    ensures forall j :: 0 <= j < 7 ==> (Accum(d, s, 7) >> (j as bv8)) & 1 == TripleBit(d, Entry(s.0, s.1, j))
  {
    forall j | 0 <= j < 7 {
      AccumBit(d, s, 7, j);
    }
  }

  /** (rval((n >> 3) & 15) >> (n & 7)) & 1 for a round number n. */
  function RoundBit(d: Digest, n: nat): (b: bv8)
    ensures b <= 1
  {
    (d[(n / 8) % 16] >> (n % 8)) & 1
  }

  /** Where the table the x loop walks starts: XRounds1 when the round's bit
      is set, XRounds0 otherwise. */
  function XStart(d: Digest, round: nat): (nat, nat) {
    if RoundBit(d, round) == 1 then (1, 4) else (0, 3)
  }

  /** Where the table the y loop walks starts, chosen by the bit of byte
      ((round + 64) >> 3) & 15 at position round & 7. */
  function YStart(d: Digest, round: nat): (nat, nat) {
    if (d[((round + 64) / 8) % 16] >> (round % 8)) & 1 == 1 then (9, 12) else (8, 11)
  }

  /** Bit n mod 128 of the digest is bit n & 7 of byte (n >> 3) & 15. */
  lemma BitPosition(n: nat)
    ensures (n % 128) / 8 == (n / 8) % 16 && (n % 128) % 8 == n % 8
  {
    var q, r := n / 128, n % 128;
    assert n == 128 * q + r;
    assert n == 8 * (16 * q + r / 8) + r % 8;
    assert n / 8 == 16 * q + r / 8;
    assert n % 8 == r % 8;
  }

  /** The round bits repeat every 128 rounds, and y's is x's bit 64 rounds on. */
  lemma SelectBits(d: Digest, round: nat)
    ensures RoundBit(d, round) == RoundBit(d, round % 128)
    ensures YStart(d, round) == if RoundBit(d, round + 64) == 1 then (9, 12) else (8, 11)
  {
    BitPosition(round);
    assert (round % 128) / 8 % 16 == (round % 128) / 8;
    assert (round + 64) % 8 == round % 8;
  }

  /** x >> 3 for x < 128, as a position in the digest. */
  function High(x: bv8): (n: nat)
    requires x < 128
    ensures n < 16
  {
    (x >> 3) as int
  }

  /** Bit k of the digest, for k < 128: bit k & 7 of byte k >> 3. */
  function Bit(d: Digest, k: bv8): (b: bv8)
    requires k < 128
    ensures b <= 1
  {
    (d[High(k)] >> (k & 7)) & 1
  }

  /** ((rval(x >> 3) >> (x & 7)) ^ (rval(y >> 3) >> (y & 7))) & 1 */
  function Flip(d: Digest, x: bv8, y: bv8): (c: bv8)
    requires x < 128 && y < 128
    ensures c <= 1
  {
    ((d[High(x)] >> (x & 7)) ^ (d[High(y)] >> (y & 7))) & 1
  }

  /** The coin is bit x of the digest XOR bit y. */
  lemma FlipIsXor(d: Digest, x: bv8, y: bv8)
    requires x < 128 && y < 128
    ensures Flip(d, x, y) == Bit(d, x) ^ Bit(d, y)
  {
  }

  /** The coin of a round, from the x and y its tables give. */
  function Coin(d: Digest, round: nat): (c: bv8)
    ensures c <= 1
  {
    Flip(d, Accum(d, XStart(d, round), 7), Accum(d, YStart(d, round), 7))
  }

  /** unicode(round).encode("ascii") */
  function RoundText(round: nat): (b: seq<Byte>)
    ensures |b| == |NatStr(round)|
  {
    DigitsAreAscii(NatStr(round));
    Ascii(NatStr(round))
  }

  /** What a round hashes: the previous digest, then the Hamlet passage
      exactly when the coin is 1, then the round number in decimal. */
  function RoundInput(hamlet: seq<Byte>, d: Digest, round: nat, coin: bv8): seq<Byte> {
    d + (if coin == 1 then hamlet else []) + RoundText(round)
  }

  /** The digest after n rounds, starting from d0. */
  function SunChain(md5: Md5, hamlet: seq<Byte>, d0: Digest, n: nat): Digest
    decreases n, 0
  {
    if n == 0 then d0
    else md5(RoundInput(hamlet, SunChain(md5, hamlet, d0, n - 1), n - 1, CoinAt(md5, hamlet, d0, n - 1)))
  }

  /** The coin of round n, flipped from the digest after n rounds. */
  function CoinAt(md5: Md5, hamlet: seq<Byte>, d0: Digest, n: nat): (c: bv8)
    ensures c <= 1
    decreases n, 1
  {
    Coin(SunChain(md5, hamlet, d0, n), n)
  }

  /** real_rounds = 4096 + rounds, negative rounds counting as 0. */
  function RealRounds(rounds: int): nat {
    4096 + (if rounds <= 0 then 0 else rounds)
  }

  /** For rounds in [0, 4294963199] the round count lies in [4096, 2**32 - 1]. */
  lemma RealRoundsBounds(rounds: int)
    requires MinRounds <= rounds <= MaxRounds
    ensures RealRounds(rounds) == 4096 + rounds
    ensures 4096 <= RealRounds(rounds) <= 0xFFFF_FFFF
  {
  }

  /** _chk_offsets: the order in which the final digest's bytes are handed to
      the hash64 encoder. */
  const ChkOffsets: seq<nat> := [12, 6, 0, 13, 7, 1, 14, 8, 2, 15, 9, 3, 5, 10, 4, 11]

  /** _chk_offsets is a permutation of 0..15. */
  lemma OffsetsPermutation()
    ensures |ChkOffsets| == 16
    ensures forall k :: 0 <= k < 16 ==> ChkOffsets[k] < 16
    ensures forall j, k :: 0 <= j < k < 16 ==> ChkOffsets[j] != ChkOffsets[k]
    ensures forall v :: 0 <= v < 16 ==> v in ChkOffsets
  {
    assert forall v :: 0 <= v < 16 ==> v in ChkOffsets by {
      forall v | 0 <= v < 16
        ensures v in ChkOffsets
      {
        var k := OffsetOf(v);
      }
    }
  }

  /** Where each digest byte goes: the inverse of _chk_offsets. */
  function OffsetOf(v: nat): (k: nat)
    requires v < 16
    ensures k < 16 && ChkOffsets[k] == v
  {
    [2, 5, 8, 11, 14, 12, 1, 4, 7, 10, 13, 15, 0, 3, 6, 9][v]
  }

  /** The digest bytes in _chk_offsets order, as encode_transposed_bytes
      reads them. */
  function Transpose(d: Digest): (t: seq<Byte>)
    ensures |t| == 16
  {
    seq(16, k requires 0 <= k < 16 => d[ChkOffsets[k]])
  }

  /** The transposition loses nothing: every byte of the digest lands at
      OffsetOf of its position. */
  lemma TransposeInverse(d: Digest)
    ensures forall v :: 0 <= v < 16 ==> Transpose(d)[OffsetOf(v)] == d[v]
  {
  }

  lemma TransposeInjective(d1: Digest, d2: Digest)
    requires Transpose(d1) == Transpose(d2)
    ensures d1 == d2
  {
    TransposeInverse(d1);
    TransposeInverse(d2);
    assert forall v :: 0 <= v < 16 ==> d1[v] == Transpose(d1)[OffsetOf(v)];
  }

  /** One x or y value, built bit by bit as the inner `for i, ia, ib in ...` loops do. */
  method BuildBits(d: Digest, ts: seq<Triple>, ghost s: (nat, nat)) returns (x: bv8)
    requires ts == Table(s.0, s.1)
    ensures x == Accum(d, s, 7)
  {
    x := 0;
    for k := 0 to |ts|
      invariant x == Accum(d, s, k)
    {
      var t := ts[k];
      x := x | (TripleBit(d, t) << t.i);
    }
  }

  /** raw_sun_md5_crypt: md5(secret + salt), then 4096 + max(rounds, 0)
      rounds, returning the final digest's bytes in _chk_offsets order (the
      hash64 encoding of those bytes is not part of this model). */
  method RawSunMd5Crypt(secret: seq<Byte>, rounds: int, salt: seq<Byte>, md5: Md5, hamlet: seq<Byte>)
    returns (transposed: seq<Byte>)
    ensures transposed == Transpose(SunChain(md5, hamlet, md5(secret + salt), RealRounds(rounds)))
  {
    var r := rounds;
    if r <= 0 {
      r := 0;
    }
    var realRounds := 4096 + r;
    assert realRounds == RealRounds(rounds);
    var result := RunRounds(md5, hamlet, md5(secret + salt), realRounds);
    transposed := Transpose(result);
  }

  /** The `while round < real_rounds` loop: the digest after realRounds rounds. */
  method RunRounds(md5: Md5, hamlet: seq<Byte>, d0: Digest, realRounds: nat) returns (result: Digest)
    ensures result == SunChain(md5, hamlet, d0, realRounds)
  {
    result := d0;
    var round := 0;
    while round < realRounds
      invariant 0 <= round <= realRounds
      invariant result == SunChain(md5, hamlet, d0, round)
    {
      result := Round(md5, hamlet, result, round, d0);
      round := round + 1;
    }
  }

  /** One pass of the round loop: the coin from the previous digest, then
      md5 of the digest, the Hamlet passage when the coin is 1, and the round
      number in decimal. Applied to the digest after `round` rounds, it gives
      the digest after round + 1. */
  method Round(md5: Md5, hamlet: seq<Byte>, result: Digest, round: nat, ghost d0: Digest) returns (next: Digest)
    requires result == SunChain(md5, hamlet, d0, round)
    ensures next == SunChain(md5, hamlet, d0, round + 1)
  {
    var coin := FlipCoin(result, round);
    var data := result;
    if coin == 1 {
      data := data + hamlet;
    }
    assert data == result + (if coin == 1 then hamlet else []);
    data := data + RoundText(round);
    next := md5(data);
  }

  /** The first half of a round: x and y built by walking the tables the
      round's bits select, and the coin flipped from them. */
  method FlipCoin(result: Digest, round: nat) returns (coin: bv8)
    ensures coin == Coin(result, round)
  {
    var xrounds := if (result[(round / 8) % 16] >> (round % 8)) & 1 == 1 then XRounds1 else XRounds0;
    var x := BuildBits(result, xrounds, XStart(result, round));
    var yrounds := if (result[((round + 64) / 8) % 16] >> (round % 8)) & 1 == 1 then YRounds1 else YRounds0;
    var y := BuildBits(result, yrounds, YStart(result, round));
    coin := Flip(result, x, y);
  }

  /** The configuration string, without checksum, as ASCII bytes: the salt
      argument of the round function. */
  function ConfigBytes(r: Record): (b: seq<Byte>)
    requires Valid(r)
    ensures |b| == |ToString(r, false)|
  {
    RenderedAscii(r);
    Ascii(ToString(r, false))
  }

  lemma RenderedAscii(r: Record)
    requires Valid(r)
    ensures IsAscii(ToString(r, false))
  {
    H64Text(r.salt);
    if r.rounds > 0 {
      DigitsAreAscii(NatStr(r.rounds));
    }
  }

  /** sun_md5_crypt.calc_checksum: the round function over the secret and the
      record's configuration string. */
  method CalcChecksum(r: Record, secret: seq<Byte>, md5: Md5, hamlet: seq<Byte>) returns (transposed: seq<Byte>)
    requires Valid(r)
    ensures transposed == Transpose(SunChain(md5, hamlet, md5(secret + ConfigBytes(r)), 4096 + r.rounds))
  {
    var config := ConfigBytes(r);
    RealRoundsBounds(r.rounds);
    transposed := RawSunMd5Crypt(secret, r.rounds, config, md5, hamlet);
  }
}
