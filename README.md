# passlib's Sun-MD5-Crypt, bcrypt and PHPass handlers in Dafny

This project models three password-hash handlers of passlib:

- **sun_md5_crypt**, Solaris's MD5-crypt. `from_string` tells apart four historical layouts:
  - a bare salt;
  - a `$`-terminated config;
  - a `$$`-hash;
  - a `$`-hash.

  `to_string` writes them back. The round function `raw_sun_md5_crypt` walks the precomputed `_XY_ROUNDS` index tables to build two 7-bit values x and y. It flips a one-bit coin from them, then chains `4096 + rounds` MD5 digests, feeding the Hamlet passage in whenever the coin is 1. `_chk_offsets` reorders the final digest.
- **bcrypt**, the `<ident><%02d rounds>$<22 salt><31 checksum>` format, with:
  - the padding-bit repair of `norm_salt` / `norm_checksum`;
  - the rehash check `_hash_needs_update`;
  - `normhash`;
  - salt generation;
  - backend selection, and cutting the 31-character checksum from an engine's output.
- **phpass**, the `<ident><rounds char><8 salt><checksum>` format and its `2**rounds` MD5 chain.

The files are:

- `wrappers.dfy`: Option / Result.
- `pytext.dfy`: the Python text operations the handlers rely on:
  - `startswith`, `find`, `rfind` and clamped slicing;
  - `int()` on base-10 text;
  - `"%d"` / `"%02d"`.
- `handlers.dfy`: what the shared handler framework contributes:
  - the error outcomes;
  - `H64_CHARS` and `encode_int6` / `decode_int6`;
  - identifier matching and aliases;
  - rounds, salt and checksum validation.
- `bcrypt.dfy`, `phpass.dfy` and `sun_md5_crypt.dfy`: one module per handler.

Parsing and rendering are functions. The sun round loop, its inner x / y loops and the phpass checksum loop are methods with loops. Each is proved equal to a recursive specification function: `SunChain` / `Accum`, and `Chain` respectively.

MD5 is a parameter `md5: seq<bv8> -> Digest`, a function to 16-byte digests. The Hamlet bytes are a parameter too. The random salt source, the host `crypt()` and the external bcrypt engines are also parameters.

## Model

| member | source | states |
|---|---|---|
| PyText.Find | passlib/handlers/sun_md5_crypt.py:251 | `find(c, start)` is -1 exactly when no c occurs from start on; otherwise it is the first such position |
| PyText.RFind | passlib/handlers/sun_md5_crypt.py:275 | `rfind(c, start)` is -1 exactly when no c occurs from start on; otherwise it is the last such position |
| PyText.RFindAt | passlib/handlers/sun_md5_crypt.py:275 | `rfind` returns any position holding c with no c after it |
| PyText.Slice | passlib/handlers/phpass.py:98 | `s[i:j]` is `s[i..j]` in range; a bound past the end is clamped; an empty or reversed range gives "" |
| PyText.Tail | passlib/handlers/bcrypt.py:221 | for n >= 1 (the handlers use 31), `s[-n:]` has length min(n, len s) and is a suffix of s |
| PyText.IndexOf | passlib/handlers/bcrypt.py:172 | `s.index(c)` is the first position holding c |
| PyText.NatStr | passlib/handlers/sun_md5_crypt.py:259 | `unicode(n)` is non-empty decimal digits denoting n, with no leading zero |
| PyText.Ascii | passlib/handlers/sun_md5_crypt.py:334 | `encode("ascii")` keeps the length |
| PyText.ParseIntStr | passlib/handlers/sun_md5_crypt.py:256-259 | `int(unicode(n)) == n` for every integer n |
| PyText.ParsePad2 | passlib/handlers/bcrypt.py:125-126 | for n in [0, 99], `"%02d" % n` is two digits that `int()` reads back as n |
| PyText.SplitOnce | passlib/handlers/bcrypt.py:124 | text with exactly one separator splits into the parts before and after it |
| PyText.StartsWith | passlib/handlers/bcrypt.py:120 | `s.startswith(p)`: p is a prefix of s. What the handlers conclude from it is stated by Handlers.MatchIdent and PyText.SplitPrefix |
| PyText.ParseInt | passlib/handlers/bcrypt.py:125 | `int(s)` on a non-empty run of decimal digits is the number they denote. The contract does not cover whitespace and signs; ParseIntStr and ParsePad2 state the round trips |
| PyText.IntStr | passlib/handlers/sun_md5_crypt.py:259 | `unicode(n)` is non-empty and starts with "-" exactly when n is negative; ParseIntStr states that `int()` reads it back as n |
| PyText.Pad2 | passlib/handlers/bcrypt.py:126 | `"%02d" % n`; ParsePad2 states its width and read-back for n in [0, 99], and Bcrypt.HundredPad shows that 100 gives "100" |
| Handlers.H64Distinct | passlib/handlers/phpass.py:58-62 | H64_CHARS has 64 characters in strictly increasing order and no "$" |
| Handlers.H64Text | passlib/handlers/phpass.py:122 | text over H64_CHARS is ASCII and "$"-free |
| Handlers.H64Bytes | passlib/handlers/phpass.py:122 | the ASCII encoding of a salt keeps its length |
| Handlers.DecodeInt6 | passlib/handlers/phpass.py:101 | `decode_int6` fails exactly on characters outside H64_CHARS; otherwise it gives the character's position |
| Handlers.EncodeInt6 | passlib/handlers/phpass.py:109 | `encode_int6(n)` for n in [0, 63] is a character of H64_CHARS; Int6RoundTrip states that `decode_int6` inverts it |
| Handlers.Int6RoundTrip | passlib/handlers/phpass.py:109 | `decode_int6(encode_int6(n)) == n` on [0, 63] |
| Handlers.MatchIdent | passlib/handlers/phpass.py:92-96 | the identifier search finds nothing exactly when no identifier prefixes the hash; otherwise it finds the first in declared order |
| Handlers.NormIdent | passlib/handlers/phpass.py:72-74 | an alias maps to its identifier; the result is accepted exactly when it is one of the identifiers |
| Handlers.NormRounds | passlib/handlers/phpass.py:64-69 | rounds in bounds pass unchanged; out of bounds is an error exactly when strict, and clamps to the nearer bound otherwise |
| Handlers.CheckSalt | passlib/handlers/phpass.py:60-62 | a salt is accepted exactly when its size is within the bounds and it uses the salt alphabet |
| Handlers.CheckChecksum | passlib/handlers/phpass.py:58 | None passes; a checksum is accepted exactly when it has the fixed size (if any) and uses the alphabet |
| Handlers.Pow2 | passlib/handlers/phpass.py:121 | `1 << n` exceeds n; Phpass.Pow2Monotone states that it grows with n |
| Bcrypt.BCharsDistinct | passlib/handlers/bcrypt.py:37-39 | BCHARS has 64 distinct characters and no "$" |
| Bcrypt.LastAlphabets | passlib/handlers/bcrypt.py:41-44 | the BCHARS character at index i is in BSLAST exactly when 16 divides i, and in BHLAST exactly when 4 divides i |
| Bcrypt.ClearLow | passlib/handlers/bcrypt.py:172 | `index & ~15` (or `& ~3`) is the largest multiple of 16 (or 4) not above index |
| Bcrypt.ClearLastPadding | passlib/handlers/bcrypt.py:171-172 | only the final character may change; the result stays over BCHARS; an already allowed final character leaves the text unchanged |
| Bcrypt.RepairedLast | passlib/handlers/bcrypt.py:171-173 | after the repair the final character is allowed, and its index is the old index with the padding bits cleared; the text changes exactly when the old final character was not allowed |
| Bcrypt.NormSalt | passlib/handlers/bcrypt.py:168-179 | accepted exactly for 22 BCHARS characters; keeps the first 21; ends in BSLAST at the old index rounded down to a multiple of 16; unchanged exactly when already ending in BSLAST |
| Bcrypt.NormChecksum | passlib/handlers/bcrypt.py:181-192 | None stays None; accepted exactly for 31 BCHARS characters; keeps the first 30; ends in BHLAST at the old index rounded down to a multiple of 4; unchanged exactly when already ending in BHLAST |
| Bcrypt.New | passlib/handlers/bcrypt.py:93-106 | accepted exactly when the identifier resolves, rounds lie in [4, 31] (when strict), and salt and checksum are accepted; the record is valid and holds the normalised salt and checksum |
| Bcrypt.FromStringPrefix | passlib/handlers/bcrypt.py:115-123 | only hashes starting "$2$" or "$2a$" are accepted; the identifier is the first of them, in declared order, that matches |
| Bcrypt.FromStringFields | passlib/handlers/bcrypt.py:119-124 | an identifier, "$"-free rounds text, "$" and "$"-free data parse as those fields |
| Bcrypt.IdentSplit | passlib/handlers/bcrypt.py:119-121 | a "$2a$" hash is not taken for "$2$" |
| Bcrypt.FromString | passlib/handlers/bcrypt.py:113-135 | every record `from_string` returns, strict or not, is valid and carries the identifier the hash starts with |
| Bcrypt.ParsedPieces | passlib/handlers/bcrypt.py:119-124 | an accepted hash is an identifier, "$"-free rounds text, "$" and the data the second half parses |
| Bcrypt.ParsedShape | passlib/handlers/bcrypt.py:113-135 | every accepted hash is: identifier, a rounds field `int()` reads (exactly `%02d` when strict), "$", 22 salt characters, then 31 checksum characters or none. Rounds are bounds-checked only when strict and a checksum is present; salt and checksum are as `norm_salt` / `norm_checksum` repair them |
| Bcrypt.FieldsShape | passlib/handlers/bcrypt.py:124-135 | the post-"$" data splits at 22 into salt and checksum, with the rounds, salt and checksum validation described above |
| Bcrypt.ToString | passlib/handlers/bcrypt.py:137-139 | the rendering starts with the identifier; a valid record renders as a 29-character config or a 60-character hash |
| Bcrypt.RoundTrip | passlib/handlers/bcrypt.py:113-139 | `from_string(to_string(r), strict) == r` for every valid record, strict or not |
| Bcrypt.FieldsOf | passlib/handlers/bcrypt.py:125-135 | the fields `to_string` writes for a valid record rebuild that record with no repair |
| Bcrypt.ValidNeedsNoUpdate | passlib/handlers/bcrypt.py:145-151 | no valid record renders to a hash that needs an update |
| Bcrypt.FinalSaltAt28 | passlib/handlers/bcrypt.py:149 | in a rendered "$2a$" hash, character 28 is the final salt character |
| Bcrypt.IdentsExclusive | passlib/handlers/bcrypt.py:95 | no text starts with both "$2$" and "$2a$" |
| Bcrypt.Identify | passlib/handlers/bcrypt.py:156 | `identify` holds exactly for text starting "$2$" or "$2a$" |
| Bcrypt.HashNeedsUpdate | passlib/handlers/bcrypt.py:145-151 | text not starting "$2a$" needs no update; a "$2a$" hash of more than 28 characters needs one exactly when character 28 is outside BSLAST; the IndexError happens exactly for a "$2a$" string of 28 characters or fewer |
| Bcrypt.NormHash | passlib/handlers/bcrypt.py:153-159 | unidentified text passes unchanged. An identified hash is normalised exactly when the lenient parse accepts it, and the output is identified and parses to the same record |
| Bcrypt.NormHashCanonical | passlib/handlers/bcrypt.py:153-159 | `normhash` output never needs an update, and `normhash` is idempotent |
| Bcrypt.NeedsUpdateExactlyWhenRepaired | passlib/handlers/bcrypt.py:146-151 | on a parsed "$2a$" hash, `_hash_needs_update` is true exactly when parsing repaired the final salt character |
| Bcrypt.ThreeDigitRoundsConfig | passlib/handlers/bcrypt.py:125-135 | the strict parse accepts the config "$2a$100$" + 22 salt characters, since "%02d" % 100 is "100", and clamps the rounds to 31 because there is no checksum |
| Bcrypt.ThreeDigitRoundsNeedsUpdate | passlib/handlers/bcrypt.py:145-151 | that config's salt already ends in BSLAST, yet `_hash_needs_update` reports an update, because character 28 is salt character 20 |
| Bcrypt.HundredRead | passlib/handlers/bcrypt.py:125 | `int("100")` is 100 |
| Bcrypt.HundredPad | passlib/handlers/bcrypt.py:126 | `"%02d" % 100` is "100" |
| Bcrypt.GenerateSalt | passlib/handlers/bcrypt.py:161-166 | any size other than None or 22 is an error; otherwise the salt is 21 drawn BCHARS characters, then the BSLAST character the last draw selects, and `norm_salt` leaves it unchanged |
| Bcrypt.FirstAvailable | passlib/handlers/bcrypt.py:197 | finds the first available backend in the declared order, or none exactly when none is available |
| Bcrypt.SelectBackend | passlib/handlers/bcrypt.py:197 | a chosen backend is one of the declared backends and is available |
| Bcrypt.SelectBackendFirst | passlib/handlers/bcrypt.py:197-216 | pybcrypt is chosen when available, else bcryptor, else os_crypt; otherwise no backend |
| Bcrypt.EngineOutput | passlib/handlers/bcrypt.py:218-250 | the engine call of each backend on the secret and the non-native config; CalcChecksum states what is cut from its output |
| Bcrypt.CalcChecksum | passlib/handlers/bcrypt.py:218-250 | the checksum is the last 31 characters (or fewer) of the engine's output; only os_crypt can fail, exactly when the host reports failure |
| Phpass.New | passlib/handlers/phpass.py:55-74 | accepted exactly when the identifier resolves, rounds lie in [7, 30], the salt is 8 characters over H64_CHARS and the checksum uses H64_CHARS; the fields are kept |
| Phpass.FromStringPrefix | passlib/handlers/phpass.py:92-96 | only "$P$" and "$H$" hashes are accepted |
| Phpass.FromString | passlib/handlers/phpass.py:86-105 | every record `from_string` returns is valid, carries the identifier the hash starts with, and has a checksum (possibly empty) |
| Phpass.ToString | passlib/handlers/phpass.py:107-112 | the rendering starts with the identifier, followed by the character `decode_int6` reads as the rounds |
| Phpass.FromStringLayout | passlib/handlers/phpass.py:97-112 | an accepted hash is its identifier, the rounds character, 8 salt characters, and the rest as checksum (possibly empty); the record is valid and renders back to the hash |
| Phpass.RenderParsed | passlib/handlers/phpass.py:98-111 | the fields cut from the text after the identifier render back to that text |
| Phpass.RoundTrip | passlib/handlers/phpass.py:86-112 | `from_string(to_string(r)) == r` for every valid record holding a checksum |
| Phpass.IdentsAndDefaults | passlib/handlers/phpass.py:65-74 | "P" and "H" resolve to "$P$" and "$H$"; the default identifier is accepted; the default rounds 9 lie in [7, 30] |
| Phpass.Chain | passlib/handlers/phpass.py:123-126 | the reference definition of the loop: n steps of md5(result + secret). CalcChecksum is proved equal to it, and ChainSplit states how it composes |
| Phpass.ChainSplit | passlib/handlers/phpass.py:123-126 | m steps of the chain followed by n more are m + n steps |
| Phpass.RealRoundsBounds | passlib/handlers/phpass.py:121 | for rounds in [7, 30], `1 << rounds` lies in [2**7, 2**30] |
| Phpass.CalcChecksum | passlib/handlers/phpass.py:117-127 | the digest is md5(salt + secret) followed by exactly `1 << rounds` steps of md5(result + secret) |
| SunMd5Crypt.New | passlib/handlers/sun_md5_crypt.py:202-214 | accepted exactly when rounds lie in [0, 4294963199] and salt and checksum use H64_CHARS; the fields are kept |
| SunMd5Crypt.Identify | passlib/handlers/sun_md5_crypt.py:231-233 | `identify` is the "$md5$" / "$md5," prefix test; every hash with a "$md5,rounds=" prefix is identified |
| SunMd5Crypt.FromString | passlib/handlers/sun_md5_crypt.py:235-305 | every record `from_string` returns is valid, and a "$md5$" hash gives rounds 0 |
| SunMd5Crypt.Prefix | passlib/handlers/sun_md5_crypt.py:310-313 | the prefix `to_string` writes starts "$md5" and ends in "$" |
| SunMd5Crypt.ToString | passlib/handlers/sun_md5_crypt.py:307-318 | the rendering starts with the prefix of the record's rounds |
| SunMd5Crypt.RoundsField | passlib/handlers/sun_md5_crypt.py:250-266 | a "$md5,rounds=" field is accepted exactly when a "$" ends it, `int()` reads it, it equals `unicode()` of its value, and the value is non-zero |
| SunMd5Crypt.Layout | passlib/handlers/sun_md5_crypt.py:275-305 | a record built from the salt/checksum split keeps the rounds and is valid |
| SunMd5Crypt.FromStringPrefix | passlib/handlers/sun_md5_crypt.py:236-268 | accepted hashes are identified. Anything not starting "$md5$" or "$md5,rounds=" is rejected. "$md5$" gives rounds 0 and "$md5,rounds=" gives positive rounds |
| SunMd5Crypt.RoundsFieldErrors | passlib/handlers/sun_md5_crypt.py:254-265 | an unreadable rounds field, a zero-padded one and an explicit "0" are each rejected with their own error |
| SunMd5Crypt.RoundsPrefix | passlib/handlers/sun_md5_crypt.py:250-254 | the first "$" from position 12 ends the rounds field |
| SunMd5Crypt.PrefixParse | passlib/handlers/sun_md5_crypt.py:247-266 | `from_string` reads the prefix `to_string` writes for any rounds in bounds, and splits the rest from just after it |
| SunMd5Crypt.RoundsFieldOf | passlib/handlers/sun_md5_crypt.py:250-266 | the rounds field `"%d"` writes is read back with its value |
| SunMd5Crypt.LayoutBare | passlib/handlers/sun_md5_crypt.py:275-280 | no "$" after the salt start: bare salt, no checksum |
| SunMd5Crypt.LayoutConfig | passlib/handlers/sun_md5_crypt.py:281-287 | a single trailing "$": salt before it, no checksum, not bare |
| SunMd5Crypt.LayoutDoubleSep | passlib/handlers/sun_md5_crypt.py:288-292 | "$$chk": salt before the pair, checksum after, not bare |
| SunMd5Crypt.LayoutSingleSep | passlib/handlers/sun_md5_crypt.py:293-297 | "$chk" after a non-empty salt: bare salt, checksum after |
| SunMd5Crypt.TextBare | passlib/handlers/sun_md5_crypt.py:307-318 | a bare config renders as prefix + salt |
| SunMd5Crypt.TextConfig | passlib/handlers/sun_md5_crypt.py:307-318 | a "$" config renders as prefix + salt + "$" |
| SunMd5Crypt.TextSingleSep | passlib/handlers/sun_md5_crypt.py:307-318 | a bare-salt hash renders as prefix + salt + "$" + checksum |
| SunMd5Crypt.TextDoubleSep | passlib/handlers/sun_md5_crypt.py:307-318 | a "$$"-hash renders as prefix + salt + "$$" + checksum |
| SunMd5Crypt.NewOf | passlib/handlers/sun_md5_crypt.py:299-305 | the constructor accepts a valid record's fields unchanged |
| SunMd5Crypt.RoundTripBare | passlib/handlers/sun_md5_crypt.py:275-280 | bare-salt configs round-trip |
| SunMd5Crypt.RoundTripConfig | passlib/handlers/sun_md5_crypt.py:281-287 | "$" configs round-trip |
| SunMd5Crypt.ReadSingleSep | passlib/handlers/sun_md5_crypt.py:293-297 | the salt/checksum split of a rendered bare-salt hash gives the record back |
| SunMd5Crypt.ReadDoubleSep | passlib/handlers/sun_md5_crypt.py:288-292 | the salt/checksum split of a rendered "$$"-hash gives the record back |
| SunMd5Crypt.RoundTripSingleSep | passlib/handlers/sun_md5_crypt.py:293-297 | bare-salt hashes with a checksum round-trip |
| SunMd5Crypt.RoundTripDoubleSep | passlib/handlers/sun_md5_crypt.py:288-292 | "$$"-hashes round-trip |
| SunMd5Crypt.RoundTrip | passlib/handlers/sun_md5_crypt.py:235-318 | `from_string(to_string(r)) == r` in all four layouts, for every valid record whose checksum, if any, is non-empty and, in the bare layout, follows a non-empty salt |
| SunMd5Crypt.SaltStart | passlib/handlers/sun_md5_crypt.py:247-266 | in an accepted hash the rounds' prefix ends just before the salt start |
| SunMd5Crypt.RoundsSaltStart | passlib/handlers/sun_md5_crypt.py:250-266 | the same for "$md5,rounds=" hashes: the salt starts just after the field's "$" |
| SunMd5Crypt.FieldPrefix | passlib/handlers/sun_md5_crypt.py:250-259 | the text up to the "$" ending a rounds field that equals `unicode(n)` is the prefix `to_string` writes for n |
| SunMd5Crypt.ParsedRenderable | passlib/handlers/sun_md5_crypt.py:235-305 | every parsed record is one `to_string` writes faithfully |
| SunMd5Crypt.LayoutRenderable | passlib/handlers/sun_md5_crypt.py:275-305 | a layout whose salt starts just after a "$" gives a record that `to_string` writes faithfully |
| SunMd5Crypt.ParseRender | passlib/handlers/sun_md5_crypt.py:235-318 | `to_string(from_string(h)) == h` for every accepted hash without a checksum after an empty salt |
| SunMd5Crypt.LayoutRender | passlib/handlers/sun_md5_crypt.py:275-318 | the record of each of the four layouts renders back to the hash |
| SunMd5Crypt.CutBare | passlib/handlers/sun_md5_crypt.py:276-280 | with no "$" after the salt start, the record is the bare layout |
| SunMd5Crypt.CutConfig | passlib/handlers/sun_md5_crypt.py:281-287 | with the last "$" at the end, the record is the "$" config |
| SunMd5Crypt.CutDoubleSep | passlib/handlers/sun_md5_crypt.py:288-292 | with "$$" at the last "$", the record is the "$$"-hash |
| SunMd5Crypt.CutSingleSep | passlib/handlers/sun_md5_crypt.py:293-297 | otherwise the record is the bare-salt hash |
| SunMd5Crypt.RenderBare | passlib/handlers/sun_md5_crypt.py:307-313 | prefix + bare salt is the hash |
| SunMd5Crypt.RenderConfig | passlib/handlers/sun_md5_crypt.py:307-313 | prefix + salt + "$" is the hash |
| SunMd5Crypt.RenderSingleSep | passlib/handlers/sun_md5_crypt.py:307-318 | prefix + salt + "$" + checksum is the hash |
| SunMd5Crypt.RenderDoubleSep | passlib/handlers/sun_md5_crypt.py:307-318 | prefix + non-empty salt + "$$" + checksum is the hash |
| SunMd5Crypt.EmptySaltChecksum | passlib/handlers/sun_md5_crypt.py:288-292 | in "$md5$$abc" the "$" that ends the prefix is read as the first of a "$$", giving an empty salt with bare_salt False, which renders as "$md5$$$abc" |
| SunMd5Crypt.BareEmptySaltLost | passlib/handlers/sun_md5_crypt.py:293-297 | a bare empty salt with a checksum renders as "$md5$$abc", which does not parse back to it |
| SunMd5Crypt.TrailingDoubleSep | passlib/handlers/sun_md5_crypt.py:281-283 | `from_string` rejects a trailing "$$" after a non-empty salt, after the prefix of any rounds in bounds |
| SunMd5Crypt.ConfigSeparator | passlib/handlers/sun_md5_crypt.py:334 | for a non-empty salt, the config string ends in "$" exactly when the salt is not bare |
| SunMd5Crypt.Entry | passlib/handlers/sun_md5_crypt.py:72-79 | each table entry has i < 7 and reads two of the 16 digest bytes |
| SunMd5Crypt.Table | passlib/handlers/sun_md5_crypt.py:72-79 | a table has 7 entries, entry k advancing both byte positions by k modulo 16 |
| SunMd5Crypt.TablesAsWritten | passlib/handlers/sun_md5_crypt.py:74-79 | the four tables are `(i, i, i+3)`, `(i, i+1, i+4)`, `(i, i+8, (i+11)&15)` and `(i, (i+9)&15, (i+12)&15)`, and every read they drive lies inside the digest |
| SunMd5Crypt.TableForm | passlib/handlers/sun_md5_crypt.py:72-79 | entry k of a table is (k, (k + a) mod 16, (k + b) mod 16), and every read it drives lies inside the digest |
| SunMd5Crypt.Low4 | passlib/handlers/sun_md5_crypt.py:124 | `z & 15` is a digest index |
| SunMd5Crypt.RBit | passlib/handlers/sun_md5_crypt.py:101-102 | `rbitval` is a single bit |
| SunMd5Crypt.RBitIsBit | passlib/handlers/sun_md5_crypt.py:101-102 | `rbitval(v)` is bit v mod 128 of the digest |
| SunMd5Crypt.TripleBit | passlib/handlers/sun_md5_crypt.py:122-125 | each table entry contributes a single bit |
| SunMd5Crypt.Accum | passlib/handlers/sun_md5_crypt.py:119-125 | x (and y) stay below 128 |
| SunMd5Crypt.AccumBound | passlib/handlers/sun_md5_crypt.py:119-125 | after k entries only the low k bits are set |
| SunMd5Crypt.AccumBit | passlib/handlers/sun_md5_crypt.py:119-125 | bit j of x after k > j entries is entry j's bit |
| SunMd5Crypt.AccumBits | passlib/handlers/sun_md5_crypt.py:119-134 | each of the 7 bits of x and y is the bit its table entry produces |
| SunMd5Crypt.RoundBit | passlib/handlers/sun_md5_crypt.py:120 | the table-selecting bit is 0 or 1 |
| SunMd5Crypt.SelectBits | passlib/handlers/sun_md5_crypt.py:120-129 | the table-selecting bit of a round depends only on the round modulo 128; the y tables are chosen by the bit of round + 64 |
| SunMd5Crypt.High | passlib/handlers/sun_md5_crypt.py:137 | `x >> 3` is a digest index for x < 128 |
| SunMd5Crypt.Bit | passlib/handlers/sun_md5_crypt.py:137 | bit k of the digest is 0 or 1 |
| SunMd5Crypt.Flip | passlib/handlers/sun_md5_crypt.py:137 | the coin is 0 or 1 |
| SunMd5Crypt.FlipIsXor | passlib/handlers/sun_md5_crypt.py:136-137 | the coin is bit x of the digest XOR bit y |
| SunMd5Crypt.Coin | passlib/handlers/sun_md5_crypt.py:118-137 | a round's coin is 0 or 1 |
| SunMd5Crypt.CoinAt | passlib/handlers/sun_md5_crypt.py:118-137 | the coin of round n of the chain is 0 or 1 |
| SunMd5Crypt.RoundInput | passlib/handlers/sun_md5_crypt.py:139-144 | the bytes a round hashes: the previous digest, Hamlet when the coin is 1, then the round number's text. Round is proved to hash exactly these |
| SunMd5Crypt.SunChain | passlib/handlers/sun_md5_crypt.py:113-146 | the reference definition of the round loop: digest n + 1 is md5 of RoundInput of digest n. RunRounds is proved equal to it |
| SunMd5Crypt.RoundText | passlib/handlers/sun_md5_crypt.py:143 | `unicode(round).encode("ascii")` keeps the length of the decimal text |
| SunMd5Crypt.RealRounds | passlib/handlers/sun_md5_crypt.py:89-91 | `real_rounds`: 4096 plus the rounds, with rounds at or below 0 counting as 0. RealRoundsBounds states its range |
| SunMd5Crypt.RealRoundsBounds | passlib/handlers/sun_md5_crypt.py:89-92 | for rounds in [0, 4294963199], `real_rounds` is 4096 + rounds and lies in [4096, 2**32 - 1] |
| SunMd5Crypt.OffsetsPermutation | passlib/handlers/sun_md5_crypt.py:151-159 | `_chk_offsets` has 16 distinct entries below 16 and holds every value 0..15 |
| SunMd5Crypt.OffsetOf | passlib/handlers/sun_md5_crypt.py:151-159 | the inverse of `_chk_offsets` |
| SunMd5Crypt.Transpose | passlib/handlers/sun_md5_crypt.py:149 | the reordered digest has 16 bytes |
| SunMd5Crypt.TransposeInverse | passlib/handlers/sun_md5_crypt.py:149-159 | every digest byte appears in the reordered output, at the position of its offset |
| SunMd5Crypt.TransposeInjective | passlib/handlers/sun_md5_crypt.py:149-159 | distinct digests give distinct reorderings |
| SunMd5Crypt.BuildBits | passlib/handlers/sun_md5_crypt.py:119-134 | the inner loop's x (or y) equals the OR-of-bits value Accum |
| SunMd5Crypt.FlipCoin | passlib/handlers/sun_md5_crypt.py:118-137 | the coin the loop body computes is the round's Coin |
| SunMd5Crypt.Round | passlib/handlers/sun_md5_crypt.py:139-146 | the round hashes the previous digest, then Hamlet exactly when the coin is 1, then the round number, giving the next digest of the chain |
| SunMd5Crypt.RunRounds | passlib/handlers/sun_md5_crypt.py:113-146 | the loop runs exactly `real_rounds` rounds and yields the chain's digest after that many |
| SunMd5Crypt.RawSunMd5Crypt | passlib/handlers/sun_md5_crypt.py:82-149 | the output is the reordered digest after `4096 + max(rounds, 0)` rounds, starting from md5(secret + salt) |
| SunMd5Crypt.ConfigBytes | passlib/handlers/sun_md5_crypt.py:334 | the config's ASCII bytes have the config's length |
| SunMd5Crypt.RenderedAscii | passlib/handlers/sun_md5_crypt.py:334 | the config string of a valid record is ASCII |
| SunMd5Crypt.CalcChecksum | passlib/handlers/sun_md5_crypt.py:328-335 | the checksum runs `4096 + rounds` rounds over the secret, with the config string without checksum as salt |

## Left out

- MD5 is a parameter: no known-answer vector can be checked.
- The Hamlet passage's bytes are a parameter too.
- The hash64 encoding of final digests is not modelled: `h64.encode_bytes` and `h64.encode_transposed_bytes`. Each checksum computation returns the 16 digest bytes, reordered by `_chk_offsets` for sun-md5-crypt, that would be handed to the encoder.
- `passlib.utils.handlers` and `passlib.utils.h64` are not part of this model. Only what the three files' class attributes state is modelled: alphabets, sizes, bounds, identifiers and aliases. Also left out, because their code is not available:
  - salt truncation in non-strict mode (no parser produces an oversized salt);
  - the "no salt / no rounds given" defaults;
  - backend caching.
- `H64_CHARS` is fixed as "./0-9A-Za-z" in that order. The handlers' docstrings give only the character set; the order is assumed, and `encode_int6` / `decode_int6` depend on it.
- Python 2's `int()` on unicode text is modelled for ASCII text only. Modelled: surrounding whitespace (space, \t to \r, and \x1c to \x1f), an optional sign followed by optional whitespace, then decimal digits. Left out: non-ASCII Unicode digits and spaces, and text holding NUL.
- Bytes handling is not modelled: text is one character-sequence type. `to_hash_str` and the `.decode("ascii")` of byte hashes are left out, and so is the UTF-8 encoding of unicode secrets; secrets are taken as bytes.
- `warn(...)` calls and logging are left out. They have no effect on results.
- The `strict` argument that phpass and sun-md5-crypt pass to their constructors changes nothing here. Both schemes set `_strict_rounds_bounds`, and their parsers never produce an oversized salt.
- The backend probes are left out, because they are foreign calls: `pybcrypt_hashpw`, `bcryptor_engine` and the known-answer `safe_os_crypt` test at bcrypt.py:208-212. Availability is a parameter, and the engines and the host `crypt()` are opaque functions.
- Random salt generation is not modelled: `rng` and `getrandstr`. The drawn positions are parameters.
- The `TypeError` for a None secret in sun-md5-crypt's `calc_checksum` is left out: secrets are always byte sequences.
- Bcrypt.NeedsUpdateExactlyWhenRepaired: stated only for hashes whose rounds field is two characters long. Every strict parse with a checksum has one, since its rounds are checked against [4, 31]. A strict config with rounds of 100 or more, or -10 or less, passes the `"%02d"` test with a wider field and is clamped. Its character 28 is then not the final salt character, and ThreeDigitRoundsConfig and ThreeDigitRoundsNeedsUpdate exhibit one that is reported as needing an update although its salt needs no repair. Lenient parses accept rounds fields of any width.
- SunMd5Crypt.ParseRender: excludes accepted hashes with a checksum after an empty salt. In "$md5$$abc" the "$" ending the prefix is read as the first of a "$$" separator, so `from_string` records an empty salt with bare_salt False, and `to_string` writes that as "$md5$$$abc" (EmptySaltChecksum). The bare-salt record that would write "$md5$$abc" does not parse back either (BareEmptySaltLost).
- SunMd5Crypt.RoundTrip: requires a non-empty checksum, since `to_string` drops an empty one. In the bare layout with a checksum it also requires a non-empty salt.
- Phpass.RoundTrip: requires a checksum (possibly empty). `from_string` always passes one, so a record without a checksum renders as text that parses back with an empty checksum.
- SunMd5Crypt.Layout: its own contract says only that the record is valid with the given rounds. The four layouts are stated by LayoutBare, LayoutConfig, LayoutSingleSep, LayoutDoubleSep and the Cut lemmas.
