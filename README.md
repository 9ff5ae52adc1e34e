# Secure Authenticator App: verified model of the OTP engine, URL classifier and 2FA user table

This Dafny project models three parts of the Secure Authenticator App.

- **The authenticator page** (`src/pages/Authenticator.jsx`) has its own one-time-password engine:
  - a base32 decoder with the RFC 4648 section 6 alphabet;
  - SHA-1 (FIPS 180-4, sections 5.1.1 and 6.1);
  - HMAC-SHA1 (RFC 2104, section 2);
  - the six-digit TOTP code (RFC 6238, section 4, with the dynamic truncation of section 5.3 of RFC 4226).

  The same page parses `otpauth://` URIs, has a regular-expression fallback for them, and keeps the account list (prepend, delete by id, the 30-second countdown).
- **The website checker** (`src/pages/Websitecheck.jsx`) has three parts:
  - the `analyzeURL` rule chain over protocol and host name;
  - the escalation of the deep scan's risk level from the page's pattern counts;
  - the recommendations of the deep and quick scans.
- **The backend** (`backend/server.js`) has these parts:
  - the in-memory `users` table and its changes in `/api/setup` and `/api/verify`;
  - the `/api/validate-secret` predicate;
  - the `timeRemaining` count.

Files and modules:

- `common.dfy` (`Common`): JavaScript string and number helpers. Covers `toUpperCase`/`toLowerCase` on ASCII, `padStart`, `toString(radix)`, `split`, `trim`, and digit strings and their values.
- `base32.dfy` (`Base32`): `base32Decode`. A specification by bit strings, the imperative decoder proved equal to it, and its arithmetic meaning.
- `sha1.dfy` (`Sha1`): `sha1` and `rol`. A FIPS 180-4 specification (`Padded`, `Schedule`, `Compress`, `Hash`, `Sha1Digest`). Methods that follow the program's loops over arrays are proved equal to it.
- `hmac.dfy` (`Hmac`): `hmacSHA1` and `concat`.
- `totp.dfy` (`Totp`): `hexToBytes` and `generateTOTP`.
- `otpauth.dfy` (`OtpAuth`): `parseOTPAuthURI` and `extractSecretFromURI`.
- `accounts.dfy` (`Accounts`): `addAccount`, `handleQRScanned`, `deleteAccount` and the countdown timer.
- `urlrisk.dfy` (`UrlRisk`): `analyzeURL`, `deepScanWebsite` and the quick scan.
- `server.dfy` (`Server`): the user table as a class `UserStore` whose methods update `users`, plus `validate-secret` and `timeRemaining`.

How the source maps onto Dafny types:

- Bytes are `bv8` and SHA-1 words are `bv32`, because JavaScript's `|0`, `<<` and `>>>` work modulo 2^32.
- Threat messages are a datatype `Threat`. `Text` maps each one to the exact string the page shows.
- Risk levels are a datatype `Risk`. `RiskName` maps each one to the string the page compares.

Inputs that come from outside the program become parameters:

- the WHATWG URL parser and `decodeURIComponent`: `parse`, `url`, `decode`;
- `fetch` and the regular-expression counts over the page: `Fetch` and `PageScan`;
- the clock: `now`, `t`, `nowMs`;
- speakeasy's secret generator and token check: `generate`, `check`;
- `QRCode.toDataURL`: `toDataUrl`.

## Model

| member | source | states |
|---|---|---|
| Common.Upper | src/pages/Authenticator.jsx:66 | `toUpperCase` keeps the length and upper-cases every character (ASCII letters) |
| Common.Lower | src/pages/Websitecheck.jsx:221 | `toLowerCase` keeps the length and lower-cases every character (ASCII letters) |
| Common.PadStart | src/pages/Authenticator.jsx:466 | `padStart(n, c)`: length max(n, \|s\|), s is the suffix, and every added character is c |
| Common.NumberToString | src/pages/Authenticator.jsx:466 | `toString(radix)` is a non-empty string of digits of that radix |
| Common.NumberToStringValue | src/pages/Authenticator.jsx:466 | the digits of `n.toString(radix)` read back as n |
| Common.NumberToStringLength | src/pages/Authenticator.jsx:466 | a number below radix^k has at most k digits, so `padStart` only adds zeros |
| Common.LeadingZerosValue | src/pages/Authenticator.jsx:466 | the leading zeros that `padStart` adds do not change the value |
| Common.Split | src/pages/Authenticator.jsx:424 | `split` always yields at least one piece |
| Common.SplitJoin | src/pages/Authenticator.jsx:424 | joining the pieces of `split` with the separator gives the string back |
| Common.SplitPieces | src/pages/Authenticator.jsx:424 | there is one piece more than separators, and no piece contains the separator |
| Common.TrimStart | src/pages/Websitecheck.jsx:215 | leading JavaScript white space is removed, and nothing else |
| Common.TrimEnd | src/pages/Websitecheck.jsx:215 | trailing JavaScript white space is removed, and nothing else |
| Base32.DigitValue | src/pages/Authenticator.jsx:481-484 | `alphabet.indexOf(c.toUpperCase())` is -1 or a position in the 32-letter alphabet |
| Base32.AlphabetDecodes | src/pages/Authenticator.jsx:481-484 | the alphabet has 32 letters, and each one decodes to its own position |
| Base32.DigitValueUpper | src/pages/Authenticator.jsx:484 | the lookup ignores case: upper-casing a character first does not change its value |
| Base32.Chunk | src/pages/Authenticator.jsx:484-486 | a character contributes a binary string |
| Base32.ChunkOfDigit | src/pages/Authenticator.jsx:486 | an alphabet letter contributes exactly 5 bits, and their binary value is its position |
| Base32.ChunkLength | src/pages/Authenticator.jsx:484-486 | 5 bits for an alphabet letter, none for any other character |
| Base32.BitString | src/pages/Authenticator.jsx:482-487 | the bit string is binary and has 5 bits per alphabet letter of the input |
| Base32.CollectBits | src/pages/Authenticator.jsx:482-487 | the first loop builds exactly that bit string |
| Base32.ByteOfBits | src/pages/Authenticator.jsx:490 | `parseInt(bits, 2)` of at most 8 bits is the byte with that binary value |
| Base32.CutBytes | src/pages/Authenticator.jsx:488-491 | the second loop cuts the bits into whole bytes |
| Base32.Base32Decode | src/pages/Authenticator.jsx:480-493 | the decoder's output is the specification's `Decoded(s)` |
| Base32.DecodedLength | src/pages/Authenticator.jsx:480-493 | with k alphabet letters in the input the output has exactly floor(5k/8) bytes |
| Base32.DecodedShorter | src/pages/Authenticator.jsx:480-493 | the output is never longer than the input |
| Base32.SkipsNonDigit | src/pages/Authenticator.jsx:484 | removing a character outside the alphabet, anywhere, does not change the output |
| Base32.DecodedUpper | src/pages/Authenticator.jsx:484 | upper-casing the input (ASCII letters, as modelled by `Upper`) does not change the output |
| Base32.BitStringAppend | src/pages/Authenticator.jsx:482-487 | the bits of a concatenation are the concatenation of the bits |
| Base32.BitStringNumber | src/pages/Authenticator.jsx:486 | the bit string's value is the 5-bit letter values concatenated, most significant bit first |
| Base32.ByteAt | src/pages/Authenticator.jsx:488-491 | byte i is the value of bits [8i, 8i+8) |
| Base32.BitsToBytesNumber | src/pages/Authenticator.jsx:488-491 | the first j bytes, read big-endian, are the value of the first 8j bits |
| Base32.CutBytesNumber | src/pages/Authenticator.jsx:488-491 | the bits are the bytes followed by fewer than 8 left-over bits, which are dropped |
| Base32.DecodedNumber | src/pages/Authenticator.jsx:480-493 | the input's 5-bit value is the output, big-endian, followed by the 5k mod 8 dropped bits |
| Sha1.RolRotates | src/pages/Authenticator.jsx:554-556 | `rol(n, b)` is the 32-bit left rotation for b = 1, 5 and 30, the amounts the program uses |
| Sha1.Be32 | src/pages/Authenticator.jsx:545-551 | a word is serialised as 4 bytes |
| Sha1.WordOfBe32 | src/pages/Authenticator.jsx:545-551 | reading back the 4 big-endian bytes of a word gives the word |
| Sha1.Be32OfWord | src/pages/Authenticator.jsx:518 | serialising a word built from 4 bytes gives those bytes |
| Sha1.PaddedLength | src/pages/Authenticator.jsx:521-523 | the padded message is a whole number of 64-byte blocks |
| Sha1.PaddedMinimal | src/pages/Authenticator.jsx:521-523 | the message is a prefix, 0x80 follows it, and the padding is shorter than one extra block |
| Sha1.PaddedAt | src/pages/Authenticator.jsx:521-523 | each padded byte is a message byte, the 0x80 marker, a zero, or a byte of the 64-bit bit length |
| Sha1.WordsOf | src/pages/Authenticator.jsx:518 | 4 bytes make one word |
| Sha1.PaddedWords | src/pages/Authenticator.jsx:516-523 | the `words` array has 16 words per block |
| Sha1.PaddedWordsOfPadded | src/pages/Authenticator.jsx:516-523 | the `words` array is the padded message read as big-endian words |
| Sha1.PaddedWordIs | src/pages/Authenticator.jsx:516-523 | word q is the big-endian word of padded bytes 4q .. 4q+3 |
| Sha1.LengthWord | src/pages/Authenticator.jsx:523 | the last word of the last block is the message's bit length |
| Sha1.WholeBlocks | src/pages/Authenticator.jsx:523 | the word count is a multiple of 16 |
| Sha1.PartialWordStep | src/pages/Authenticator.jsx:518 | one byte is or-ed into its own slot of its own word and changes no other word |
| Sha1.MarkerWord | src/pages/Authenticator.jsx:522 | or-ing the 0x80 marker at bit `len` completes the marker word |
| Sha1.OrInBytes | src/pages/Authenticator.jsx:516-519 | after the byte loop every word holds exactly the message bytes that fall into it |
| Sha1.PackWords | src/pages/Authenticator.jsx:515-523 | the filled `words` array is the padded message's words |
| Sha1.Extend | src/pages/Authenticator.jsx:529-531 | extending a prefix of the schedule gives 80 words |
| Sha1.Schedule | src/pages/Authenticator.jsx:529-531 | the message schedule has 80 words |
| Sha1.ScheduleDefinition | src/pages/Authenticator.jsx:528-531 | words 0..15 are the block; word j is `rol(w[j-3] ^ w[j-8] ^ w[j-14] ^ w[j-16], 1)` |
| Sha1.ScheduleStep | src/pages/Authenticator.jsx:530 | one step of the loop appends exactly the next schedule word |
| Sha1.ExtendSchedule | src/pages/Authenticator.jsx:528-531 | the loop builds the schedule of FIPS 180-4 section 6.1.2 |
| Sha1.RoundFunction | src/pages/Authenticator.jsx:536 | f is Ch in rounds 0..19, Parity in 20..39 and 60..79, and Maj in 40..59 (FIPS 180-4 section 4.1.1) |
| Sha1.ChRounds | src/pages/Authenticator.jsx:536 | in rounds 0..19, `(b & c) \| (~b & d)` is Ch(b, c, d) |
| Sha1.MajRounds | src/pages/Authenticator.jsx:536 | in rounds 40..59, `(b & c) \| (b & d) \| (c & d)` is Maj(b, c, d) |
| Sha1.ParityRounds | src/pages/Authenticator.jsx:536 | in rounds 20..39 and 60..79, f is b ^ c ^ d |
| Sha1.Rounds | src/pages/Authenticator.jsx:533-540 | the eighty-round loop computes the working variables of FIPS 180-4 section 6.1.2 |
| Sha1.CompressBlock | src/pages/Authenticator.jsx:528-542 | one block adds the working variables into h0..h4 modulo 2^32 |
| Sha1.HashStep | src/pages/Authenticator.jsx:542 | compressing block k of the hash after k blocks gives the hash after k+1 blocks |
| Sha1.HashBlocks | src/pages/Authenticator.jsx:525-543 | the block loop computes the hash of all the blocks |
| Sha1.DigestOf | src/pages/Authenticator.jsx:545-551 | the digest is 20 bytes |
| Sha1.Sha1Digest | src/pages/Authenticator.jsx:514-551 | SHA-1 of any message is 20 bytes |
| Sha1.Sha1 | src/pages/Authenticator.jsx:514-551 | `sha1(data)` is the FIPS 180-4 digest of data |
| Hmac.BlockKey | src/pages/Authenticator.jsx:497-501 | the key is made exactly 64 bytes long |
| Hmac.XorPad | src/pages/Authenticator.jsx:505-508 | xor-ing a pad byte keeps the length |
| Hmac.HmacSpec | src/pages/Authenticator.jsx:495-512 | HMAC-SHA1 is 20 bytes |
| Hmac.Concat | src/pages/Authenticator.jsx:558-563 | `concat(a, b)` has length \|a\|+\|b\|, with a as prefix and b as suffix |
| Hmac.Joined | src/pages/Authenticator.jsx:558-563 | so it is a + b |
| Hmac.PadKey | src/pages/Authenticator.jsx:500-501 | `keyPadded` is the key followed by zeros up to 64 bytes |
| Hmac.Pads | src/pages/Authenticator.jsx:503-508 | `ipad` is key ⊕ 0x36 and `opad` is key ⊕ 0x5c, byte by byte |
| Hmac.HmacSha1 | src/pages/Authenticator.jsx:495-512 | `hmacSHA1(key, message)` is sha1(opad ‖ sha1(ipad ‖ message)) (RFC 2104 section 2) |
| Hmac.LongKey | src/pages/Authenticator.jsx:497-499 | a key longer than 64 bytes gives the same MAC as its SHA-1 digest |
| Hmac.ZeroPadding | src/pages/Authenticator.jsx:500-501 | zero bytes appended to a key that still fits the 64-byte block do not change the MAC |
| Totp.HexOfCounter | src/pages/Authenticator.jsx:466 | a counter below 2^64 becomes exactly 16 hex digits whose value is the counter |
| Totp.HexPair | src/pages/Authenticator.jsx:568 | `parseInt(hex.substr(i, 2), 16)` is the value of those (one or two) hex digits |
| Totp.HexBytes | src/pages/Authenticator.jsx:565-571 | `hexToBytes` gives one byte per two digits, rounded up |
| Totp.HexToBytes | src/pages/Authenticator.jsx:565-571 | the loop computes `HexBytes` |
| Totp.HexBytesValue | src/pages/Authenticator.jsx:565-571 | the bytes, read big-endian, are the value of an even-length hex string |
| Totp.BigEndian | src/pages/Authenticator.jsx:466-467 | the n-byte big-endian encoding has n bytes |
| Totp.BigEndianValue | src/pages/Authenticator.jsx:466-467 | the encoding reads back as the number |
| Totp.BytesNumberInjective | src/pages/Authenticator.jsx:466-467 | two byte strings of one length with the same value are equal |
| Totp.CounterBytes | src/pages/Authenticator.jsx:465-467 | `hexToBytes` of the 16-digit counter is the counter's 8-byte big-endian encoding |
| Totp.Offset | src/pages/Authenticator.jsx:468 | the offset lies in [0, 15], so bytes offset..offset+3 lie inside the 20-byte MAC |
| Totp.Truncate | src/pages/Authenticator.jsx:469-472 | the truncated value is below 2^31 |
| Totp.TruncateIsLow31 | src/pages/Authenticator.jsx:469-472 | it is the 4 bytes at the offset, big-endian, modulo 2^31 (RFC 4226 section 5.3) |
| Totp.CodeShape | src/pages/Authenticator.jsx:473-474 | the code is 6 decimal digits whose value is binary mod 10^6 |
| Totp.GenerateTotp | src/pages/Authenticator.jsx:462-478 | `generateTOTP` computes the TOTP specification, and `"000000"` when the decoder throws |
| Totp.TotpIsHotp | src/pages/Authenticator.jsx:463-474 | the code is HOTP of the decoded key at counter floor(t/30) (RFC 6238 section 4) |
| Totp.TotpShape | src/pages/Authenticator.jsx:462-478 | every result, the error value included, is 6 decimal digits |
| Totp.SameWithinStep | src/pages/Authenticator.jsx:465 | any two times in the same 30-second step give the same code |
| Totp.CaseInsensitive | src/pages/Authenticator.jsx:464 | upper-casing the secret's ASCII letters does not change the code |
| Totp.SkipsNonAlphabet | src/pages/Authenticator.jsx:464 | a character outside the alphabet, anywhere in the secret, does not change the code |
| OtpAuth.Get | src/pages/Authenticator.jsx:437-438 | `params.get(name)` is null exactly when no pair has that name, and otherwise the value of the first such pair |
| OtpAuth.DropSlash | src/pages/Authenticator.jsx:424 | `substring(1)` drops the first character |
| OtpAuth.Run | src/pages/Authenticator.jsx:452 | `[A-Z2-7]+` matches greedily: the longest prefix of secret characters |
| OtpAuth.SecretMatchLeftmost | src/pages/Authenticator.jsx:452 | the regex matches exactly when some `secret=` is followed by a secret character, and then at the leftmost such place |
| OtpAuth.MatchIsSecret | src/pages/Authenticator.jsx:452 | a captured secret is non-empty and made of secret characters |
| OtpAuth.ExtractSecretFromUri | src/pages/Authenticator.jsx:573-579 | `extractSecretFromURI` is null on a non-string and otherwise the same match as the fallback |
| OtpAuth.ParseOtpAuthUri | src/pages/Authenticator.jsx:418-459 | a throw from the URL parser or `decodeURIComponent` gives the fallback; otherwise the secret is the first `secret` parameter or "", and a non-empty `issuer` parameter wins |
| OtpAuth.IssuerAndLabel | src/pages/Authenticator.jsx:424-430 | with a decoder that changes nothing, a path with one `:` is read back as issuer and label |
| OtpAuth.TwoSegments | src/pages/Authenticator.jsx:427-430 | with any decoder, a path with one `:` gives issuer = decode(first piece) and label = decode(second piece); a decode failure on either gives the fallback |
| OtpAuth.LabelOnly | src/pages/Authenticator.jsx:431-433 | a path without `:` is all label; the issuer comes only from the query |
| OtpAuth.TooManySegments | src/pages/Authenticator.jsx:424-433 | more than two path segments leave label and path issuer empty |
| OtpAuth.SecretParameter | src/pages/Authenticator.jsx:436-446 | once the path decodes, the secret is the value of the first `secret` pair, or "" without one; a non-empty `issuer` parameter wins |
| OtpAuth.UnparsableUri | src/pages/Authenticator.jsx:450-458 | on a parse failure the secret is the leftmost regex group, or else the whole input, with fixed names |
| Accounts.StripSpaces | src/pages/Authenticator.jsx:78 | `replace(/\s/g, '')` leaves no white space and never lengthens the string |
| Accounts.StripAppend | src/pages/Authenticator.jsx:78 | the removal works piece by piece: stripping a concatenation strips each part, in order |
| Accounts.StripOne | src/pages/Authenticator.jsx:78 | a single white-space character is removed, and any other character is kept |
| Accounts.StripNoSpace | src/pages/Authenticator.jsx:78 | a string without white space is kept as it is |
| Accounts.AddAccount | src/pages/Authenticator.jsx:73-84 | exactly one new account is prepended, named as given or "New Account" / "Manually Added" when empty, with the normalised secret; the rest stays in order |
| Accounts.HandleQrScanned | src/pages/Authenticator.jsx:60-71 | exactly one account is prepended, with the parsed issuer and label, or "Scanned Account" / "From QR Code" when they are empty, and the upper-cased secret |
| Accounts.DeleteAccount | src/pages/Authenticator.jsx:86-89 | an account remains exactly when it was there and its id differs |
| Accounts.DeleteKeepsOrder | src/pages/Authenticator.jsx:86-89 | `filter` is an order-preserving removal (equal to the element-wise `Keep`) |
| Accounts.KeepFront | src/pages/Authenticator.jsx:88 | the filter decides the first account on its own id and leaves the rest to the recursion |
| Accounts.AddThenDelete | src/pages/Authenticator.jsx:73-89 | deleting the id of a just-added account with a fresh id restores the list |
| Accounts.KeepsAll | src/pages/Authenticator.jsx:86-89 | deleting an id nobody has changes nothing |
| Accounts.DeleteIdempotent | src/pages/Authenticator.jsx:86-89 | deleting twice is deleting once |
| Accounts.NormalizedShape | src/pages/Authenticator.jsx:78 | a manually entered secret holds no white space and no lower-case ASCII letter |
| Accounts.UpperStripped | src/pages/Authenticator.jsx:78 | stripping white space keeps an upper-cased string upper-cased |
| Accounts.StripKeepsBits | src/pages/Authenticator.jsx:78 | stripping white space does not change the decoder's bits |
| Accounts.StripKeepsKey | src/pages/Authenticator.jsx:78 | stripping white space does not change the decoded key |
| Accounts.SpaceNotDigit | src/pages/Authenticator.jsx:78 | no white-space character is in the base32 alphabet |
| Accounts.SpaceIsNoDigit | src/pages/Authenticator.jsx:78 | white space contributes no bits |
| Accounts.NormalizeKeepsCode | src/pages/Authenticator.jsx:78 | the normalisation of `addAccount`, with ASCII upper-casing, never changes the account's codes |
| Accounts.ScannedKeepsCode | src/pages/Authenticator.jsx:66 | the upper-casing of `handleQRScanned`, on ASCII letters, never changes the account's codes |
| Accounts.TickInRange | src/pages/Authenticator.jsx:50 | the countdown stays in [1, 30] |
| Accounts.TicksPeriod | src/pages/Authenticator.jsx:50 | after 30 ticks the countdown is back at its value |
| Accounts.TicksDown | src/pages/Authenticator.jsx:50 | before reaching 1 the countdown drops by one per tick |
| Accounts.TicksSplit | src/pages/Authenticator.jsx:50 | m + n ticks are m ticks and then n ticks |
| UrlRisk.RiskNameRoundTrip | src/pages/Websitecheck.jsx:286-292 | each risk level has its own name, and the name reads back as the level |
| UrlRisk.AddressRules | src/pages/Websitecheck.jsx:224-238 | http, a suspicious TLD and a dotted quad each add their threat in that order; any of them makes the risk High |
| UrlRisk.BrandRules | src/pages/Websitecheck.jsx:240-246 | one phishing threat per impersonated brand, in list order; any of them makes the risk Critical |
| UrlRisk.TrustRules | src/pages/Websitecheck.jsx:248-257 | a government domain, or a known-safe one over https, adds its note and resets the risk to Low |
| UrlRisk.AnalyzeUrl | src/pages/Websitecheck.jsx:210-264 | `analyzeURL` computes the rule chain's specification, and exactly (Analysis Error, [Invalid URL format]) when the parser throws |
| UrlRisk.NormalizedIsHttp | src/pages/Websitecheck.jsx:215-218 | input without an http(s) scheme is given the `http:` scheme |
| UrlRisk.HttpFirst | src/pages/Websitecheck.jsx:224-227 | an http address's first threat is the unsecured-connection one, and it ends Low only on a government domain |
| UrlRisk.NoSchemeMeansHttp | src/pages/Websitecheck.jsx:215-227 | input without an http(s) scheme is analysed as http, flagged as unsecured, and Low only if it is a government domain |
| UrlRisk.FlagKeeps | src/pages/Websitecheck.jsx:224-257 | the threats list only grows: every rule keeps what is already there |
| UrlRisk.PhishingThreatsMembers | src/pages/Websitecheck.jsx:240-246 | a brand is reported exactly when it is in the list and impersonated |
| UrlRisk.BrandReported | src/pages/Websitecheck.jsx:240-246 | each listed brand is reported exactly when the host name impersonates it |
| UrlRisk.PhishingTextInjective | src/pages/Websitecheck.jsx:243 | different brands give different phishing messages |
| UrlRisk.OwnDomainNotFlagged | src/pages/Websitecheck.jsx:242 | a host name ending in `<brand>.com` is never flagged for that brand |
| UrlRisk.SubdomainTestRedundant | src/pages/Websitecheck.jsx:242 | the `.<brand>.com` test adds nothing to the `<brand>.com` test |
| UrlRisk.AnyImpersonatedIff | src/pages/Websitecheck.jsx:241-246 | the loop's "some brand fired" is exactly "some listed brand is impersonated" |
| UrlRisk.UrlRiskPriorities | src/pages/Websitecheck.jsx:224-257 | later rules win: government means Low, phishing outside the trusted cases means Critical, and Low holds exactly in the listed cases |
| UrlRisk.QuickScan | src/pages/Websitecheck.jsx:278-283 | the quick scan keeps `analyzeURL`'s risk and threats and says "passed" exactly at Low Risk |
| UrlRisk.QuickPassedIffLow | src/pages/Websitecheck.jsx:281 | the quick scan passes exactly at Low Risk; an address the parser refuses never passes |
| UrlRisk.CountRules | src/pages/Websitecheck.jsx:73-151 | the keylogger, spyware, malicious-script and external-script thresholds, applied in the page's order |
| UrlRisk.ShortLinkRules | src/pages/Websitecheck.jsx:154-160 | one threat per listed short-link domain the page contains, in list order; any of them lifts Low to Moderate |
| UrlRisk.ScanContent | src/pages/Websitecheck.jsx:65-172 | the content rules compute the declarative content risk and threat list |
| UrlRisk.ContentRiskIsRuleChain | src/pages/Websitecheck.jsx:73-171 | the level-by-level content risk equals the rules applied one after the other from Low |
| UrlRisk.RulesNeverLower | src/pages/Websitecheck.jsx:73-171 | under Low < Moderate < High < Critical no content rule lowers the risk |
| UrlRisk.RulesMonotone | src/pages/Websitecheck.jsx:73-171 | each content rule, with the corrected tracking rule in place of the written one, is monotone in the running risk and in its count |
| UrlRisk.DeepScanWebsite | src/pages/Websitecheck.jsx:18-196 | the risk comes from the content alone; the threats are the address's, then the fetch's (placeholder if none); the recommendation follows the risk |
| UrlRisk.DeepThreatsKeepAnalysis | src/pages/Websitecheck.jsx:26-47 | the deep scan's threats start with the address's threats in order, end with the CORS note after a failed fetch, and are never empty |
| UrlRisk.RecommendationRoundTrip | src/pages/Websitecheck.jsx:178-190 | each risk level has its own recommendation, which reads back as the level |
| UrlRisk.DeepPassedIffLow | src/pages/Websitecheck.jsx:178-190 | the deep scan says "passed" exactly at Low Risk |
| UrlRisk.KeyListenersMaskTracking | src/pages/Websitecheck.jsx:73-112 | as written, 3 key listeners plus 11 trackers give Moderate while 11 trackers alone give High |
| UrlRisk.CorrectedRiskMonotone | src/pages/Websitecheck.jsx:106-112 | with the tracking rule raising to at least High, more suspicious counts never give a lower risk |
| UrlRisk.CorrectionOnlyTracking | src/pages/Websitecheck.jsx:106-112 | the correction changes nothing unless there are more than 10 trackers and more than 2 key listeners |
| Server.UserStore.constructor | backend/server.js:19 | the user table starts empty |
| Server.UserStore.Setup | backend/server.js:25-59 | `/api/setup` changes the table and answers as the setup specification says |
| Server.UserStore.Verify | backend/server.js:65-99 | `/api/verify` changes the table and answers as the verify specification says |
| Server.SetupEffect | backend/server.js:29-53 | 400 exactly without an email, and no change unless it succeeds; success stores key = temporary key, unverified, under that email and touches no other entry |
| Server.VerifyEffect | backend/server.js:69-93 | 400 exactly without token or secret; `verified` is the check on the request's secret; only that email's entry can change, and only when verified |
| Server.SecondVerifyLosesSecret | backend/server.js:81-88 | as written, a first verify after setup stores the key and a second one sets it to undefined |
| Server.CorrectedVerifyKeepsKey | backend/server.js:81-88 | the corrected promotion answers the same, never loses a stored key, and is idempotent |
| Server.ValidateSecretIff | backend/server.js:139-150 | 400 exactly without a secret; otherwise valid exactly when it is a non-empty run of `A-Z2-7` (either case) followed only by `=` |
| Server.RunAtSplit | backend/server.js:144-145 | such a split is unique: the greedy run ends where the `=` begin |
| Server.AcceptedSecretDecodes | backend/server.js:144-145 | an accepted secret with n letters decodes to floor(5n/8) bytes in the authenticator |
| Server.TimeRemainingIsStepEnd | backend/server.js:118 | `timeRemaining` lies in [1, 30] and counts the seconds left in the current 30-second step |
| Server.TimeRemainingTicks | backend/server.js:118 | one second later it is the page countdown's next value |

## Left out

- Sha1.MaxLength: messages are shorter than 2^29 - 8 bytes. Beyond that, `(len + 64) >>> 9` wraps and the length word lands elsewhere.
- Sha1.PackWords: the source's `words` array has holes, which `|=` reads as 0. The model allocates the array zero-filled.
- Sha1.RolRotates: `rol` is stated as a rotation only for the amounts 1, 5 and 30 that the program uses.
- Common.Upper: `toUpperCase` is modelled on ASCII letters only. Other characters are kept.
  - The base32 lookup alone models the non-ASCII upper-casings that land in the alphabet.
  - Other JavaScript case mappings that change a string's length are not modelled.
- Totp.GenerateTotp: the time is a natural number of seconds below 2^53, and `Math.floor(t / 30)` is integer division.
  - Negative or fractional times are not modelled.
  - The only exception modelled is a null or undefined secret. A secret of another type (a number has no `length`) decodes as the empty key and is not modelled.
- Base32.DecodedUpper: stated for the ASCII upper-casing of `Upper`. JavaScript's whole-string `toUpperCase` also turns ß into "SS" and ﬀ into "FF". Those are two alphabet letters where the decoder's per-character lookup finds none, so on such input the decoded key can differ.
- Totp.CaseInsensitive: stated under the same ASCII upper-casing, for the same reason.
- Accounts.NormalizeKeepsCode: holds only under the ASCII upper-casing. With `toUpperCase` in full, `addAccount` turns "AAAAAAAß" into "AAAAAAASS", which decodes to 5 bytes instead of 4.
- Accounts.ScannedKeepsCode: holds only under the ASCII upper-casing, for the same reason.
- Totp.HexToBytes: modelled only for strings of hex digits, which is all `generateTOTP` passes. `parseInt`'s NaN is not modelled.
- Totp.Truncate: the source or-s disjoint bit fields. The model writes them as a sum.
- OtpAuth.ParseOtpAuthUri: the WHATWG URL parser and `decodeURIComponent` are parameters. The model starts from an already split path and query list.
- UrlRisk.AnalyzeUrl: the URL parser is a parameter that yields protocol and host name, or a throw.
- UrlRisk.ScanContent: `fetch` and the regular-expression counts over the page are inputs (`Fetch`, `PageScan`).
  - The password rule's "some form action lacks `https://`" is the boolean `insecureAction`.
  - Page length is the string length. JavaScript counts UTF-16 code units.
- UrlRisk.DeepScanWebsite: the outer catch (Analysis Error) is not modelled. Nothing inside it can throw once the parser and the fetch are inputs.
- Server.UserStore.Setup: `speakeasy.generateSecret` and `QRCode.toDataURL` are parameters.
  - A failed QR code answers 500 and changes nothing.
  - Request fields are strings or absent. Other JSON types are not modelled.
- Server.UserStore.Verify: `speakeasy.totp.verify` and its time window are a boolean parameter. A throw from it is not modelled.
- Server.UserStore: user objects are values in a map. Aliasing of the stored object is not modelled; the source only writes it back to the same key.
- `/api/generate-token` (apart from its `timeRemaining` count) and `/api/health`: they only call speakeasy and the clock.
- Not modelled (UI and foreign code):
  - React rendering, the camera, jsQR, the clipboard and `localStorage`;
  - the intervals themselves (only the countdown's update is modelled);
  - the network scanner and Google sign-in.

## Findings

| source | as written | input that shows it | evidently intended | confidence | as-written member | corrected member |
|---|---|---|---|---|---|---|
| src/pages/Websitecheck.jsx:106-111 | more than 10 trackers raise the risk to High only from Low Risk | a page with 3 keyboard listeners and 11 tracking patterns: Moderate, while 11 tracking patterns alone give High | extensive tracking raises the risk to at least High, like the malicious-script rule at line 141 | medium, not executed | UrlRisk.KeyListenersMaskTracking | UrlRisk.CorrectedRiskMonotone |
| backend/server.js:85-86 | `user.secret = user.tempSecret; delete user.tempSecret;` runs on every successful verify | setup, then two successful verifies for the same email: the second sets `secret` to undefined | promote the temporary secret only while one exists | high, not executed | Server.SecondVerifyLosesSecret | Server.CorrectedVerifyKeepsKey |

The methods `UrlRisk.DeepScanWebsite` and `Server.UserStore.Verify` model the code as written. The corrected definitions are `UrlRisk.CorrectedContentRisk` and `Server.CorrectedVerifySpec`, each with its proved property beside it.
