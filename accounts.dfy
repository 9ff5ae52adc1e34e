/**
 * The account list of the authenticator page and its countdown:
 * `addAccount`, `handleQRScanned` and `deleteAccount` build a new list from
 * the old one, and the timer updater counts 30 down to 1 and wraps.
 * `Date.now()` is a parameter.
 */
module Accounts {
  import opened Common
  import opened Base32
  import opened Sha1
  import opened Totp
  import opened OtpAuth

  /** One stored account; `email` is the label shown under the name. */
  datatype Account = Account(id: int, name: string, email: string, secret: string)

  const NewName: string := "New Account"
  const ManualEmail: string := "Manually Added"

  /** `x || fallback` for a string x: the empty string is falsy. */
  function OrElse(x: string, fallback: string): string
  {
    if x == "" then fallback else x
  }

  /** `s.replace(/\s/g, '')` */
  function StripSpaces(s: string): (r: string)
    ensures |r| <= |s|
    ensures forall k :: 0 <= k < |r| ==> !IsJsSpace(r[k])
  {
    if s == [] then []
    else
      var rest := StripSpaces(s[..|s| - 1]);
      if IsJsSpace(s[|s| - 1]) then rest else rest + [s[|s| - 1]]
  }

  /** The secret `addAccount` stores. */
  function Normalize(secret: string): string
  {
    StripSpaces(Upper(secret))
  }

  /** `addAccount(name, email, secret)` at time now: the new account goes first. */
  function AddAccount(accounts: seq<Account>, now: int, name: string, email: string, secret: string): (r: seq<Account>)
    ensures |r| == |accounts| + 1 && r[1..] == accounts
    ensures r[0].id == now && r[0].secret == Normalize(secret)
    ensures (name == "" ==> r[0].name == NewName) && (name != "" ==> r[0].name == name)
    ensures (email == "" ==> r[0].email == ManualEmail) && (email != "" ==> r[0].email == email)
  {
    [Account(now, OrElse(name, NewName), OrElse(email, ManualEmail), Normalize(secret))] + accounts
  }

  /** `handleQRScanned(data)` at time now, with the URL parse and decoder of `parseOTPAuthURI`. */
  function HandleQrScanned(accounts: seq<Account>, now: int, data: string, url: Option<ParsedUrl>,
                           decode: string -> Option<string>): (r: seq<Account>)
    ensures |r| == |accounts| + 1 && r[1..] == accounts
    ensures r[0].id == now && r[0].name != "" && r[0].email != ""
    ensures var parsed := ParseOtpAuthUri(data, url, decode);
      r[0].secret == Upper(parsed.secret)
      && (parsed.issuer != "" ==> r[0].name == parsed.issuer)
      && (parsed.issuer == "" ==> r[0].name == ScannedIssuer)
      && (parsed.account != "" ==> r[0].email == parsed.account)
      && (parsed.account == "" ==> r[0].email == ScannedLabel)
  {
    var parsed := ParseOtpAuthUri(data, url, decode);
    [Account(now, OrElse(parsed.issuer, ScannedIssuer), OrElse(parsed.account, ScannedLabel), Upper(parsed.secret))]
      + accounts
  }

  /** `deleteAccount(id)`: `accounts.filter(acc => acc.id !== id)`. */
  function DeleteAccount(accounts: seq<Account>, id: int): (r: seq<Account>)
    ensures forall a :: a in r <==> a in accounts && a.id != id
    ensures |r| <= |accounts|
  {
    if accounts == [] then []
    else
      var rest := DeleteAccount(accounts[1..], id);
      assert forall a :: a in accounts <==> a == accounts[0] || a in accounts[1..];
      if accounts[0].id == id then rest else [accounts[0]] + rest
  }

  /** The countdown after one second: `prev === 1 ? 30 : prev - 1`. */
  function Tick(prev: int): (r: int)
  {
    if prev == 1 then Period else prev - 1
  }

  /** The countdown after n seconds. */
  function Ticks(t: int, n: nat): int
    decreases n
  {
    if n == 0 then t else Ticks(Tick(t), n - 1)
  }

  // ----- properties --------------------------------------------------------

  /** Deleting keeps the remaining accounts in their order: it drops exactly the matching ones. */
  lemma {:induction false} DeleteKeepsOrder(accounts: seq<Account>, id: int)
    ensures DeleteAccount(accounts, id) == Keep(accounts, id)
  {
    if accounts != [] {
      DeleteKeepsOrder(accounts[1..], id);
      assert accounts == [accounts[0]] + accounts[1..];
      KeepFront(accounts[0], accounts[1..], id);
    }
  }

  /** The list with every account of that id dropped, built from the back. */
  function Keep(accounts: seq<Account>, id: int): seq<Account>
  {
    if accounts == [] then []
    else
      var last := accounts[|accounts| - 1];
      Keep(accounts[..|accounts| - 1], id) + (if last.id == id then [] else [last])
  }

  lemma {:induction false} KeepFront(a: Account, rest: seq<Account>, id: int)
    ensures Keep([a] + rest, id) == (if a.id == id then [] else [a]) + Keep(rest, id)
    decreases |rest|
  {
    if rest == [] {
      assert ([a] + rest)[..0] == [];
    } else {
      var s := [a] + rest;
      var init := rest[..|rest| - 1];
      assert s[..|s| - 1] == [a] + init;
      KeepFront(a, init, id);
    }
  }

  /** Deleting the id just added gives the list back, when no older account had it. */
  lemma AddThenDelete(accounts: seq<Account>, now: int, name: string, email: string, secret: string)
    requires forall a :: a in accounts ==> a.id != now
    ensures DeleteAccount(AddAccount(accounts, now, name, email, secret), now) == accounts
  {
    KeepsAll(accounts, now);
  }

  lemma {:induction false} KeepsAll(accounts: seq<Account>, id: int)
    requires forall a :: a in accounts ==> a.id != id
    ensures DeleteAccount(accounts, id) == accounts
  {
    if accounts != [] {
      assert forall a :: a in accounts[1..] ==> a in accounts;
      KeepsAll(accounts[1..], id);
      assert accounts == [accounts[0]] + accounts[1..];
    }
  }

  /** Deleting twice is deleting once. */
  lemma DeleteIdempotent(accounts: seq<Account>, id: int)
    ensures DeleteAccount(DeleteAccount(accounts, id), id) == DeleteAccount(accounts, id)
  {
    KeepsAll(DeleteAccount(accounts, id), id);
  }

  /** The stored secret has no white space and no lower-case ASCII letter. */
  lemma NormalizedShape(secret: string)
    ensures forall k :: 0 <= k < |Normalize(secret)| ==> !IsJsSpace(Normalize(secret)[k]) && !IsAsciiLower(Normalize(secret)[k])
  {
    UpperStripped(Upper(secret));
  }

  lemma {:induction false} UpperStripped(s: string)
    requires forall k :: 0 <= k < |s| ==> !IsAsciiLower(s[k])
    ensures forall k :: 0 <= k < |StripSpaces(s)| ==> !IsAsciiLower(StripSpaces(s)[k])
  {
    if s != [] {
      UpperStripped(s[..|s| - 1]);
    }
  }

  /** The removal works character by character: stripping a concatenation strips each part. */
  lemma {:induction false} StripAppend(a: string, b: string)
    ensures StripSpaces(a + b) == StripSpaces(a) + StripSpaces(b)
    decreases |b|
  {
    if b == [] {
      assert a + b == a;
    } else {
      var b' := b[..|b| - 1];
      assert (a + b)[..|a + b| - 1] == a + b';
      assert (a + b)[|a + b| - 1] == b[|b| - 1];
      StripAppend(a, b');
    }
  }

  /** A white-space character is removed; any other character is kept. */
  lemma StripOne(c: char)
    ensures StripSpaces([c]) == if IsJsSpace(c) then [] else [c]
  {
    assert [c][..0] == [];
  }

  /** A string without white space is kept as it is. */
  lemma {:induction false} StripNoSpace(s: string)
    requires forall k :: 0 <= k < |s| ==> !IsJsSpace(s[k])
    ensures StripSpaces(s) == s
  {
    if s != [] {
      StripNoSpace(s[..|s| - 1]);
    }
  }

  /** White space is never a base32 digit, so stripping it leaves the key as it was. */
  lemma {:induction false} StripKeepsKey(s: string)
    ensures Decoded(StripSpaces(s)) == Decoded(s)
  {
    StripKeepsBits(s);
  }

  lemma {:induction false} StripKeepsBits(s: string)
    ensures BitString(StripSpaces(s)) == BitString(s)
  {
    if s != [] {
      var p, c := s[..|s| - 1], s[|s| - 1];
      assert s == p + [c];
      StripKeepsBits(p);
      BitStringSnoc(p, c);
      if !IsJsSpace(c) {
        BitStringSnoc(StripSpaces(p), c);
      } else {
        SpaceIsNoDigit(c);
      }
    }
  }

  lemma SpaceIsNoDigit(c: char)
    requires IsJsSpace(c)
    ensures Chunk(c) == ""
  {
    SpaceNotDigit(c);
    ChunkLength(c);
  }

  lemma SpaceNotDigit(c: char)
    requires IsJsSpace(c)
    ensures DigitValue(c) == -1
  {
  }

  /** The code shown for a typed-in secret is the TOTP of the secret as typed. */
  lemma NormalizeKeepsCode(secret: string, t: nat)
    requires |secret| < MaxLength && t < SafeLimit
    ensures |Normalize(secret)| < MaxLength
    ensures TotpSpec(Some(Normalize(secret)), t) == TotpSpec(Some(secret), t)
  {
    StripKeepsKey(Upper(secret));
    DecodedUpper(secret);
  }

  /** A scanned account shows the code of the secret the URI carries. */
  lemma ScannedKeepsCode(accounts: seq<Account>, now: int, data: string, url: Option<ParsedUrl>,
                         decode: string -> Option<string>, t: nat)
    requires |ParseOtpAuthUri(data, url, decode).secret| < MaxLength && t < SafeLimit
    ensures var r := HandleQrScanned(accounts, now, data, url, decode);
      |r[0].secret| < MaxLength
      && TotpSpec(Some(r[0].secret), t) == TotpSpec(Some(ParseOtpAuthUri(data, url, decode).secret), t)
  {
    DecodedUpper(ParseOtpAuthUri(data, url, decode).secret);
  }

  /** The countdown stays in [1, 30]. */
  lemma TickInRange(prev: int)
    requires 1 <= prev <= Period
    ensures 1 <= Tick(prev) <= Period
  {
  }

  /** From anywhere in [1, 30], thirty ticks come back to the start. */
  lemma TicksPeriod(t: int)
    requires 1 <= t <= Period
    ensures Ticks(t, Period) == t
  {
    TicksSplit(t, t - 1, Period + 1 - t);
    TicksDown(t, t - 1);
    TicksDown(Period, Period - t);
  }

  /** Counting down without reaching 1 subtracts. */
  lemma {:induction false} TicksDown(t: int, n: nat)
    requires n < t
    ensures Ticks(t, n) == t - n
  {
    if n > 0 {
      TicksDown(t - 1, n - 1);
    }
  }

  lemma {:induction false} TicksSplit(t: int, m: nat, n: nat)
    ensures Ticks(t, m + n) == Ticks(Ticks(t, m), n)
    decreases m
  {
    if m > 0 {
      TicksSplit(Tick(t), m - 1, n);
    }
  }
}
