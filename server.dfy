/**
 * The 2FA backend: the in-memory `users` map behind `/api/setup` and
 * `/api/verify`, the format check of `/api/validate-secret`, and the
 * `timeRemaining` of a generated token.
 *
 * The secret generator, the QR encoder and the token check belong to
 * libraries and are parameters; `Date.now()` is the parameter `nowMs`.
 * A request field is an `Option<string>`: None when it is absent.
 */
module Server {
  import opened Common
  import opened Base32
  import opened Totp
  import opened OtpAuth
  import opened Accounts

  /**
   * A stored user. `secret` is None where the source leaves it undefined
   * and `tempSecret` None once it has been deleted.
   */
  datatype User = User(secret: Option<string>, tempSecret: Option<string>, verified: bool)

  /** What the secret generator returns: the base32 key and its `otpauth://` address. */
  datatype Generated = Generated(base32: string, otpauthUrl: string)

  datatype Body =
    | ErrorBody(error: string)
    | SetupBody(qrCode: string, manualKey: string, otpauthUrl: string)
    | VerifyBody(verified: bool, message: string)
    | ValidBody(valid: bool, message: string)

  datatype Response = Response(status: nat, body: Body)

  const Issuer: string := "MyAuthApp"
  const EmailRequired: string := "Email is required"
  const QrFailed: string := "Failed to generate QR code"
  const TokenRequired: string := "Token and secret are required"
  const SecretRequired: string := "Secret is required"

  /** A field JavaScript reads as false: absent or the empty string. */
  predicate Falsy(x: Option<string>) { x.None? || x.value == "" }

  /** `name || \`Authenticator (${email})\`` */
  function AccountName(name: Option<string>, email: string): string
  {
    if Falsy(name) then "Authenticator (" + email + ")" else name.value
  }

  /** The user a successful setup stores: the new key twice, not yet verified. */
  function Fresh(key: string): User
  {
    User(Some(key), Some(key), false)
  }

  /** The user after a successful verify: `secret` takes `tempSecret`, which is deleted. */
  function Promoted(user: User): User
  {
    User(user.tempSecret, None, true)
  }

  function VerifyMessage(verified: bool): string
  {
    if verified then "Token is valid" else "Invalid token"
  }

  /** The map and the response after `/api/setup`. */
  function SetupSpec(users: map<string, User>, email: Option<string>, name: Option<string>,
                     generate: (string, string) -> Generated, toDataUrl: string -> Option<string>)
    : (map<string, User>, Response)
  {
    if Falsy(email) then (users, Response(400, ErrorBody(EmailRequired)))
    else
      var g := generate(AccountName(name, email.value), Issuer);
      match toDataUrl(g.otpauthUrl)
      case None => (users, Response(500, ErrorBody(QrFailed)))
      case Some(qr) => (users[email.value := Fresh(g.base32)], Response(200, SetupBody(qr, g.base32, g.otpauthUrl)))
  }

  /** The map and the response after `/api/verify`; the token is checked against the request's secret. */
  function VerifySpec(users: map<string, User>, email: Option<string>, token: Option<string>, secret: Option<string>,
                      check: (string, string) -> bool)
    : (map<string, User>, Response)
  {
    if Falsy(token) || Falsy(secret) then (users, Response(400, ErrorBody(TokenRequired)))
    else
      var verified := check(secret.value, token.value);
      var users' := if verified && !Falsy(email) && email.value in users
                    then users[email.value := Promoted(users[email.value])] else users;
      (users', Response(200, VerifyBody(verified, VerifyMessage(verified))))
  }

  /** The server's user table. */
  class UserStore {
    /** `users`: email to stored user. */
    var users: map<string, User>

    constructor()
      ensures users == map[]
    {
      users := map[];
    }

    /** `POST /api/setup` */
    method Setup(email: Option<string>, name: Option<string>,
                 generate: (string, string) -> Generated, toDataUrl: string -> Option<string>) returns (resp: Response)
      modifies this
      ensures (users, resp) == SetupSpec(old(users), email, name, generate, toDataUrl)
    {
      if Falsy(email) {
        return Response(400, ErrorBody(EmailRequired));
      }
      var secret := generate(AccountName(name, email.value), Issuer);
      var qrCodeDataUrl := toDataUrl(secret.otpauthUrl);
      if qrCodeDataUrl.None? {
        return Response(500, ErrorBody(QrFailed));
      }
      users := users[email.value := User(Some(secret.base32), Some(secret.base32), false)];
      resp := Response(200, SetupBody(qrCodeDataUrl.value, secret.base32, secret.otpauthUrl));
    }

    /** `POST /api/verify` */
    method Verify(email: Option<string>, token: Option<string>, secret: Option<string>,
                  check: (string, string) -> bool) returns (resp: Response)
      modifies this
      ensures (users, resp) == VerifySpec(old(users), email, token, secret, check)
    {
      if Falsy(token) || Falsy(secret) {
        return Response(400, ErrorBody(TokenRequired));
      }
      var verified := check(secret.value, token.value);
      if verified && !Falsy(email) && email.value in users {
        var user := users[email.value];
        user := user.(verified := true);
        user := user.(secret := user.tempSecret);
        user := user.(tempSecret := None);
        users := users[email.value := user];
      }
      resp := Response(200, VerifyBody(verified, if verified then "Token is valid" else "Invalid token"));
    }
  }

  // ----- properties of the user table -------------------------------------------

  /**
   * Setup answers 400 exactly without an email and then changes nothing;
   * when the QR code fails it changes nothing either; on success it stores
   * the new key as both secret and temporary secret, unverified, under that
   * email and leaves every other entry as it was.
   */
  lemma SetupEffect(users: map<string, User>, email: Option<string>, name: Option<string>,
                    generate: (string, string) -> Generated, toDataUrl: string -> Option<string>)
    ensures var (users', resp) := SetupSpec(users, email, name, generate, toDataUrl);
      && (resp.status == 400 <==> Falsy(email))
      && (resp.status != 200 ==> users' == users)
      && (resp.status == 200 ==>
            && resp.body.SetupBody?
            && users'.Keys == users.Keys + {email.value}
            && users'[email.value].secret == users'[email.value].tempSecret == Some(resp.body.manualKey)
            && !users'[email.value].verified
            && forall e :: e in users && e != email.value ==> users'[e] == users[e])
  {
  }

  /**
   * Verify answers 400 exactly without a token or a secret; otherwise the
   * answer's `verified` is the token check on the request's secret, whether
   * or not the email is known. The keys never change, and at most the
   * entry of the given email does: it is promoted only when the token
   * checked out.
   */
  lemma VerifyEffect(users: map<string, User>, email: Option<string>, token: Option<string>, secret: Option<string>,
                     check: (string, string) -> bool)
    ensures var (users', resp) := VerifySpec(users, email, token, secret, check);
      && (resp.status == 400 <==> Falsy(token) || Falsy(secret))
      && (resp.status == 200 ==>
            && resp.body.VerifyBody?
            && resp.body.verified == check(secret.value, token.value)
            && (resp.body.message == "Token is valid" <==> resp.body.verified))
      && users'.Keys == users.Keys
      && (forall e :: e in users && (Falsy(email) || e != email.value) ==> users'[e] == users[e])
      && (users' != users ==>
            && resp.status == 200
            && resp.body.verified
            && users'[email.value] == User(users[email.value].tempSecret, None, true))
  {
    var (users', resp) := VerifySpec(users, email, token, secret, check);
    if resp.status == 200 {
      assert resp.body.message == VerifyMessage(resp.body.verified);
      assert "Token is valid" != "Invalid token" by {
        assert "Token is valid"[0] != "Invalid token"[0];
      }
    }
  }

  /**
   * The first successful verify after setup makes the user verified with the
   * set-up key; a second one for the same email loses the key, because the
   * temporary secret it copies was deleted by the first.
   */
  lemma SecondVerifyLosesSecret(users: map<string, User>, email: string, name: Option<string>,
                                generate: (string, string) -> Generated, toDataUrl: string -> Option<string>,
                                token: string, secret: string, check: (string, string) -> bool)
    requires email != "" && token != "" && secret != ""
    requires toDataUrl(generate(AccountName(name, email), Issuer).otpauthUrl).Some?
    requires check(secret, token)
    ensures var key := generate(AccountName(name, email), Issuer).base32;
      var afterSetup := SetupSpec(users, Some(email), name, generate, toDataUrl).0;
      var once := VerifySpec(afterSetup, Some(email), Some(token), Some(secret), check).0;
      var twice := VerifySpec(once, Some(email), Some(token), Some(secret), check).0;
      && once[email] == User(Some(key), None, true)
      && twice[email] == User(None, None, true)
  {
  }

  /** The promotion as evidently intended: the key is copied only while a temporary one exists. */
  function PromotedKeepingKey(user: User): User
  {
    User(if user.tempSecret.Some? then user.tempSecret else user.secret, None, true)
  }

  function CorrectedVerifySpec(users: map<string, User>, email: Option<string>, token: Option<string>, secret: Option<string>,
                               check: (string, string) -> bool)
    : (map<string, User>, Response)
  {
    if Falsy(token) || Falsy(secret) then (users, Response(400, ErrorBody(TokenRequired)))
    else
      var verified := check(secret.value, token.value);
      var users' := if verified && !Falsy(email) && email.value in users
                    then users[email.value := PromotedKeepingKey(users[email.value])] else users;
      (users', Response(200, VerifyBody(verified, VerifyMessage(verified))))
  }

  /**
   * With the corrected promotion a stored key is never lost, a verify
   * answers as before, and verifying again changes nothing more.
   */
  lemma CorrectedVerifyKeepsKey(users: map<string, User>, email: Option<string>, token: Option<string>,
                                secret: Option<string>, check: (string, string) -> bool)
    ensures var (users', resp) := CorrectedVerifySpec(users, email, token, secret, check);
      && resp == VerifySpec(users, email, token, secret, check).1
      && users'.Keys == users.Keys
      && (forall e :: e in users && users[e].secret.Some? ==> users'[e].secret.Some?)
      && CorrectedVerifySpec(users', email, token, secret, check).0 == users'
  {
    var (users', resp) := CorrectedVerifySpec(users, email, token, secret, check);
    if !Falsy(token) && !Falsy(secret) && check(secret.value, token.value) && !Falsy(email) && email.value in users {
      var e := email.value;
      assert users'[e] == PromotedKeepingKey(users[e]);
      assert PromotedKeepingKey(users'[e]) == users'[e];
      assert users'[e := PromotedKeepingKey(users'[e])] == users';
    }
  }

  // ----- /api/validate-secret ---------------------------------------------------

  /** `/^[A-Z2-7]+=*$/i.test(s)`: the greedy run of secret characters is not empty and only `=` follows. */
  predicate Base32Shape(s: string)
  {
    var n := |Run(s)|;
    n >= 1 && forall k :: n <= k < |s| ==> s[k] == '='
  }

  /** `GET /api/validate-secret` */
  function ValidateSecret(secret: Option<string>): Response
  {
    if Falsy(secret) then Response(400, ErrorBody(SecretRequired))
    else
      var isValid := Base32Shape(secret.value);
      Response(200, ValidBody(isValid, if isValid then "Secret is valid" else "Invalid secret format"))
  }

  /** A split of s into a non-empty run of secret characters and a run of `=`. */
  predicate SplitsAt(s: string, n: nat)
  {
    1 <= n <= |s|
    && (forall k :: 0 <= k < n ==> IsSecretChar(s[k]))
    && (forall k :: n <= k < |s| ==> s[k] == '=')
  }

  /** The answer is 400 exactly without a secret, and otherwise valid exactly when such a split exists. */
  lemma ValidateSecretIff(secret: Option<string>)
    ensures ValidateSecret(secret).status == 400 <==> Falsy(secret)
    ensures !Falsy(secret) ==>
      (ValidateSecret(secret).body.valid <==> exists n: nat :: SplitsAt(secret.value, n))
  {
    if !Falsy(secret) {
      var s := secret.value;
      if Base32Shape(s) {
        assert SplitsAt(s, |Run(s)|);
      }
      forall n: nat | SplitsAt(s, n)
        ensures Base32Shape(s)
      {
        RunAtSplit(s, n);
      }
    }
  }

  lemma RunAtSplit(s: string, n: nat)
    requires SplitsAt(s, n)
    ensures |Run(s)| == n
  {
    var r := Run(s);
    if |r| < n {
      assert false;
    } else if |r| > n {
      RunPrefix(s, n);
      assert false;
    }
  }

  lemma RunPrefix(s: string, k: nat)
    requires k < |Run(s)|
    ensures IsSecretChar(s[k])
  {
    assert Run(s)[k] == s[k];
  }

  /**
   * A secret the server accepts is read by the page in full: every
   * character before the padding is a base32 digit and the padding is
   * skipped, so the key has five bits per character, cut into bytes.
   */
  lemma AcceptedSecretDecodes(s: string)
    requires Base32Shape(s)
    ensures |Decoded(s)| == 5 * |Run(s)| / 8
  {
    CountDigitsOfSplit(s, |Run(s)|);
    DecodedLength(s);
  }

  lemma {:induction false} CountDigitsOfSplit(s: string, n: nat)
    requires n <= |s|
    requires forall k :: 0 <= k < n ==> IsSecretChar(s[k])
    requires forall k :: n <= k < |s| ==> s[k] == '='
    ensures CountDigits(s) == n
  {
    if s != [] {
      var init := s[..|s| - 1];
      if |s| > n {
        CountDigitsOfSplit(init, n);
      } else {
        CountDigitsOfSplit(init, n - 1);
        assert IsDigit(s[|s| - 1]);
      }
    }
  }

  // ----- timeRemaining ----------------------------------------------------------

  /**
   * `30 - Math.floor((Date.now() / 1000) % 30)` at nowMs milliseconds. For a
   * non-negative time the floor of the remainder of the quotient is the
   * remainder of the whole seconds.
   */
  function TimeRemaining(nowMs: nat): int
  {
    Period - (nowMs / 1000) % Period
  }

  /**
   * The count lies in [1, 30] and is the number of whole seconds, from the
   * current one, that stay in the current 30-second step: the token of the
   * step is good for exactly that many more ticks of the clock's seconds.
   */
  lemma TimeRemainingIsStepEnd(nowMs: nat)
    ensures 1 <= TimeRemaining(nowMs) <= Period
    ensures var t := nowMs / 1000;
      (t + TimeRemaining(nowMs) - 1) / Period == t / Period
      && (t + TimeRemaining(nowMs)) / Period == t / Period + 1
  {
    var t := nowMs / 1000;
    var q, r := t / Period, t % Period;
    assert t == Period * q + r;
    var left := TimeRemaining(nowMs);
    assert left == Period - r;
    assert t + left - 1 == Period * q + (Period - 1);
    assert t + left == Period * (q + 1);
  }

  /** One second later the server's count is the page countdown's next value. */
  lemma TimeRemainingTicks(nowMs: nat)
    ensures TimeRemaining(nowMs + 1000) == Tick(TimeRemaining(nowMs))
  {
    var t := nowMs / 1000;
    assert (nowMs + 1000) / 1000 == t + 1;
    var q, r := t / Period, t % Period;
    assert t == Period * q + r;
    if r == Period - 1 {
      assert t + 1 == Period * (q + 1);
    } else {
      assert t + 1 == Period * q + (r + 1);
    }
  }
}
