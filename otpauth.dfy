/**
 * `parseOTPAuthURI` and `extractSecretFromURI` of the authenticator page.
 * The WHATWG URL parser and `decodeURIComponent` are outside the model:
 * the parse is given as its result (None when `new URL` throws) and the
 * decoder as a function that yields None where it would throw.
 */
module OtpAuth {
  import opened Common

  /** What the parser reads of a `URL`: the pathname and the decoded query pairs, in order. */
  datatype ParsedUrl = ParsedUrl(pathname: string, query: seq<(string, string)>)

  /** The object `parseOTPAuthURI` returns; `account` is its `label` field (a Dafny keyword). */
  datatype OtpParams = OtpParams(secret: string, issuer: string, account: string)

  const ScannedIssuer: string := "Scanned Account"
  const ScannedLabel: string := "From QR Code"

  // ----- the query ---------------------------------------------------------

  /** `params.get(name)`: the value of the first pair with that name. */
  function Get(query: seq<(string, string)>, name: string): (r: Option<string>)
    ensures r.None? <==> forall k :: 0 <= k < |query| ==> query[k].0 != name
    ensures r.Some? ==> exists k :: 0 <= k < |query| && query[k] == (name, r.value)
                                 && forall j :: 0 <= j < k ==> query[j].0 != name
  {
    if query == [] then None
    else if query[0].0 == name then Some(query[0].1)
    else
      var r := Get(query[1..], name);
      assert forall k :: 1 <= k < |query| ==> query[k] == query[1..][k - 1];
      if r.Some? then FirstPairShifts(query, name, r.value); r else r
  }

  /** The first pair named `name` after the head is the first in the whole list when the head has another name. */
  lemma FirstPairShifts(query: seq<(string, string)>, name: string, v: string)
    requires query != [] && query[0].0 != name
    requires exists k :: 0 <= k < |query[1..]| && query[1..][k] == (name, v)
                         && forall j :: 0 <= j < k ==> query[1..][j].0 != name
    ensures exists k :: 0 <= k < |query| && query[k] == (name, v)
                        && forall j :: 0 <= j < k ==> query[j].0 != name
  {
    var k :| 0 <= k < |query[1..]| && query[1..][k] == (name, v)
             && forall j :: 0 <= j < k ==> query[1..][j].0 != name;
    assert query[k + 1] == (name, v);
    assert forall j :: 1 <= j < k + 1 ==> query[j] == query[1..][j - 1];
  }

  /** `pathname.substring(1)` */
  function DropSlash(path: string): (r: string)
    ensures |path| >= 1 ==> path == [path[0]] + r
  {
    if |path| >= 1 then path[1..] else []
  }

  // ----- the fallback regular expression -----------------------------------

  /** A character of `[A-Z2-7]` under the `i` flag (ASCII letters of either case). */
  predicate IsSecretChar(c: char)
  {
    IsAsciiUpper(c) || IsAsciiLower(c) || '2' <= c <= '7'
  }

  /** `secret=` under the `i` flag at position i, followed by at least one secret character. */
  predicate KeyAt(s: string, i: nat)
  {
    i + 8 <= |s| && Lower(s[i..i + 6]) == "secret" && s[i + 6] == '=' && IsSecretChar(s[i + 7])
  }

  /** The greedy `[A-Z2-7]+` run at the start of s. */
  function Run(s: string): (r: string)
    ensures |r| <= |s| && r == s[..|r|]
    ensures forall k :: 0 <= k < |r| ==> IsSecretChar(r[k])
    ensures |r| == |s| || !IsSecretChar(s[|r|])
  {
    if s == [] || !IsSecretChar(s[0]) then []
    else
      var rest := Run(s[1..]);
      assert s[..|rest| + 1] == [s[0]] + s[1..][..|rest|];
      [s[0]] + rest
  }

  /** `s.match(/secret=([A-Z2-7]+)/i)`, its first group; the search starts at from. */
  function MatchFrom(s: string, from: nat): Option<string>
    decreases |s| - from
  {
    if from + 8 > |s| then None
    else if KeyAt(s, from) then Some(Run(s[from + 7..]))
    else MatchFrom(s, from + 1)
  }

  function SecretMatch(s: string): Option<string>
  {
    MatchFrom(s, 0)
  }

  /**
   * The match is the leftmost: there is one iff `secret=` and a secret
   * character occur somewhere, and then the group is the greedy run after
   * the first such occurrence.
   */
  lemma SecretMatchLeftmost(s: string)
    ensures SecretMatch(s).None? <==> forall i: nat :: !KeyAt(s, i)
    ensures SecretMatch(s).Some? ==> exists i: nat ::
      KeyAt(s, i) && (forall j: nat :: j < i ==> !KeyAt(s, j)) && SecretMatch(s).value == Run(s[i + 7..])
  {
    MatchFromLeftmost(s, 0);
  }

  lemma {:induction false} MatchFromLeftmost(s: string, from: nat)
    requires forall j: nat :: j < from ==> !KeyAt(s, j)
    ensures MatchFrom(s, from).None? <==> forall i: nat :: !KeyAt(s, i)
    ensures MatchFrom(s, from).Some? ==> exists i: nat ::
      KeyAt(s, i) && (forall j: nat :: j < i ==> !KeyAt(s, j)) && MatchFrom(s, from).value == Run(s[i + 7..])
    decreases |s| - from
  {
    if from + 8 > |s| {
      assert forall i: nat :: !KeyAt(s, i) by {
        forall i: nat
          ensures !KeyAt(s, i)
        {
          if i >= from {
            assert i + 8 > |s|;
          }
        }
      }
    } else if !KeyAt(s, from) {
      assert forall j: nat :: j < from + 1 ==> !KeyAt(s, j) by {
        forall j: nat | j < from + 1
          ensures !KeyAt(s, j)
        {
          if j < from {
          }
        }
      }
      MatchFromLeftmost(s, from + 1);
    }
  }

  /** The captured secret is a non-empty run of secret characters found in the input. */
  lemma MatchIsSecret(s: string)
    requires SecretMatch(s).Some?
    ensures |SecretMatch(s).value| >= 1
    ensures forall k :: 0 <= k < |SecretMatch(s).value| ==> IsSecretChar(SecretMatch(s).value[k])
  {
    SecretMatchLeftmost(s);
    var i: nat :| KeyAt(s, i) && SecretMatch(s).value == Run(s[i + 7..]);
    assert IsSecretChar(s[i + 7..][0]);
  }

  // ----- the two entry points ----------------------------------------------

  /** The catch branch of `parseOTPAuthURI`: the regex match, or the whole input, as the secret. */
  function Fallback(uri: string): OtpParams
  {
    var m := SecretMatch(uri);
    OtpParams(if m.Some? then m.value else uri, ScannedIssuer, ScannedLabel)
  }

  /**
   * `parseOTPAuthURI(uri)`, where url is what `new URL(uri)` yields and
   * decode is `decodeURIComponent`. A throw from either lands in the catch.
   */
  function ParseOtpAuthUri(uri: string, url: Option<ParsedUrl>, decode: string -> Option<string>): (r: OtpParams)
    ensures url.None? || !PathDecodes(url.value, decode) ==> r == Fallback(uri)
    ensures url.Some? && PathDecodes(url.value, decode) ==>
      && (Get(url.value.query, "secret").None? ==> r.secret == "")
      && (Get(url.value.query, "secret").Some? ==> r.secret == Get(url.value.query, "secret").value)
      && (forall v :: Get(url.value.query, "issuer") == Some(v) && v != "" ==> r.issuer == v)
  {
    match url
    case None => Fallback(uri)
    case Some(u) =>
      var parts := Split(DropSlash(u.pathname), ':');
      var names: Option<(string, string)> :=
        if |parts| == 2 then
          (match (decode(parts[0]), decode(parts[1]))
           case (Some(i), Some(l)) => Some((i, l))
           case _ => None)
        else if |parts| == 1 then
          (match decode(parts[0])
           case Some(l) => Some(("", l))
           case None => None)
        else Some(("", ""));
      match names
      case None => Fallback(uri)
      case Some((pathIssuer, account)) =>
        var secret := Get(u.query, "secret");
        var paramIssuer := Get(u.query, "issuer");
        var issuer := if paramIssuer.Some? && paramIssuer.value != "" then paramIssuer.value else pathIssuer;
        OtpParams(if secret.Some? then secret.value else "", issuer, account)
  }

  /** `decodeURIComponent` succeeds on every path segment that `parseOTPAuthURI` decodes. */
  predicate PathDecodes(u: ParsedUrl, decode: string -> Option<string>)
  {
    var parts := Split(DropSlash(u.pathname), ':');
    && (|parts| == 2 ==> decode(parts[0]).Some? && decode(parts[1]).Some?)
    && (|parts| == 1 ==> decode(parts[0]).Some?)
  }

  /** `extractSecretFromURI(uri)`: None stands for a non-string input, on which `match` throws. */
  function ExtractSecretFromUri(uri: Option<string>): (r: Option<string>)
    ensures uri.None? ==> r.None?
    ensures uri.Some? ==> r == SecretMatch(uri.value)
  {
    if uri.None? then None else SecretMatch(uri.value)
  }

  // ----- properties --------------------------------------------------------

  /** With a path `Issuer:label` and a decoder that changes nothing, the two pieces are read back. */
  lemma IssuerAndLabel(uri: string, u: ParsedUrl, decode: string -> Option<string>)
    requires Occurrences(DropSlash(u.pathname), ':') == 1
    requires forall x :: decode(x) == Some(x)
    requires Get(u.query, "issuer").None?
    ensures var r := ParseOtpAuthUri(uri, Some(u), decode);
      DropSlash(u.pathname) == r.issuer + [':'] + r.account && ':' !in r.issuer && ':' !in r.account
  {
    var path := DropSlash(u.pathname);
    var parts := Split(path, ':');
    SplitPieces(path, ':');
    SplitJoin(path, ':');
    assert parts[1..] == [parts[1]];
  }

  /**
   * A path `Issuer:label` with any decoder: both pieces are decoded, and a
   * decoder failure on either sends the whole input to the fallback.
   */
  lemma TwoSegments(uri: string, u: ParsedUrl, decode: string -> Option<string>)
    requires Occurrences(DropSlash(u.pathname), ':') == 1
    ensures var parts := Split(DropSlash(u.pathname), ':');
      var r := ParseOtpAuthUri(uri, Some(u), decode);
      && |parts| == 2
      && (decode(parts[0]).None? || decode(parts[1]).None? ==> r == Fallback(uri))
      && (decode(parts[0]).Some? && decode(parts[1]).Some? ==>
            && r.account == decode(parts[1]).value
            && (Get(u.query, "issuer") in {None, Some("")} ==> r.issuer == decode(parts[0]).value))
  {
    SplitPieces(DropSlash(u.pathname), ':');
  }

  /** A path without `:` is all label; the issuer then comes only from the query. */
  lemma LabelOnly(uri: string, u: ParsedUrl, decode: string -> Option<string>)
    requires Occurrences(DropSlash(u.pathname), ':') == 0
    requires decode(DropSlash(u.pathname)).Some?
    ensures var r := ParseOtpAuthUri(uri, Some(u), decode);
      r.account == decode(DropSlash(u.pathname)).value
      && (r.issuer == "" <==> Get(u.query, "issuer") in {None, Some("")})
  {
    var path := DropSlash(u.pathname);
    SplitPieces(path, ':');
    SplitJoin(path, ':');
  }

  /** Two or more `:` in the path leave both names empty, unless the query names an issuer. */
  lemma TooManySegments(uri: string, u: ParsedUrl, decode: string -> Option<string>)
    requires Occurrences(DropSlash(u.pathname), ':') >= 2
    ensures var r := ParseOtpAuthUri(uri, Some(u), decode);
      r.account == "" && (Get(u.query, "issuer") in {None, Some("")} ==> r.issuer == "")
  {
    SplitPieces(DropSlash(u.pathname), ':');
  }

  /**
   * Once the path is read, the secret is the value of the first `secret`
   * pair, or "" without one, and a non-empty `issuer` parameter wins.
   */
  lemma SecretParameter(uri: string, u: ParsedUrl, decode: string -> Option<string>)
    requires PathDecodes(u, decode)
    ensures var r := ParseOtpAuthUri(uri, Some(u), decode);
      && r.secret == (if Get(u.query, "secret").Some? then Get(u.query, "secret").value else "")
      && (r.secret == "" <== forall k :: 0 <= k < |u.query| ==> u.query[k].0 != "secret")
      && (Get(u.query, "secret").Some? ==>
            exists k :: 0 <= k < |u.query| && u.query[k] == ("secret", r.secret)
                        && forall j :: 0 <= j < k ==> u.query[j].0 != "secret")
      && (forall v :: Get(u.query, "issuer") == Some(v) && v != "" ==> r.issuer == v)
  {
  }

  /** When the parser throws, the secret is the regex group if there is one, else the whole input. */
  lemma UnparsableUri(uri: string, decode: string -> Option<string>)
    ensures var r := ParseOtpAuthUri(uri, None, decode);
      r.issuer == ScannedIssuer && r.account == ScannedLabel
      && (r.secret == uri <== forall i: nat :: !KeyAt(uri, i))
      && (forall i: nat :: KeyAt(uri, i) && (forall j: nat :: j < i ==> !KeyAt(uri, j)) ==> r.secret == Run(uri[i + 7..]))
  {
    SecretMatchLeftmost(uri);
  }
}
