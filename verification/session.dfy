/** Session resolution: the Cookie-header parser, the session token sent to
    the auth server, and the mapping from the auth server's reply to the tagged
    session result.

    The call to the auth server is not modelled; its reply (status, the
    `session.user` of its JSON body, and its body text) is an input. The name
    of the session cookie comes from a constants file that is not part of this
    model, so it is a parameter. */
module Session {
  import opened Values
  import opened Strings
  import opened Types

  /** Parsed cookies: each name maps to its value, or to `None` for a piece
      without "=" (JavaScript stores `undefined` there). */
  type Cookies = map<string, Option<string>>

  /** The one key a plain JavaScript object cannot store: assigning a string
      to `__proto__` hits the prototype setter and is ignored. */
  const PrototypeKey := "__proto__"

  /** One trimmed piece split on "=": the first part is the name, the second
      (if any) the value; later parts are dropped. */
  function CookiePair(piece: string): (string, Option<string>)
  {
    var parts := Split(Trim(piece), '=');
    (parts[0], if |parts| >= 2 then Some(parts[1]) else None)
  }

  /** `acc[key] = value` on a plain object. */
  function Store(acc: Cookies, key: string, value: Option<string>): Cookies
  {
    if key == PrototypeKey then acc else acc[key := value]
  }

  /** The `reduce` over the pieces, written as a left fold. */
  function Collect(pieces: seq<string>): Cookies
  {
    if |pieces| == 0 then map[]
    else
      var (k, v) := CookiePair(pieces[|pieces| - 1]);
      Store(Collect(pieces[..|pieces| - 1]), k, v)
  }

  /** `getCookies`: the Cookie header split on ";", each piece trimmed and
      split on "=", folded into an object; no header gives the empty object. */
  function ParseCookies(header: Option<string>): (r: Cookies)
    ensures header.None? ==> r == map[]
    ensures header.Some? ==> PrototypeKey !in r
    ensures header.Some? ==>
      forall key :: key != PrototypeKey ==> Lookup(r, key) == LastBinding(Split(header.value, ';'), key)
  {
    match header
    case None => map[]
    case Some(h) =>
      CollectNeverPrototype(Split(h, ';'));
      CollectLastWinsEveryKey(Split(h, ';'));
      Collect(Split(h, ';'))
  }

  /** The binding the last piece named `key` gives, scanning from the end:
      an independent statement of "the last occurrence wins". */
  function LastBinding(pieces: seq<string>, key: string): Option<Option<string>>
  {
    if |pieces| == 0 then None
    else if CookiePair(pieces[|pieces| - 1]).0 == key then Some(CookiePair(pieces[|pieces| - 1]).1)
    else LastBinding(pieces[..|pieces| - 1], key)
  }

  function Lookup(c: Cookies, key: string): Option<Option<string>>
  {
    if key in c then Some(c[key]) else None
  }

  /** No Cookie header gives no cookies. */
  lemma NoHeaderNoCookies()
    ensures ParseCookies(None) == map[]
  {
  }

  /** Every name except `__proto__` is bound to the value of its last piece,
      and a name no piece carries is unbound. */
  lemma {:induction false} CollectLastWins(pieces: seq<string>, key: string)
    requires key != PrototypeKey
    ensures Lookup(Collect(pieces), key) == LastBinding(pieces, key)
    decreases |pieces|
  {
    if |pieces| > 0 {
      CollectLastWins(pieces[..|pieces| - 1], key);
    }
  }

  /** `CollectLastWins` for every name at once. */
  lemma CollectLastWinsEveryKey(pieces: seq<string>)
    ensures forall key :: key != PrototypeKey ==> Lookup(Collect(pieces), key) == LastBinding(pieces, key)
  {
    forall key | key != PrototypeKey
      ensures Lookup(Collect(pieces), key) == LastBinding(pieces, key)
    {
      CollectLastWins(pieces, key);
    }
  }

  /** `__proto__` never becomes a cookie name. */
  lemma {:induction false} CollectNeverPrototype(pieces: seq<string>)
    ensures PrototypeKey !in Collect(pieces)
    decreases |pieces|
  {
    if |pieces| > 0 {
      CollectNeverPrototype(pieces[..|pieces| - 1]);
    }
  }

  /** Every name the parser produces is the first "="-part of a trimmed
      piece, so it contains no "=" and no ";"; every value contains neither
      either, so a value holding "=" is cut at it. */
  lemma {:induction false} CollectedPartsAreClean(pieces: seq<string>)
    requires forall i :: 0 <= i < |pieces| ==> ';' !in pieces[i]
    ensures forall k :: k in Collect(pieces) ==> '=' !in k && ';' !in k
    ensures forall k :: k in Collect(pieces) && Collect(pieces)[k].Some? ==>
      '=' !in Collect(pieces)[k].value && ';' !in Collect(pieces)[k].value
    decreases |pieces|
  {
    if |pieces| > 0 {
      var last := pieces[|pieces| - 1];
      CollectedPartsAreClean(pieces[..|pieces| - 1]);
      var t := Trim(last);
      var parts := Split(t, '=');
      SplitKeepsAbsent(t, '=', ';');
    }
  }

  /** A character absent from a string is absent from each of its pieces. */
  lemma {:induction false} SplitKeepsAbsent(s: string, sep: char, c: char)
    requires c !in s
    ensures forall i :: 0 <= i < |Split(s, sep)| ==> c !in Split(s, sep)[i]
    decreases |s|
  {
    if |s| > 0 {
      assert c !in s[1..];
      SplitKeepsAbsent(s[1..], sep, c);
    }
  }

  /** A piece `name=value` followed by nothing or by a further "=..." part
      yields exactly that name and value: spaces next to the first "=" stay
      in the name and the value, and the value stops at the next "=". */
  lemma CookiePairSplitsAtFirstEquals(name: string, value: string, rest: string)
    requires '=' !in name && '=' !in value
    requires rest == "" || rest[0] == '='
    requires var piece := name + "=" + value + rest;
      !IsWhitespace(piece[0]) && !IsWhitespace(piece[|piece| - 1])
    ensures CookiePair(name + "=" + value + rest) == (name, Some(value))
  {
    var piece := name + "=" + value + rest;
    TrimUntrimmed(piece);
    assert piece == name + ['='] + (value + rest);
    SplitAfterPiece(name, '=', value + rest);
    if rest == "" {
      assert value + rest == value;
      SplitWithoutSeparator(value, '=');
    } else {
      assert value + rest == value + ['='] + rest[1..];
      SplitAfterPiece(value, '=', rest[1..]);
    }
  }

  /** The token sent upstream: the session cookie's value, or "" when the
      cookie is absent or has no value (`cookies[name] || ""`). */
  function SessionToken(cookies: Cookies, name: string): (token: string)
    ensures name in cookies && cookies[name].Some? ==> token == cookies[name].value
    ensures (name !in cookies || cookies[name].None?) ==> token == ""
  {
    if name in cookies && cookies[name].Some? then cookies[name].value else ""
  }

  /** The Cookie header of the request to the auth server. */
  function UpstreamCookie(token: string): string
  {
    "session_id=" + token + ";"
  }

  /** The upstream header splits into the one cookie piece and an empty
      rest. */
  lemma UpstreamPieces(token: string)
    requires ';' !in token
    ensures Split(UpstreamCookie(token), ';') == ["session_id=" + token, ""]
  {
    var piece := "session_id=" + token;
    assert UpstreamCookie(token) == piece + [';'] + "";
    assert ';' !in piece;
    SplitAfterPiece(piece, ';', "");
    SplitWithoutSeparator("", ';');
  }

  /** The upstream cookie piece reads back as the session cookie with the
      token as its value. */
  lemma UpstreamPieceParses(token: string)
    requires '=' !in token
    requires token != "" ==> !IsWhitespace(token[|token| - 1])
    ensures CookiePair("session_id=" + token) == ("session_id", Some(token))
  {
    var piece := "session_id=" + token;
    TrimUntrimmed(piece);
    assert "session_id" + ['='] + token == piece;
    assert '=' !in "session_id";
    SplitAfterPiece("session_id", '=', token);
    SplitWithoutSeparator(token, '=');
  }

  /** The upstream header carries the token in a form the same parser reads
      back, provided the token holds no ";" or "=" and does not end in
      whitespace (the trim would drop it). */
  lemma UpstreamCookieRoundTrip(token: string)
    requires ';' !in token && '=' !in token
    requires token != "" ==> !IsWhitespace(token[|token| - 1])
    ensures SessionToken(ParseCookies(Some(UpstreamCookie(token))), "session_id") == token
  {
    var piece := "session_id=" + token;
    UpstreamPieces(token);
    UpstreamPieceParses(token);
    var pieces := [piece, ""];
    CollectLastWins(pieces, "session_id");
    assert pieces[..1] == [piece];
    assert LastBinding(pieces, "session_id") == Some(Some(token));
  }

  /** The auth server's reply: its status, the `session.user` of its JSON
      body, and its body as text. */
  datatype AuthReply = AuthReply(status: int, sessionUser: User, text: string)

  /** `getServerSession` after the fetch: authenticated with the reply's user
      exactly when the status is 200, otherwise unauthenticated with the body
      text as the error. */
  function ResolveSession(reply: AuthReply): (s: Session)
    ensures s.Authenticated? <==> reply.status == 200
    ensures s.Authenticated? ==> s.user == reply.sessionUser && s.Error().None?
    ensures s.Unauthenticated? ==> s.Data().None? && s.Error() == Some(reply.text)
  {
    if reply.status == 200 then Authenticated(reply.sessionUser)
    else Unauthenticated(Some(reply.text))
  }
}
