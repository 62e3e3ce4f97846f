/** The parts of an Express request the guards read: the Authorization header
    and the cookies parsed by cookie-parser. */
module Http {
  import opened Wrappers
  import opened Strings

  datatype Request = Request(authorization: Option<string>, cookies: map<string, string>)

  const BearerPrefix: string := "Bearer "

  /** The access token of `Authorization: Bearer <token>`: the header split on single
      spaces must have "Bearer" as first piece and a non-empty second piece; pieces after
      the second are ignored. */
  function BearerToken(authorization: Option<string>): (r: Option<string>)
    ensures r.Some? <==>
      authorization.Some? && |authorization.value| > 7 &&
      StartsWith(authorization.value, BearerPrefix) && authorization.value[7] != ' '
    ensures r.Some? ==>
      var h := authorization.value;
      |r.value| > 0 && ' ' !in r.value && StartsWith(h, BearerPrefix + r.value) &&
      (|h| == 7 + |r.value| || h[7 + |r.value|] == ' ')
  {
    match authorization
    case None => None
    case Some(h) =>
      var parts := Split(h, ' ');
      SplitFirstPieces(h, ' ');
      BearerSplit(h);
      if parts[0] == "Bearer" && |parts| >= 2 && parts[1] != "" then Some(parts[1]) else None
  }

  /** A header that starts with "Bearer " has its first space at index 6. */
  lemma BearerFirstSpace(h: string)
    requires StartsWith(h, BearerPrefix)
    ensures IndexOf(h, ' ') == 6
  {
    assert h[..7] == BearerPrefix;
    forall m | 0 <= m < 6 ensures h[m] != ' ' {
      assert h[m] == h[..7][m];
    }
    IndexOfAt(h, ' ', 6);
  }

  /** The second piece of a header starting with "Bearer ". */
  lemma BearerSecondPiece(h: string)
    requires StartsWith(h, BearerPrefix)
    ensures Split(h, ' ')[0] == "Bearer" && ' ' in h && |Split(h, ' ')| >= 2
    ensures
      var rest := h[7..];
      var j := IndexOf(rest, ' ');
      Split(h, ' ')[1] == rest[..j] && (j > 0 <==> |h| > 7 && h[7] != ' ') &&
      h[..7 + j] == BearerPrefix + rest[..j]
  {
    BearerFirstSpace(h);
    var rest := h[7..];
    assert Split(h, ' ') == [h[..6]] + Split(rest, ' ');
    assert h[..6] == h[..7][..6];
    assert h[6] == h[..7][6];
    SplitFirstPieces(rest, ' ');
    var j := IndexOf(rest, ' ');
    assert h[..7 + j] == h[..7] + rest[..j];
  }

  /** How the first two pieces of the split header relate to the header text. */
  lemma BearerSplit(h: string)
    ensures Split(h, ' ')[0] == "Bearer" && ' ' in h <==> StartsWith(h, BearerPrefix)
    ensures |Split(h, ' ')| >= 2 <==> ' ' in h
    ensures StartsWith(h, BearerPrefix) ==>
      |Split(h, ' ')| >= 2 &&
      var rest := h[7..];
      var j := IndexOf(rest, ' ');
      Split(h, ' ')[1] == rest[..j] && (j > 0 <==> |h| > 7 && h[7] != ' ') &&
      h[..7 + j] == BearerPrefix + rest[..j]
  {
    SplitFirstPieces(h, ' ');
    if StartsWith(h, BearerPrefix) {
      BearerSecondPiece(h);
    }
    if Split(h, ' ')[0] == "Bearer" && ' ' in h {
      var i := IndexOf(h, ' ');
      assert h[..i] == "Bearer";
      assert h[..7] == h[..i] + [h[i]];
    }
  }

  /** `const { refreshToken } = req.cookies; if (!refreshToken) throw`: the cookie must be
      present and non-empty. */
  function RefreshCookie(req: Request): (r: Option<string>)
    ensures r.Some? <==> "refreshToken" in req.cookies && req.cookies["refreshToken"] != ""
    ensures r.Some? ==> r.value == req.cookies["refreshToken"]
  {
    if "refreshToken" in req.cookies && req.cookies["refreshToken"] != "" then
      Some(req.cookies["refreshToken"])
    else None
  }

  /** `req.user`, the one field of the request a guard writes. */
  class RequestState<T> {
    var user: Option<T>

    constructor ()
      ensures user == None
    {
      user := None;
    }
  }
}
