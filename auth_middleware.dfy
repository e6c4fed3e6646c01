/**
 * The request-authentication gate (src/middlewares/authMiddleware.ts): reads an
 * `Authorization: Bearer <token>` header, verifies the token and attaches the
 * decoded user id to the request before handing on to the next handler.
 * Token verification (`jwt.verify`) is a parameter of the model.
 */
module AuthMiddleware {
  import opened Wrappers
  import opened Http

  const BearerPrefix := "Bearer "
  const MsgMalformed := "Token não fornecido ou malformatado."
  const MsgNoToken := "Token não fornecido."
  const MsgInvalidToken := "Token inválido ou expirado."

  /** `Array.prototype.join` with a one-character separator. */
  function Join(parts: seq<string>, sep: char): string
  {
    if |parts| == 0 then []
    else if |parts| == 1 then parts[0]
    else parts[0] + [sep] + Join(parts[1..], sep)
  }

  /**
   * `String.prototype.split` with a one-character separator: the pieces between
   * separators, empty ones included; joining them back gives the string.
   */
  function Split(s: string, sep: char): (parts: seq<string>)
    ensures |parts| >= 1
    ensures forall i :: 0 <= i < |parts| ==> sep !in parts[i]
    ensures Join(parts, sep) == s
  {
    if s == [] then [[]]
    else
      var rest := Split(s[1..], sep);
      if s[0] == sep then
        var parts := [[]] + rest;
        assert parts[1..] == rest;
        assert s == [] + [sep] + s[1..];
        parts
      else
        var parts := [[s[0]] + rest[0]] + rest[1..];
        assert parts[1..] == rest[1..];
        assert s == [s[0]] + s[1..];
        if |rest| == 1 then parts
        else
          assert Join(rest, sep) == rest[0] + [sep] + Join(rest[1..], sep);
          assert Join(parts, sep) == ([s[0]] + rest[0]) + [sep] + Join(rest[1..], sep);
          parts
  }

  /** The text of `s` before its first `sep` (all of `s` if there is none). */
  function TakeUntil(s: string, sep: char): (t: string)
    ensures t <= s && sep !in t
    ensures |t| == |s| || s[|t|] == sep
  {
    if s == [] || s[0] == sep then [] else [s[0]] + TakeUntil(s[1..], sep)
  }

  /** The first piece of a split is the text before the first separator. */
  lemma {:induction false} SplitHead(s: string, sep: char)
    ensures Split(s, sep)[0] == TakeUntil(s, sep)
  {
    if s != [] && s[0] != sep {
      SplitHead(s[1..], sep);
    }
  }

  /** Splitting after a separator-free prefix and a separator. */
  lemma {:induction false} SplitAfter(p: string, sep: char, q: string)
    requires sep !in p
    ensures Split(p + [sep] + q, sep) == [p] + Split(q, sep)
  {
    if p == [] {
      assert p + [sep] + q == [sep] + q;
      assert ([sep] + q)[1..] == q;
    } else {
      assert (p + [sep] + q)[1..] == p[1..] + [sep] + q;
      SplitAfter(p[1..], sep, q);
      assert [p[0]] + p[1..] == p;
    }
  }

  /**
   * Lines 11-19 of the middleware: the header must be present, non-empty and
   * start with "Bearer "; the token is `header.split(' ')[1]`, which must not be
   * empty. Either the token or the message of the 401 answer.
   */
  function ExtractToken(header: Option<string>): (r: Result<string, string>)
    ensures header.None? || !(BearerPrefix <= header.value) ==> r == Failure(MsgMalformed)
    ensures header.Some? && BearerPrefix <= header.value ==>
              var tail := header.value[|BearerPrefix|..];
              r == if tail == [] || tail[0] == ' ' then Failure(MsgNoToken) else Success(TakeUntil(tail, ' '))
  {
    if header.None? || header.value == [] || !(BearerPrefix <= header.value) then Failure(MsgMalformed)
    else
      var h := header.value;
      var parts := Split(h, ' ');
      var tail := h[|BearerPrefix|..];
      assert h == "Bearer" + [' '] + tail;
      SplitAfter("Bearer", ' ', tail);
      SplitHead(tail, ' ');
      // `parts[1]` exists: a header that starts with "Bearer " has a space.
      var token := parts[1];
      if token == [] then Failure(MsgNoToken) else Success(token)
  }

  /** The token is exactly the second field of the header split on single spaces. */
  lemma TokenIsSecondField(header: string)
    requires ExtractToken(Some(header)).Success?
    ensures |Split(header, ' ')| >= 2
    ensures ExtractToken(Some(header)).value == Split(header, ' ')[1]
    ensures ExtractToken(Some(header)).value != [] && ' ' !in ExtractToken(Some(header)).value
  {
    var tail := header[|BearerPrefix|..];
    assert header == "Bearer" + [' '] + tail;
    SplitAfter("Bearer", ' ', tail);
    SplitHead(tail, ' ');
  }

  /** "Bearer " alone and "Bearer  x" (two spaces) carry no token. */
  lemma EmptyTokenExamples()
    ensures ExtractToken(Some("Bearer ")) == Failure(MsgNoToken)
    ensures ExtractToken(Some("Bearer  x")) == Failure(MsgNoToken)
    ensures ExtractToken(Some("bearer x")) == Failure(MsgMalformed)
  {
    assert "Bearer "[|BearerPrefix|..] == [];
    assert "Bearer  x"[|BearerPrefix|..] == " x";
    assert "bearer x"[0] != BearerPrefix[0];
  }

  /** The request object the middleware decorates, and how often it handed on. */
  class AuthRequest {
    var userId: Option<string>
    /** How many times `next()` was called for this request. */
    var nextCalls: nat

    constructor ()
      ensures userId == None && nextCalls == 0
    {
      userId := None;
      nextCalls := 0;
    }
  }

  /**
   * `authMiddleware`. `secret` is `process.env.JWT_SECRET`; `verify(token, secret)`
   * is the id decoded from a valid token, or `None` where `jwt.verify` throws.
   * Rejection answers 401 and leaves the request alone; success sets
   * `req.userId` and calls `next` once.
   */
  method Authenticate(req: AuthRequest, header: Option<string>, secret: Option<string>,
                      verify: (string, string) -> Option<string>) returns (g: Gate)
    modifies req
    ensures g.Pass? <==> ExtractToken(header).Success? && Truthy(secret)
                         && verify(ExtractToken(header).value, secret.value).Some?
    ensures g.Pass? ==> req.userId == verify(ExtractToken(header).value, secret.value)
                        && req.nextCalls == old(req.nextCalls) + 1
    ensures g.Reject? ==> g.status == 401 && req.userId == old(req.userId)
                          && req.nextCalls == old(req.nextCalls)
    ensures g.Reject? && ExtractToken(header).Failure? ==> g.error == ExtractToken(header).error
    ensures g.Reject? && ExtractToken(header).Success? ==> g.error == MsgInvalidToken
  {
    var token := ExtractToken(header);
    if token.Failure? {
      return Reject(401, token.error);
    }
    if !Truthy(secret) {
      // the missing secret is thrown and caught as an invalid token
      return Reject(401, MsgInvalidToken);
    }
    var decoded := verify(token.value, secret.value);
    if decoded.None? {
      return Reject(401, MsgInvalidToken);
    }
    req.userId := decoded;
    req.nextCalls := req.nextCalls + 1;
    g := Pass;
  }
}
