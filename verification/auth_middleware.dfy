/** The two request guards of the backend: `authRequired` reads the
    `Authorization: Bearer <token>` header, verifies the token and attaches
    its claims to the request; `adminOnly` lets only an `ADMIN` through.
    Token verification (signature and expiry) is a library this model does
    not contain: it is passed in as a function that yields the claims, or
    nothing when verification throws. */
module AuthMiddleware {
  import opened Common
  import AuthController

  type Claims = AuthController.TokenPayload

  const MissingTokenMessage := "Token no proporcionado"
  const BadFormatMessage := "Formato de autorización inválido"
  const BadTokenMessage := "Token inválido o expirado"
  const AdminRequiredMessage := "Requiere rol ADMIN"

  /** `s.split(sep)` for a one-character separator. */
  function Split(s: string, sep: char): (parts: seq<string>)
    ensures |parts| >= 1
    decreases |s|
  {
    if s == [] then [""]
    else
      var rest := Split(s[1..], sep);
      if s[0] == sep then [""] + rest else [[s[0]] + rest[0]] + rest[1..]
  }

  /** `parts.join(sep)`. */
  function Join(parts: seq<string>, sep: char): string
    requires |parts| >= 1
    decreases |parts|
  {
    if |parts| == 1 then parts[0] else parts[0] + [sep] + Join(parts[1..], sep)
  }

  /** Splitting loses nothing: joining the parts back gives the header. */
  lemma {:induction false} JoinSplit(s: string, sep: char)
    ensures Join(Split(s, sep), sep) == s
    decreases |s|
  {
    if s != [] {
      var rest := Split(s[1..], sep);
      JoinSplit(s[1..], sep);
      if s[0] != sep {
        var parts := [[s[0]] + rest[0]] + rest[1..];
        if |rest| > 1 {
          assert parts[1..] == rest[1..];
        }
      } else {
        assert ([""] + rest)[1..] == rest;
      }
    }
  }

  /** No part contains the separator. */
  lemma {:induction false} SplitPartsFree(s: string, sep: char)
    ensures forall k :: 0 <= k < |Split(s, sep)| ==> sep !in Split(s, sep)[k]
    decreases |s|
  {
    if s != [] {
      SplitPartsFree(s[1..], sep);
    }
  }

  /** A separator-free prefix followed by the separator becomes the first part. */
  lemma {:induction false} SplitAfterWord(a: string, sep: char, b: string)
    requires sep !in a
    ensures Split(a + [sep] + b, sep) == [a] + Split(b, sep)
    ensures Split(a, sep) == [a]
    decreases |a|
  {
    if a != [] {
      assert (a + [sep] + b)[1..] == a[1..] + [sep] + b;
      SplitAfterWord(a[1..], sep, b);
      assert [a[0]] + a[1..] == a;
    }
  }

  /** The token that `const [scheme, token] = authHeader.split(" ")` and the
      test `scheme !== "Bearer" || !token` accept. */
  function BearerToken(header: string): (t: Option<string>)
    ensures t.Some? ==> t.value != "" && ' ' !in t.value
  {
    var parts := Split(header, ' ');
    SplitPartsFree(header, ' ');
    if parts[0] == "Bearer" && |parts| >= 2 && parts[1] != "" then Some(parts[1]) else None
  }

  /** Every token-shaped header is accepted with its token, whatever
      space-separated text follows it. */
  lemma BearerTokenOfWellFormed(t: string, rest: string)
    requires t != "" && ' ' !in t
    requires rest == [] || rest[0] == ' '
    ensures BearerToken("Bearer " + t + rest) == Some(t)
  {
    assert "Bearer " + t + rest == "Bearer" + [' '] + (t + rest);
    SplitAfterWord("Bearer", ' ', t + rest);
    if rest == [] {
      assert t + rest == t;
      SplitAfterWord(t, ' ', []);
    } else {
      assert t + rest == t + [' '] + rest[1..];
      SplitAfterWord(t, ' ', rest[1..]);
    }
    var parts := Split("Bearer " + t + rest, ' ');
    assert parts == ["Bearer"] + Split(t + rest, ' ');
    assert parts[0] == "Bearer" && parts[1] == t;
  }

  /** An accepted header is `Bearer `, the token, and then nothing or more
      space-separated text (which is ignored). */
  lemma BearerTokenShape(header: string)
    requires BearerToken(header).Some?
    ensures var t := BearerToken(header).value;
      exists rest: string :: header == "Bearer " + t + rest && (rest == [] || rest[0] == ' ')
  {
    var parts := Split(header, ' ');
    var t := parts[1];
    JoinSplit(header, ' ');
    if |parts| == 2 {
      assert parts[1..][1..] == [];
      assert header == "Bearer " + t + [];
    } else {
      var rest := [' '] + Join(parts[2..], ' ');
      assert parts[1..][1..] == parts[2..];
      assert header == "Bearer " + t + rest;
    }
  }

  datatype AuthOutcome = Reject(status: nat, message: string) | Proceed(claims: Claims)

  /** The decision of `authRequired` for an `Authorization` header (absent
      or present) and a token verifier. */
  function Authenticate(header: Option<string>, verify: string -> Option<Claims>): (r: AuthOutcome)
    ensures header.None? || header.value == "" ==> r == Reject(401, MissingTokenMessage)
    ensures r.Proceed? <==>
      header.Some? && BearerToken(header.value).Some? && verify(BearerToken(header.value).value).Some?
    ensures r.Proceed? ==> r.claims == verify(BearerToken(header.value).value).value
    ensures r.Reject? ==> r.status == 401
    ensures header.Some? && header.value != "" && BearerToken(header.value).None? ==> r == Reject(401, BadFormatMessage)
    ensures header.Some? && header.value != "" && BearerToken(header.value).Some? && verify(BearerToken(header.value).value).None? ==>
      r == Reject(401, BadTokenMessage)
  {
    if header.None? || header.value == "" then Reject(401, MissingTokenMessage)
    else match BearerToken(header.value)
      case None => Reject(401, BadFormatMessage)
      case Some(token) =>
        match verify(token)
        case None => Reject(401, BadTokenMessage)
        case Some(claims) => Proceed(claims)
  }

  /** The decision of `adminOnly`. */
  predicate AdminAllowed(user: Option<Claims>)
  {
    user.Some? && user.value.role == "ADMIN"
  }

  datatype Reply = Reply(status: nat, message: string)

  /** One request passing through the guards: `user` is `req.user`, `reply`
      what was sent with `res.status(..).json(..)`, and `nextCalls` counts
      calls of `next`. */
  class Exchange {
    var authorization: Option<string>
    var user: Option<Claims>
    var reply: Option<Reply>
    var nextCalls: nat

    constructor (authorization: Option<string>)
      ensures this.authorization == authorization && user == None && reply == None && nextCalls == 0
    {
      this.authorization := authorization;
      user, reply, nextCalls := None, None, 0;
    }

    /** `authRequired`: on success sets `req.user` and calls `next` once; on
        every failure replies 401 and does not call `next`. */
    method AuthRequired(verify: string -> Option<Claims>)
      modifies this
      ensures authorization == old(authorization)
      ensures Authenticate(authorization, verify).Proceed? ==>
        && user == Some(Authenticate(authorization, verify).claims)
        && nextCalls == old(nextCalls) + 1 && reply == old(reply)
      ensures Authenticate(authorization, verify).Reject? ==>
        && user == old(user) && nextCalls == old(nextCalls)
        && reply == Some(Reply(401, Authenticate(authorization, verify).message))
    {
      var outcome := Authenticate(authorization, verify);
      match outcome {
        case Reject(status, message) =>
          reply := Some(Reply(status, message));
        case Proceed(claims) =>
          user := Some(claims);
          nextCalls := nextCalls + 1;
      }
    }

    /** `adminOnly`: replies 403 unless `req.user` has role `ADMIN`. */
    method AdminOnly()
      modifies this
      ensures authorization == old(authorization) && user == old(user)
      ensures AdminAllowed(user) ==> nextCalls == old(nextCalls) + 1 && reply == old(reply)
      ensures !AdminAllowed(user) ==> nextCalls == old(nextCalls) && reply == Some(Reply(403, AdminRequiredMessage))
    {
      if !AdminAllowed(user) {
        reply := Some(Reply(403, AdminRequiredMessage));
        return;
      }
      nextCalls := nextCalls + 1;
    }
  }

  /** A well-formed header carrying a token the verifier accepts lets the
      request through with exactly the verified claims. */
  lemma WellFormedHeaderProceeds(t: string, verify: string -> Option<Claims>)
    requires t != "" && ' ' !in t
    requires verify(t).Some?
    ensures Authenticate(Some("Bearer " + t), verify) == Proceed(verify(t).value)
  {
    BearerTokenOfWellFormed(t, []);
    assert "Bearer " + t + [] == "Bearer " + t;
  }
}
