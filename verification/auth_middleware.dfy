/**
 * The bearer-token guard in front of the protected routes (backend/src/middleware/auth.ts).
 * The token's signature and expiry check is an oracle `verify` from a token to the user id
 * it carries, or `None` where `jwt.verify` throws.
 */
module AuthMiddleware {
  import opened Wrappers
  import opened Text

  const NoToken := "No token provided"
  const TokenError := "Token error"
  const Malformatted := "Token malformatted"
  const Invalid := "Token invalid"

  /** The request is answered with 401 and an error, or passed on with its user id. */
  datatype AuthOutcome = Rejected(status: int, error: string) | Proceed(userId: string)

  /**
   * `authMiddleware` on the `Authorization` header: it must be present, split on spaces into
   * exactly two parts, the first `Bearer` in any case, the second a token `verify` accepts.
   */
  function Authenticate(header: Option<string>, verify: string -> Option<string>): (r: AuthOutcome)
    ensures r.Rejected? ==> r.status == 401
    ensures r == Rejected(401, NoToken) <==> !Truthy(header)
    ensures Truthy(header) && Count(header.value, ' ') != 1 <==> r == Rejected(401, TokenError)
    ensures r.Proceed? ==>
              exists k :: && 0 <= k < |header.value| && header.value[k] == ' '
                          && Count(header.value, ' ') == 1
                          && EqualsIgnoringCase(header.value[..k], "Bearer")
                          && verify(header.value[k + 1..]) == Some(r.userId)
  {
    if !Truthy(header) then Rejected(401, NoToken)
    else
      var parts := Split(header.value, ' ');
      SplitCount(header.value, ' ');
      if |parts| != 2 then Rejected(401, TokenError)
      else if !EqualsIgnoringCase(parts[0], "Bearer") then Rejected(401, Malformatted)
      else match verify(parts[1])
        case None => Rejected(401, Invalid)
        case Some(id) =>
          assert exists k :: 0 <= k < |header.value| && header.value[k] == ' ' && parts == [header.value[..k], header.value[k + 1..]] by {
            var k :| 0 <= k < |header.value| && header.value[k] == ' ';
            SplitAtSoleSeparator(header.value, ' ', k);
          }
          Proceed(id)
  }

  /**
   * A header made of a scheme, one space and a token, neither holding a space, is judged
   * on the scheme first and then on the token alone.
   */
  lemma SchemeAndToken(scheme: string, token: string, verify: string -> Option<string>)
    requires ' ' !in scheme && ' ' !in token
    ensures Authenticate(Some(scheme + " " + token), verify) ==
              if !EqualsIgnoringCase(scheme, "Bearer") then Rejected(401, Malformatted)
              else if verify(token).None? then Rejected(401, Invalid)
              else Proceed(verify(token).value)
  {
    var h := scheme + " " + token;
    CountConcat(scheme + " ", token, ' ');
    CountConcat(scheme, " ", ' ');
    assert Count(" ", ' ') == 1;
    assert h[|scheme|] == ' ';
    SplitAtSoleSeparator(h, ' ', |scheme|);
    assert h[..|scheme|] == scheme && h[|scheme| + 1..] == token;
  }

  /** Any spelling of the scheme is accepted: `bearer` as well as `Bearer`. */
  lemma SchemeCaseIgnored(token: string, verify: string -> Option<string>)
    requires ' ' !in token
    ensures Authenticate(Some("bearer " + token), verify) == Authenticate(Some("Bearer " + token), verify)
  {
    var lower, upper := "bearer", "Bearer";
    assert ' ' !in lower && ' ' !in upper;
    assert EqualsIgnoringCase(lower, "Bearer") && EqualsIgnoringCase(upper, "Bearer") by {
      forall i | 0 <= i < 6 ensures AsciiUpper(lower[i]) == AsciiUpper(upper[i]) {
      }
    }
    SchemeAndToken(lower, token, verify);
    SchemeAndToken(upper, token, verify);
    assert lower + " " + token == "bearer " + token by {
      assert lower + " " == "bearer ";
    }
    assert upper + " " + token == "Bearer " + token by {
      assert upper + " " == "Bearer ";
    }
  }
}
