/** The websocket endpoint: where the token comes from, the checks before a connection is made,
    and the team list the new client is registered with. Tokens are checked by the authentication
    service; the team listing and the HTTP upgrade are parameters. */
module WebSocketHandler {
  import opened Wrappers
  import opened DomainTeam
  import Text
  import AuthMiddleware
  import AuthService
  import WebSocketService

  /** The token of a websocket request: the `token` query parameter when non-empty, otherwise the
      Authorization header, without its "Bearer " prefix only when the header is longer than the
      prefix; a header without the prefix is used as it is. */
  function RequestToken(queryToken: string, authorization: string): (t: string)
    ensures queryToken != "" ==> t == queryToken
    ensures queryToken == "" && |authorization| > 7 && Text.HasPrefix(authorization, "Bearer ") ==>
              "Bearer " + t == authorization
    ensures queryToken == "" && !(|authorization| > 7 && Text.HasPrefix(authorization, "Bearer ")) ==>
              t == authorization
  {
    if queryToken != "" then queryToken
    else if |authorization| > 7 && authorization[..7] == "Bearer " then authorization[7..]
    else authorization
  }

  /** A header of the bare prefix is not stripped: the token is "Bearer " itself. */
  lemma BarePrefixKept()
    ensures RequestToken("", "Bearer ") == "Bearer "
  {
  }

  /** For a header with a non-empty bearer token the endpoint and the gRPC interceptor take the
      same token. */
  lemma HeaderTokenAgreesWithInterceptor(token: string, md: AuthMiddleware.Metadata)
    requires token != ""
    requires AuthMiddleware.AuthorizationHeader in md && |md[AuthMiddleware.AuthorizationHeader]| > 0
    requires md[AuthMiddleware.AuthorizationHeader][0] == "Bearer " + token
    ensures RequestToken("", "Bearer " + token) == token
    ensures AuthMiddleware.BearerToken(Some(md)) == Ok(token)
  {
    AuthMiddleware.BearerTokenRoundTrip(token, md);
    assert ("Bearer " + token)[..7] == "Bearer ";
    assert ("Bearer " + token)[7..] == token;
  }

  /** getUserTeamIDs: the ids of the user's teams, in the listing's order. A NotFound listing is
      the empty list; any other failure is passed on. `teams` is ListTeamsByUser's result. */
  method GetUserTeamIds(teams: Result<seq<Team>>) returns (r: Result<seq<string>>)
    ensures teams.Err? && teams.code == NotFound ==> r == Ok([])
    ensures teams.Err? && teams.code != NotFound ==> r == Err(teams.code)
    ensures teams.Ok? ==> r.Ok? && |r.value| == |teams.value|
                          && forall i :: 0 <= i < |teams.value| ==> r.value[i] == teams.value[i].id
  {
    if teams.Err? {
      if teams.code == NotFound {
        return Ok([]);
      }
      return Err(teams.code);
    }
    var ids := new string[|teams.value|];
    for i := 0 to |teams.value|
      invariant forall k :: 0 <= k < i ==> ids[k] == teams.value[k].id
    {
      ids[i] := teams.value[i].id;
    }
    r := Ok(ids[..]);
  }

  /** The answer to a websocket request: an HTTP error status, or the client now registered. */
  datatype Response = HttpError(status: int) | Connected(client: WebSocketService.Client)

  class Handler {
    const hub: WebSocketService.Hub
    const auth: AuthService.Service

    constructor (hub: WebSocketService.Hub, auth: AuthService.Service)
      ensures this.hub == hub && this.auth == auth
    {
      this.hub := hub;
      this.auth := auth;
    }

    /** HandleWebSocket: 401 for an empty token, a token the authentication service rejects, or
        claims without a user id; 500 when the teams cannot be listed or the upgrade fails;
        otherwise a fresh client with the user's id and team ids is registered with the hub.
        `teams` is ListTeamsByUser's result. */
    method HandleWebSocket(queryToken: string, authorization: string,
                           teams: Result<seq<Team>>, upgradeFails: bool)
      returns (r: Response)
      requires hub.Valid()
      modifies hub
      ensures hub.Valid()
      ensures RequestToken(queryToken, authorization) == "" ==> r == HttpError(401)
      ensures var token := RequestToken(queryToken, authorization);
              token != "" && (auth.TokenCheck(token).Err? || auth.TokenCheck(token).value.userId == "") ==>
                r == HttpError(401)
      ensures r.HttpError? ==> hub.clients == old(hub.clients)
      ensures r.Connected? <==> RequestToken(queryToken, authorization) != ""
                                && auth.TokenCheck(RequestToken(queryToken, authorization)).Ok?
                                && auth.TokenCheck(RequestToken(queryToken, authorization)).value.userId != ""
                                && (teams.Ok? || teams.code == NotFound) && !upgradeFails
      ensures r.Connected? ==>
                && fresh(r.client) && hub.clients == old(hub.clients) + {r.client}
                && r.client.userId == auth.TokenCheck(RequestToken(queryToken, authorization)).value.userId
                && (teams.Err? ==> r.client.teamIds == [])
                && (teams.Ok? ==> |r.client.teamIds| == |teams.value|
                                  && forall i :: 0 <= i < |teams.value| ==> r.client.teamIds[i] == teams.value[i].id)
    {
      var token := RequestToken(queryToken, authorization);
      if token == "" {
        return HttpError(401);
      }
      var claims := auth.ValidateToken(token);
      if claims.Err? {
        return HttpError(401);
      }
      if claims.value.userId == "" {
        return HttpError(401);
      }
      var teamIds := GetUserTeamIds(teams);
      if teamIds.Err? {
        return HttpError(500);
      }
      if upgradeFails {
        return HttpError(500);
      }
      var c := hub.Connect(claims.value.userId, teamIds.value);
      r := Connected(c);
    }
  }
}
