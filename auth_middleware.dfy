/** The authentication interceptor: which methods are public, how the bearer token is taken from
    the request metadata, and what the handler finds in its context afterwards. Token validation
    (JWT) is a function parameter. */
module AuthMiddleware {
  import opened Wrappers
  import Text

  const AuthorizationHeader := "authorization"
  const BearerPrefix := "Bearer "

  const UserIdKey := "user_id"
  const UsernameKey := "username"
  const EmailKey := "email"

  /** A value stored in a request context: a string or a value of some other type. */
  datatype ContextValue = StringValue(s: string) | OtherValue

  /** The values a request context carries, by key. */
  type Context = map<string, ContextValue>

  /** Incoming gRPC metadata; keys are lower-case, each with its list of values. */
  type Metadata = map<string, seq<string>>

  /** What a valid token carries. */
  datatype Claims = Claims(userId: string, username: string, email: string)

  /** The methods served without authentication, in the order the interceptor lists them. */
  const SkipAuthMethods: seq<string> := ["/todo.v1.AuthService/Register", "/todo.v1.AuthService/Login",
                                         "/todo.v1.SystemService/HealthCheck"]

  /** shouldSkipAuth: exactly Register, Login and HealthCheck are public. */
  function ShouldSkipAuth(fullMethod: string): (b: bool)
    ensures b <==> fullMethod == "/todo.v1.AuthService/Register" || fullMethod == "/todo.v1.AuthService/Login"
                   || fullMethod == "/todo.v1.SystemService/HealthCheck"
  {
    Text.ListContains(SkipAuthMethods, fullMethod)
  }

  /** The token of the first authorization header, with the bearer prefix removed. Missing
      metadata, no authorization header, or a header without the prefix is Unauthenticated. */
  function BearerToken(md: Option<Metadata>): (r: Result<string>)
    ensures r.Err? ==> r.code == Unauthenticated
    ensures r.Ok? <==> md.Some? && AuthorizationHeader in md.value && |md.value[AuthorizationHeader]| > 0
                       && Text.HasPrefix(md.value[AuthorizationHeader][0], BearerPrefix)
    ensures r.Ok? ==> BearerPrefix + r.value == md.value[AuthorizationHeader][0]
  {
    if md.None? then Err(Unauthenticated)
    else
      var headers := if AuthorizationHeader in md.value then md.value[AuthorizationHeader] else [];
      if |headers| == 0 then Err(Unauthenticated)
      else if !Text.HasPrefix(headers[0], BearerPrefix) then Err(Unauthenticated)
      else Ok(Text.TrimPrefix(headers[0], BearerPrefix))
  }

  /** A header built from the prefix and a token yields that token. */
  lemma BearerTokenRoundTrip(token: string, md: Metadata)
    requires AuthorizationHeader in md && |md[AuthorizationHeader]| > 0
    requires md[AuthorizationHeader][0] == BearerPrefix + token
    ensures BearerToken(Some(md)) == Ok(token)
  {
    Text.TrimPrefixOfConcat(BearerPrefix, token);
  }

  /** AuthInterceptor: Ok(ctx') means the handler runs with context ctx'. A public method runs
      with the context unchanged; any other needs a bearer token that `validate` accepts, and then
      runs with the claims' user id, username and email added to the context. */
  function AuthInterceptor(fullMethod: string, ctx: Context, md: Option<Metadata>,
                           validate: string -> Option<Claims>): (r: Result<Context>)
    ensures ShouldSkipAuth(fullMethod) ==> r == Ok(ctx)
    ensures !ShouldSkipAuth(fullMethod) ==>
              (r.Ok? <==> BearerToken(md).Ok? && validate(BearerToken(md).value).Some?)
    ensures r.Err? ==> r.code == Unauthenticated
    ensures !ShouldSkipAuth(fullMethod) && r.Ok? ==>
              var c := validate(BearerToken(md).value).value;
              && UserIdKey in r.value && r.value[UserIdKey] == StringValue(c.userId)
              && GetUsernameFromContext(r.value) == c.username && GetEmailFromContext(r.value) == c.email
              && (forall k :: k in ctx && k !in {UserIdKey, UsernameKey, EmailKey} ==> k in r.value && r.value[k] == ctx[k])
  {
    if ShouldSkipAuth(fullMethod) then Ok(ctx)
    else
      var token := BearerToken(md);
      if token.Err? then Err(token.code)
      else
        var claims := validate(token.value);
        if claims.None? then Err(Unauthenticated)
        else
          Ok(ctx[UserIdKey := StringValue(claims.value.userId)]
                [UsernameKey := StringValue(claims.value.username)]
                [EmailKey := StringValue(claims.value.email)])
  }

  /** GetUserIDFromContext: fails with Unauthenticated iff the value is absent, not a string, or empty. */
  function GetUserIdFromContext(ctx: Context): (r: Result<string>)
    ensures r.Err? <==> UserIdKey !in ctx || !ctx[UserIdKey].StringValue? || ctx[UserIdKey].s == ""
    ensures r.Err? ==> r.code == Unauthenticated
    ensures r.Ok? ==> r.value != "" && ctx[UserIdKey] == StringValue(r.value)
  {
    if UserIdKey in ctx && ctx[UserIdKey].StringValue? && ctx[UserIdKey].s != "" then Ok(ctx[UserIdKey].s)
    else Err(Unauthenticated)
  }

  /** GetUsernameFromContext: "" when absent or not a string. */
  function GetUsernameFromContext(ctx: Context): (r: string)
    ensures UsernameKey !in ctx || !ctx[UsernameKey].StringValue? ==> r == ""
    ensures UsernameKey in ctx && ctx[UsernameKey].StringValue? ==> r == ctx[UsernameKey].s
  {
    if UsernameKey in ctx && ctx[UsernameKey].StringValue? then ctx[UsernameKey].s else ""
  }

  /** GetEmailFromContext: "" when absent or not a string. */
  function GetEmailFromContext(ctx: Context): (r: string)
    ensures EmailKey !in ctx || !ctx[EmailKey].StringValue? ==> r == ""
    ensures EmailKey in ctx && ctx[EmailKey].StringValue? ==> r == ctx[EmailKey].s
  {
    if EmailKey in ctx && ctx[EmailKey].StringValue? then ctx[EmailKey].s else ""
  }

  /** After the interceptor accepts a non-public call, the handler sees the authenticated user:
      the user id getter succeeds exactly when the claims carry a non-empty user id. */
  lemma AuthenticatedHandlerSeesUser(fullMethod: string, ctx: Context, md: Option<Metadata>,
                                     validate: string -> Option<Claims>)
    requires !ShouldSkipAuth(fullMethod) && AuthInterceptor(fullMethod, ctx, md, validate).Ok?
    ensures var c := validate(BearerToken(md).value).value;
            var r := GetUserIdFromContext(AuthInterceptor(fullMethod, ctx, md, validate).value);
            (r.Ok? <==> c.userId != "") && (r.Ok? ==> r.value == c.userId)
  {
  }

  /** Logout is not a public method here: it needs a bearer token. */
  lemma LogoutNeedsToken(ctx: Context, validate: string -> Option<Claims>)
    ensures AuthInterceptor("/todo.v1.AuthService/Logout", ctx, None, validate) == Err(Unauthenticated)
  {
  }
}
