/** `CheckVerifiedMiddleware`: refuses authenticated users whose e-mail is
    not verified, except on three paths, before the rest of the stack runs. */
module Middleware {
  import opened Python
  import Permissions

  datatype Request = Request(user: Permissions.User, path: string)

  const ExemptPaths: seq<string> := ["/auth/verify-email/", "/auth/login/", "/auth/register/"]

  const VerifyFirst := "Please verify your email address first"

  /** The middleware's condition for raising PermissionDenied. */
  predicate Blocks(req: Request)
  {
    req.user.isAuthenticated && !req.user.isVerified && req.path !in ExemptPaths
  }

  /** `__call__`: either the rest of the stack (`get_response`) answers, or
      PermissionDenied is raised and `get_response` is never called. The
      error is the exception's message; the response Django makes of the
      uncaught exception is not modelled. */
  function Call<R>(req: Request, getResponse: Request -> R): (r: Result<R, string>)
    ensures r.Ok? <==> !Blocks(req)
    ensures r.Ok? ==> r.value == getResponse(req)
    ensures r.Err? ==> r.error == VerifyFirst
  {
    if Blocks(req) then Err(VerifyFirst) else Ok(getResponse(req))
  }

  /** Anonymous requests and verified users always reach the view;
      unverified users reach it only on the exempt paths. */
  lemma WhoPassesThrough<R>(req: Request, getResponse: Request -> R)
    ensures !req.user.isAuthenticated ==> Call(req, getResponse).Ok?
    ensures req.user.isVerified ==> Call(req, getResponse).Ok?
    ensures req.user.isAuthenticated && !req.user.isVerified ==>
      (Call(req, getResponse).Ok? <==> req.path in ExemptPaths)
  {
  }
}
