/**
 * The login and sign-up page (AuthView.tsx): the three field validators
 * and the submit dispatch.
 */
module AuthView {

  import opened Wrappers
  import opened JsonValues
  import Api
  import ApiMethods

  datatype AuthMode = LoginMode | CreateMode

  /** A validator's message: the field is required, or the passwords differ. */
  datatype FormError = Required | PasswordMatch

  datatype Values = Values(username: string, password: string, confirmPassword: string)

  function UsernameError(v: Values): Option<FormError>
  {
    if |v.username| > 0 then None else Some(Required)
  }

  function PasswordError(mode: AuthMode, v: Values): Option<FormError>
  {
    if |v.password| > 0 then
      if mode == LoginMode then None
      else if v.confirmPassword == v.password then None
      else Some(PasswordMatch)
    else Some(Required)
  }

  function ConfirmError(mode: AuthMode, v: Values): Option<FormError>
  {
    if mode == LoginMode then None
    else if |v.confirmPassword| > 0 then
      if v.confirmPassword == v.password then None else Some(PasswordMatch)
    else Some(Required)
  }

  /** The form submits only when no validator reports an error. */
  predicate Valid(mode: AuthMode, v: Values)
  {
    UsernameError(v).None? && PasswordError(mode, v).None? && ConfirmError(mode, v).None?
  }

  /** Login needs a username and a password; the confirmation is ignored. */
  lemma LoginValidIff(v: Values)
    ensures Valid(LoginMode, v) <==> |v.username| > 0 && |v.password| > 0
    ensures ConfirmError(LoginMode, v).None?
  {
  }

  /** Sign-up needs a username and a non-empty password typed twice alike. */
  lemma CreateValidIff(v: Values)
    ensures Valid(CreateMode, v) <==> |v.username| > 0 && |v.password| > 0 && v.confirmPassword == v.password
    ensures PasswordError(CreateMode, v).None? <==> |v.password| > 0 && v.confirmPassword == v.password
    ensures ConfirmError(CreateMode, v).None? <==> |v.confirmPassword| > 0 && v.confirmPassword == v.password
  {
  }

  /** An empty field reports Required before any mismatch. */
  lemma EmptyIsRequired(mode: AuthMode, v: Values)
    ensures |v.username| == 0 ==> UsernameError(v) == Some(Required)
    ensures |v.password| == 0 ==> PasswordError(mode, v) == Some(Required)
    ensures mode == CreateMode && |v.confirmPassword| == 0 ==> ConfirmError(mode, v) == Some(Required)
  {
  }

  /** Submit: nothing when invalid; else sign-up or login; a truthy result navigates home. */
  function Submit(c: Api.ApiContext, transport: Api.Request -> Api.ApiResponse, contextReload: Json, mode: AuthMode, v: Values): (r: (Api.Call<Json>, Option<string>))
    ensures !Valid(mode, v) ==> r.0.sent == [] && r.1.None?
    ensures Valid(mode, v) && mode == CreateMode ==> r.0 == ApiMethods.CreateUser(c, transport, contextReload, v.username, v.password)
    ensures Valid(mode, v) && mode == LoginMode ==> r.0 == ApiMethods.Login(c, transport, contextReload, v.username, v.password)
    ensures r.1 == Some("/") <==> Valid(mode, v) && Truthy(r.0.result)
    ensures r.1.Some? ==> r.1 == Some("/")
  {
    if !Valid(mode, v) then (Api.Call(JUndefined, [], 0), None)
    else
      var call := if mode == CreateMode then ApiMethods.CreateUser(c, transport, contextReload, v.username, v.password)
                  else ApiMethods.Login(c, transport, contextReload, v.username, v.password);
      (call, if Truthy(call.result) then Some("/") else None)
  }

  /** The page navigates exactly when the context is reloaded after a sign-in. */
  lemma NavigatesIffReloads(c: Api.ApiContext, transport: Api.Request -> Api.ApiResponse, contextReload: Json, mode: AuthMode, v: Values)
    requires Valid(mode, v)
    ensures var r := Submit(c, transport, contextReload, mode, v);
      r.1.Some? <==> r.0.reloads == 1
  {
  }

  /** A sign-up with mismatched passwords never reaches the server. */
  lemma MismatchSendsNothing(c: Api.ApiContext, transport: Api.Request -> Api.ApiResponse, contextReload: Json, v: Values)
    requires v.confirmPassword != v.password
    ensures Submit(c, transport, contextReload, CreateMode, v).0.sent == []
  {
  }
}
