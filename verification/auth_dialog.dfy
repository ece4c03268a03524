/**
 * The sign-in dialog (components/AuthDialog.tsx): the guards of the
 * email/password submit and of the Google sign-in, the calls they make, and
 * the table that turns an authentication error code into the message shown.
 * The authentication service is a parameter: `Outcome` says how the one
 * call to it ends.
 */
module Auth {
  import opened Types

  const NotConfigured := "Firebase not configured."
  const InvalidCredential := "auth/invalid-credential"
  const EmailInUse := "auth/email-already-in-use"
  const WeakPassword := "auth/weak-password"
  const InvalidCredentialMessage := "Invalid email or password."
  const EmailInUseMessage := "Email already in use."
  const WeakPasswordMessage := "Password should be at least 6 characters."
  const GenericMessage := "Authentication failed."
  const GoogleFailedMessage := "Google sign in failed."

  /** How a call to the authentication service ends: a user, or an error with its code. */
  datatype Outcome = SignedIn(user: User) | Failed(code: string)

  /** The calls the dialog makes, to the service and to its owner, in order. */
  datatype Call =
    | CreateAccount(email: string, password: string)
    | SignInWithPassword(email: string, password: string)
    | SignInWithGoogle
    | OnLogin(user: User)
    | OnClose

  /** The message table: three recognised codes, and a generic message for every other code. */
  predicate IsMessageFor(code: string, msg: string) {
    && (code == InvalidCredential ==> msg == InvalidCredentialMessage)
    && (code == EmailInUse ==> msg == EmailInUseMessage)
    && (code == WeakPassword ==> msg == WeakPasswordMessage)
    && (code != InvalidCredential && code != EmailInUse && code != WeakPassword ==> msg == GenericMessage)
  }

  /** The message for an error code, by overriding a generic default through successive tests. */
  method ErrorMessage(code: string) returns (msg: string)
    ensures IsMessageFor(code, msg)
    ensures msg != ""
  {
    msg := GenericMessage;
    if code == InvalidCredential {
      msg := InvalidCredentialMessage;
    }
    if code == EmailInUse {
      msg := EmailInUseMessage;
    }
    if code == WeakPassword {
      msg := WeakPasswordMessage;
    }
  }

  class AuthDialog {
    /** Whether the authentication service was initialised (`auth` is defined). */
    const authConfigured: bool
    /** Whether the Google provider was created (`googleProvider` is defined). */
    const googleConfigured: bool
    var isSignUp: bool
    var email: string
    var password: string
    var isLoading: bool
    var error: Option<string>

    constructor (authConfigured: bool, googleConfigured: bool)
      ensures this.authConfigured == authConfigured && this.googleConfigured == googleConfigured
      ensures !isSignUp && email == "" && password == "" && !isLoading && error == None
    {
      this.authConfigured := authConfigured;
      this.googleConfigured := googleConfigured;
      isSignUp := false;
      email := "";
      password := "";
      isLoading := false;
      error := None;
    }

    /** The link under the form switches between signing in and signing up. */
    method ToggleMode()
      modifies this
      ensures isSignUp == !old(isSignUp)
      ensures email == old(email) && password == old(password)
      ensures isLoading == old(isLoading) && error == old(error)
    {
      isSignUp := !isSignUp;
    }

    /** The two input fields. */
    method Edit(newEmail: string, newPassword: string)
      modifies this
      ensures email == newEmail && password == newPassword
      ensures isSignUp == old(isSignUp) && isLoading == old(isLoading) && error == old(error)
    {
      email := newEmail;
      password := newPassword;
    }

    /**
     * `handleSubmit`. With an empty email or password nothing happens.
     * Without a configured service the error says so and no call is made.
     * Otherwise exactly one sign-up or sign-in call is made; on success
     * `onLogin` then `onClose` are called and the fields are cleared, on
     * failure the error code's message is shown. Loading ends either way.
     */
    method Submit(outcome: Outcome) returns (calls: seq<Call>)
      modifies this
      ensures old(email) == "" || old(password) == "" ==>
        && calls == []
        && email == old(email) && password == old(password)
        && isLoading == old(isLoading) && error == old(error)
      ensures old(email) != "" && old(password) != "" && !authConfigured ==>
        && calls == []
        && error == Some(NotConfigured) && !isLoading
        && email == old(email) && password == old(password)
      ensures old(email) != "" && old(password) != "" && authConfigured ==>
        var attempt := if old(isSignUp) then CreateAccount(old(email), old(password))
                       else SignInWithPassword(old(email), old(password));
        && !isLoading
        && (outcome.SignedIn? ==>
              calls == [attempt, OnLogin(outcome.user), OnClose]
              && email == "" && password == "" && error == None)
        && (outcome.Failed? ==>
              calls == [attempt]
              && email == old(email) && password == old(password)
              && error.Some? && IsMessageFor(outcome.code, error.value))
      ensures isSignUp == old(isSignUp)
    {
      calls := [];
      if email == "" || password == "" {
        return;
      }
      isLoading := true;
      error := None;
      if !authConfigured {
        error := Some(NotConfigured);
        isLoading := false;
        return;
      }
      var attempt := if isSignUp then CreateAccount(email, password) else SignInWithPassword(email, password);
      calls := [attempt];
      match outcome {
        case SignedIn(user) =>
          calls := calls + [OnLogin(user), OnClose];
          email := "";
          password := "";
        case Failed(code) =>
          var msg := ErrorMessage(code);
          error := Some(msg);
      }
      isLoading := false;
    }

    /**
     * `handleGoogleLogin`. Without a configured service or provider the
     * error says so and loading is left as it was. Otherwise one popup
     * sign-in is made; on success `onLogin` then `onClose` are called, on any
     * failure the Google message is shown. Loading ends either way.
     */
    method GoogleLogin(outcome: Outcome) returns (calls: seq<Call>)
      modifies this
      ensures !authConfigured || !googleConfigured ==>
        calls == [] && error == Some(NotConfigured) && isLoading == old(isLoading)
      ensures authConfigured && googleConfigured ==>
        && !isLoading
        && (outcome.SignedIn? ==> calls == [SignInWithGoogle, OnLogin(outcome.user), OnClose] && error == None)
        && (outcome.Failed? ==> calls == [SignInWithGoogle] && error == Some(GoogleFailedMessage))
      ensures email == old(email) && password == old(password) && isSignUp == old(isSignUp)
    {
      calls := [];
      if !authConfigured || !googleConfigured {
        error := Some(NotConfigured);
        return;
      }
      isLoading := true;
      error := None;
      calls := [SignInWithGoogle];
      match outcome {
        case SignedIn(user) =>
          calls := calls + [OnLogin(user), OnClose];
        case Failed(_) =>
          error := Some(GoogleFailedMessage);
      }
      isLoading := false;
    }
  }
}
