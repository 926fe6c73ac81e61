/** The password form of frontend/my-react-app/src/pages/Profile.jsx: the
    checks the page makes before calling the server, and what the form shows
    and keeps after the server's answer. */
module Profile {
  import opened Wrappers
  import opened Ids
  import AuthController

  const MismatchError: string := "New passwords do not match."
  const LengthError: string := "New password must be at least 6 characters long."
  const SuccessMessage: string := "Password updated successfully!"

  /** The shortest new password the form accepts. */
  const MinLength: nat := 6

  /** The form's own checks, in order: the two new passwords must agree, then
      the new one must be long enough. */
  function FormError(newPassword: string, confirmPassword: string): (e: Option<string>)
    ensures e.None? <==> newPassword == confirmPassword && |newPassword| >= MinLength
    ensures e.Some? ==> e.value in {MismatchError, LengthError}
  {
    if newPassword != confirmPassword then Some(MismatchError)
    else if |newPassword| < MinLength then Some(LengthError)
    else None
  }

  /** A mismatch is reported even when the new password is also too short;
      the length error only comes up for agreeing passwords. */
  lemma MismatchFirst(newPassword: string, confirmPassword: string)
    ensures newPassword != confirmPassword ==> FormError(newPassword, confirmPassword) == Some(MismatchError)
    ensures FormError(newPassword, confirmPassword) == Some(LengthError) ==>
      newPassword == confirmPassword && |newPassword| < MinLength
  {
  }

  /** A new password the form lets through is never empty, so of the server's
      "both are required" rule only the current password can still fail. */
  lemma FormPassesNonEmpty(newPassword: string, confirmPassword: string)
    requires FormError(newPassword, confirmPassword).None?
    ensures newPassword != ""
  {
  }

  /** The message the page shows for a refused change: the server's `message`,
      which every error of updatePassword carries. */
  function ServerError(e: AuthController.AuthError): (m: string)
    ensures m != ""
  {
    AuthController.MessagesDistinct(e, e);
    AuthController.Message(e)
  }

  class PasswordForm {
    var currentPassword: string
    var newPassword: string
    var confirmPassword: string
    var error: Option<string>
    var success: Option<string>

    constructor ()
      ensures currentPassword == "" && newPassword == "" && confirmPassword == ""
      ensures error == None && success == None
    {
      currentPassword := "";
      newPassword := "";
      confirmPassword := "";
      error := None;
      success := None;
    }

    /** The three inputs' onChange handlers. */
    method EnterPasswords(current: string, next: string, confirm: string)
      modifies this`currentPassword, this`newPassword, this`confirmPassword
      ensures currentPassword == current && newPassword == next && confirmPassword == confirm
    {
      currentPassword := current;
      newPassword := next;
      confirmPassword := confirm;
    }

    /** `handlePasswordChange` for the signed-in `caller`; `salt` is what the
        server's hash will draw. Both messages are cleared first. A form error
        shows, the server is not called, and nothing else changes. Otherwise the
        server decides: on success the success message shows and the three
        fields are emptied; on a refusal the server's message shows and the
        fields are kept. */
    method HandlePasswordChange(auth: AuthController.CredentialStore, caller: UserId, salt: AuthController.Salt)
      requires auth.Valid()
      modifies this, auth`users
      ensures auth.Valid()
      ensures FormError(old(newPassword), old(confirmPassword)).Some? ==>
        && error == FormError(old(newPassword), old(confirmPassword)) && success == None
        && currentPassword == old(currentPassword) && newPassword == old(newPassword)
        && confirmPassword == old(confirmPassword)
        && auth.users == old(auth.users)
      ensures (FormError(old(newPassword), old(confirmPassword)).None?
               && old(auth.PasswordChangeError(caller, currentPassword, newPassword)).Some?) ==>
        && error == Some(AuthController.Message(old(auth.PasswordChangeError(caller, currentPassword, newPassword)).value))
        && success == None
        && currentPassword == old(currentPassword) && newPassword == old(newPassword)
        && confirmPassword == old(confirmPassword)
        && auth.users == old(auth.users)
      ensures (FormError(old(newPassword), old(confirmPassword)).None?
               && old(auth.PasswordChangeError(caller, currentPassword, newPassword)).None?) ==>
        && success == Some(SuccessMessage) && error == None
        && currentPassword == "" && newPassword == "" && confirmPassword == ""
        && forall e :: e in old(auth.users) && old(auth.users)[e].id == caller ==>
             && auth.users == old(auth.users)[e := old(auth.users)[e].(password := auth.hash(old(newPassword), salt))]
             && auth.verify(old(newPassword), auth.users[e].password)
    {
      error := None;
      success := None;
      var formError := FormError(newPassword, confirmPassword);
      if formError.Some? {
        error := formError;
        return;
      }
      var r := auth.UpdatePassword(caller, currentPassword, newPassword, salt);
      if r.Ok? {
        success := Some(SuccessMessage);
        currentPassword := "";
        newPassword := "";
        confirmPassword := "";
      } else {
        error := Some(ServerError(r.error));
      }
    }
  }
}
