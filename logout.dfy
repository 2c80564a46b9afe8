/** Model of logout.php. */
module Logout {
  import opened Helpers
  import opened Platform

  /** The session is emptied and the browser sent to index.php. */
  method Logout(session: Session) returns (outcome: Outcome)
    modifies session
    ensures outcome == Redirect("index.php")
    ensures session.flash == map[] && session.userId == Php.None
  {
    session.Destroy();
    outcome := Redirect("index.php");
  }
}
