/** The admin gate: a fixed password, compared after trimming. */
module AdminGate {
  import opened Text

  const AdminPassword: string := "11143"

  /** `adminPass.trim() === "11143"`. An accepted entry is at least as
      long as the password, and an entry without whitespace at its edges
      (the empty entry among them) is accepted only when it is the password
      itself. */
  function Accepts(pass: string): (r: bool)
    ensures r ==> |AdminPassword| <= |pass|
    ensures Trimmed(pass) ==> (r <==> pass == AdminPassword)
  {
    Trim(pass) == AdminPassword
  }

  /** The password is accepted with any whitespace around it. */
  lemma AcceptsPadded(pre: string, post: string)
    requires Blank(pre) && Blank(post)
    ensures Accepts(pre + AdminPassword + post)
  {
    assert Trimmed(AdminPassword);
    TrimUnique(pre, AdminPassword, post);
  }

  /** And nothing else is: an accepted entry is the password with blank
      edges. */
  lemma AcceptedIsPadded(pass: string) returns (pre: string, post: string)
    requires Accepts(pass)
    ensures Blank(pre) && Blank(post)
    ensures pass == pre + AdminPassword + post
  {
    pre, post := TrimSplit(pass);
  }
}
