/** The administrator allow-list of src/config/admin.ts. */
module AdminConfig {

  /** `ADMIN_CONFIG.adminEmails`. */
  const AdminEmails: seq<string> := ["admin@divinelits.com", "divya@divinelits.com", "garg.sid6665@gmail.com"]

  /** `isAdminEmail`: `includes`, which compares with strict equality. */
  function IsAdminEmail(email: string): (r: bool)
    ensures r <==> email == "admin@divinelits.com" || email == "divya@divinelits.com"
                   || email == "garg.sid6665@gmail.com"
  {
    email in AdminEmails
  }

  /** The comparison is case-sensitive. */
  lemma CaseSensitive()
    ensures IsAdminEmail("admin@divinelits.com")
    ensures !IsAdminEmail("Admin@divinelits.com")
  {
    assert "Admin@divinelits.com"[0] != "admin@divinelits.com"[0];
    assert "Admin@divinelits.com"[0] != "divya@divinelits.com"[0];
    assert "Admin@divinelits.com"[0] != "garg.sid6665@gmail.com"[0];
  }

  /** The empty string is not an administrator, and neither is a blank-padded address. */
  lemma NotAdmin()
    ensures !IsAdminEmail("")
    ensures !IsAdminEmail(" admin@divinelits.com")
  {
    assert " admin@divinelits.com"[0] != "admin@divinelits.com"[0];
    assert " admin@divinelits.com"[0] != "divya@divinelits.com"[0];
    assert " admin@divinelits.com"[0] != "garg.sid6665@gmail.com"[0];
  }

  /** The list holds three distinct addresses. */
  lemma ThreeAdmins()
    ensures |AdminEmails| == 3
    ensures forall i, j :: 0 <= i < j < |AdminEmails| ==> AdminEmails[i] != AdminEmails[j]
  {
    assert AdminEmails[0][0] != AdminEmails[1][0];
    assert AdminEmails[0][0] != AdminEmails[2][0];
    assert AdminEmails[1][0] != AdminEmails[2][0];
  }
}
