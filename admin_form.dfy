/**
 * The create/edit form of an admin account. Its state is the object of
 * form fields keyed by input name; submitting hands a copy to the admin
 * page, without the password when it is empty.
 */
module AdminForm {
  import opened Types
  import UserManagement

  const FullNameKey: string := "full_name"
  const EmailKey: string := "email"
  const PasswordKey: string := "password"
  const RoleKey: string := "role"

  /** The form contents after `useEffect` has run for the admin being edited, or for a new one. */
  function InitialFormData(admin: Option<User>): (m: map<string, string>)
    ensures m.Keys == {FullNameKey, EmailKey, PasswordKey, RoleKey}
    ensures m[PasswordKey] == ""
    ensures admin.None? ==> m[FullNameKey] == "" && m[EmailKey] == "" && m[RoleKey] == "admin"
    ensures admin.Some? ==>
      && m[FullNameKey] == admin.value.full_name && m[EmailKey] == admin.value.email
      && m[RoleKey] == RoleName(admin.value.role)
  {
    match admin
    case None => map[FullNameKey := "", EmailKey := "", PasswordKey := "", RoleKey := "admin"]
    case Some(a) =>
      map[FullNameKey := a.full_name, EmailKey := a.email, PasswordKey := "", RoleKey := RoleName(a.role)]
  }

  /** `{ ...formData }` with the password key deleted when the password is falsy. */
  function Submitted(formData: map<string, string>): (m: map<string, string>)
    ensures PasswordKey in m <==> PasswordKey in formData && formData[PasswordKey] != ""
    ensures PasswordKey in m ==> m[PasswordKey] == formData[PasswordKey]
    ensures forall k :: k != PasswordKey ==> (k in m <==> k in formData)
    ensures forall k :: k in m && k != PasswordKey ==> m[k] == formData[k]
  {
    if PasswordKey in formData && formData[PasswordKey] != "" then formData
    else formData - {PasswordKey}
  }

  /**
   * A new admin submitted with the password left empty is created without a
   * password and, unless the role field was changed, with role 'admin'.
   */
  lemma NewAdminWithoutPassword(name: string, email: string)
    ensures var data := Submitted(InitialFormData(None)[FullNameKey := name][EmailKey := email]);
      var request := UserManagement.FormRequest(None, data);
      request == UserManagement.CreateAdmin(Some(name), Some(email), None, "admin")
  {
    var data := Submitted(InitialFormData(None)[FullNameKey := name][EmailKey := email]);
    assert PasswordKey !in data;
    assert data[RoleKey] == "admin";
    assert data[FullNameKey] == name;
  }

  /** Editing an admin without typing a password submits no password key, so none reaches the request. */
  lemma EditKeepsPasswordOut(admin: User)
    ensures PasswordKey !in Submitted(InitialFormData(Some(admin)))
    ensures Submitted(InitialFormData(Some(admin))).Keys == {FullNameKey, EmailKey, RoleKey}
  {
  }

  class AdminFormState {
    var formData: map<string, string>

    /** The form as rendered for `admin`, once its prefill effect has run. */
    constructor (admin: Option<User>)
      ensures formData == InitialFormData(admin)
    {
      formData := InitialFormData(admin);
    }

    /** `setFormData(prev => ({ ...prev, [name]: value }))`: only the named field changes. */
    method HandleChange(name: string, value: string)
      modifies this
      ensures formData == old(formData)[name := value]
      ensures forall k :: k in old(formData) && k != name ==> k in formData && formData[k] == old(formData)[k]
    {
      formData := formData[name := value];
    }

    /** The object passed to `onSubmit`; the form itself is not changed. */
    method HandleSubmit() returns (dataToSubmit: map<string, string>)
      ensures dataToSubmit == Submitted(formData)
      ensures PasswordKey in dataToSubmit <==> PasswordKey in formData && formData[PasswordKey] != ""
    {
      dataToSubmit := formData;
      if !(PasswordKey in dataToSubmit && dataToSubmit[PasswordKey] != "") {
        dataToSubmit := dataToSubmit - {PasswordKey};
      }
    }
  }
}
