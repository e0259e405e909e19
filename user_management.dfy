/**
 * The admin-account list: mapping an account of the admin API, and the page
 * state (the list, the modal and the account being edited) with its
 * handlers, including the bulk approval and refusal that only a super
 * administrator may run.
 */
module UserManagement {
  import opened Types
  import opened Seqs
  import AuthContext

  /** An account as the admin API returns it. The role is the raw string. */
  datatype BackendUser = BackendUser(
    id: string,
    email: string,
    full_name: string,
    role: string,
    createdAt: string,
    isApproved: Option<bool>)

  /** An account as the page keeps it. */
  datatype AdminUser = AdminUser(
    id: string,
    email: string,
    full_name: string,
    role: string,
    created_at: string,
    isApproved: Option<bool>)

  /** The account bulk refusal never deletes. */
  const ProtectedEmail: string := "admin@room.tn"

  /** `mapFromBackend`: a field-by-field copy under the page's names. */
  function MapFromBackend(u: BackendUser): AdminUser
  {
    AdminUser(u.id, u.email, u.full_name, u.role, u.createdAt, u.isApproved)
  }

  /** The inverse renaming. */
  function ToBackend(a: AdminUser): BackendUser
  {
    BackendUser(a.id, a.email, a.full_name, a.role, a.created_at, a.isApproved)
  }

  /** The mapping loses nothing: `_id`, `createdAt` and `isApproved` come back unchanged. */
  lemma MapFromBackendRoundTrip(u: BackendUser, a: AdminUser)
    ensures ToBackend(MapFromBackend(u)) == u
    ensures MapFromBackend(ToBackend(a)) == a
    ensures MapFromBackend(u).id == u.id && MapFromBackend(u).created_at == u.createdAt
    ensures MapFromBackend(u).isApproved == u.isApproved
  {
  }

  /** `!a.isApproved`: an absent flag counts as not approved. */
  predicate IsPending(a: AdminUser)
  {
    a.isApproved != Some(true)
  }

  /** A pending account other than the protected one. */
  predicate IsRefusable(a: AdminUser)
  {
    IsPending(a) && a.email != ProtectedEmail
  }

  function PendingAdmins(admins: seq<AdminUser>): seq<AdminUser>
  {
    Filter(admins, IsPending)
  }

  function Refusable(admins: seq<AdminUser>): seq<AdminUser>
  {
    Filter(admins, IsRefusable)
  }

  /** `currentUser?.role !== 'super_admin'` is false. */
  predicate IsSuperAdmin(currentUser: Option<User>)
  {
    currentUser.Some? && RoleName(currentUser.value.role) == "super_admin"
  }

  /**
   * The current user comes from the shopper session, which only ever holds
   * a customer: with it, the super-administrator gate never opens, so the
   * bulk handlers never send a request.
   */
  lemma SessionNeverSuperAdmin(currentUser: Option<User>)
    requires currentUser.Some? ==> AuthContext.IsMockSession(currentUser.value)
    ensures !IsSuperAdmin(currentUser)
  {
    if currentUser.Some? {
      AuthContext.SessionIsCustomer(currentUser.value);
    }
  }

  /** Some request for an account with id `id` was fulfilled. */
  predicate SucceededFor(targets: seq<AdminUser>, outcomes: seq<bool>, id: string)
    requires |outcomes| == |targets|
  {
    exists k :: 0 <= k < |targets| && outcomes[k] && targets[k].id == id
  }

  lemma SucceededForCons(targets: seq<AdminUser>, outcomes: seq<bool>, id: string)
    requires |outcomes| == |targets| && targets != []
    ensures SucceededFor(targets, outcomes, id) <==>
      (outcomes[0] && targets[0].id == id) || SucceededFor(targets[1..], outcomes[1..], id)
  {
    if SucceededFor(targets, outcomes, id) {
      var k :| 0 <= k < |targets| && outcomes[k] && targets[k].id == id;
      if k > 0 {
        assert outcomes[1..][k - 1] && targets[1..][k - 1].id == id;
      }
    }
    if SucceededFor(targets[1..], outcomes[1..], id) {
      var k :| 0 <= k < |targets[1..]| && outcomes[1..][k] && targets[1..][k].id == id;
      assert outcomes[k + 1] && targets[k + 1].id == id;
    }
  }

  /**
   * The ids of the targeted accounts whose request was fulfilled, in order;
   * an empty id is dropped by `filter(Boolean)`.
   */
  function SucceededIds(targets: seq<AdminUser>, outcomes: seq<bool>): (ids: seq<string>)
    requires |outcomes| == |targets|
    ensures forall id :: id in ids <==> id != "" && SucceededFor(targets, outcomes, id)
    decreases |targets|
  {
    if targets == [] then []
    else
      var rest := SucceededIds(targets[1..], outcomes[1..]);
      assert forall id :: SucceededFor(targets, outcomes, id) <==>
        (outcomes[0] && targets[0].id == id) || SucceededFor(targets[1..], outcomes[1..], id) by {
        forall id ensures SucceededFor(targets, outcomes, id) <==>
          (outcomes[0] && targets[0].id == id) || SucceededFor(targets[1..], outcomes[1..], id)
        {
          SucceededForCons(targets, outcomes, id);
        }
      }
      (if outcomes[0] && targets[0].id != "" then [targets[0].id] else []) + rest
  }

  /** `{ ...a, isApproved: true }` for every account whose id is listed. */
  function ApproveByIds(admins: seq<AdminUser>, ids: seq<string>): seq<AdminUser>
  {
    Map(admins, (a: AdminUser) => if a.id in ids then a.(isApproved := Some(true)) else a)
  }

  /** The accounts whose id is not listed, in order. */
  function RemoveByIds(admins: seq<AdminUser>, ids: seq<string>): seq<AdminUser>
  {
    Filter(admins, (a: AdminUser) => a.id !in ids)
  }

  function WithoutAdmin(admins: seq<AdminUser>, id: string): seq<AdminUser>
  {
    Filter(admins, (a: AdminUser) => a.id != id)
  }

  function ReplaceAdmin(admins: seq<AdminUser>, mapped: AdminUser): seq<AdminUser>
  {
    ReplaceWhere(admins, (a: AdminUser) => a.id == mapped.id, mapped)
  }

  /** Account ids are pairwise distinct. */
  predicate UniqueIds(admins: seq<AdminUser>)
  {
    forall i, j :: 0 <= i < j < |admins| ==> admins[i].id != admins[j].id
  }

  /** The state after bulk approval with the given per-request outcomes. */
  function ApproveAll(admins: seq<AdminUser>, outcomes: seq<bool>): seq<AdminUser>
    requires |outcomes| == |PendingAdmins(admins)|
  {
    ApproveByIds(admins, SucceededIds(PendingAdmins(admins), outcomes))
  }

  /** The state after bulk refusal with the given per-request outcomes. */
  function RefuseAll(admins: seq<AdminUser>, outcomes: seq<bool>): seq<AdminUser>
    requires |outcomes| == |Refusable(admins)|
  {
    RemoveByIds(admins, SucceededIds(Refusable(admins), outcomes))
  }

  /**
   * With distinct ids, bulk approval keeps the list's length and order and
   * marks approved exactly the pending accounts (with a non-empty id) whose
   * request succeeded; every other account is unchanged.
   */
  lemma ApproveAllSpec(admins: seq<AdminUser>, outcomes: seq<bool>)
    requires UniqueIds(admins) && |outcomes| == |PendingAdmins(admins)|
    ensures var pending := PendingAdmins(admins);
      var r := ApproveAll(admins, outcomes);
      && |r| == |admins|
      && (forall i :: 0 <= i < |admins| ==>
            r[i] == if admins[i].id != "" && exists k :: 0 <= k < |pending| && outcomes[k] && pending[k] == admins[i]
                    then admins[i].(isApproved := Some(true)) else admins[i])
      && (forall i :: 0 <= i < |admins| && !IsPending(admins[i]) ==> r[i] == admins[i])
  {
    var pending := PendingAdmins(admins);
    var r := ApproveAll(admins, outcomes);
    forall i | 0 <= i < |admins|
      ensures r[i] == if admins[i].id != "" && exists k :: 0 <= k < |pending| && outcomes[k] && pending[k] == admins[i]
                      then admins[i].(isApproved := Some(true)) else admins[i]
    {
      if exists k :: 0 <= k < |pending| && outcomes[k] && pending[k].id == admins[i].id {
        var k :| 0 <= k < |pending| && outcomes[k] && pending[k].id == admins[i].id;
        SameIdSameAccount(admins, pending[k], i);
      }
    }
  }

  /** With distinct ids, an account of the list is determined by its id. */
  lemma SameIdSameAccount(admins: seq<AdminUser>, a: AdminUser, i: int)
    requires UniqueIds(admins) && 0 <= i < |admins| && a in admins && a.id == admins[i].id
    ensures a == admins[i]
  {
  }

  /**
   * Bulk refusal never targets the protected account, and with distinct ids
   * it removes exactly the refusable accounts (with a non-empty id) whose
   * delete succeeded, keeping every other account in order.
   */
  lemma RefuseAllSpec(admins: seq<AdminUser>, outcomes: seq<bool>)
    requires UniqueIds(admins) && |outcomes| == |Refusable(admins)|
    ensures forall a :: a in Refusable(admins) ==> a.email != ProtectedEmail && IsPending(a)
    ensures var targets := Refusable(admins);
      var r := RefuseAll(admins, outcomes);
      && IsSubsequence(r, admins)
      && (forall a :: a in r <==>
            a in admins && !(a.id != "" && exists k :: 0 <= k < |targets| && outcomes[k] && targets[k] == a))
      && (forall a :: a in admins && a.email == ProtectedEmail ==> a in r)
  {
    var targets := Refusable(admins);
    var ids := SucceededIds(targets, outcomes);
    FilterIsSubsequence(admins, (a: AdminUser) => a.id !in ids);
    forall a | a in admins
      ensures a.id in ids <==> a.id != "" && exists k :: 0 <= k < |targets| && outcomes[k] && targets[k] == a
    {
      if exists k :: 0 <= k < |targets| && outcomes[k] && targets[k].id == a.id {
        var k :| 0 <= k < |targets| && outcomes[k] && targets[k].id == a.id;
        var i :| 0 <= i < |admins| && admins[i] == a;
        SameIdSameAccount(admins, targets[k], i);
      }
    }
  }

  /**
   * With every request fulfilled and non-empty ids, bulk approval leaves no
   * account pending.
   */
  lemma ApproveAllSucceeding(admins: seq<AdminUser>)
    requires UniqueIds(admins) && forall a :: a in admins ==> a.id != ""
    ensures var outcomes := seq(|PendingAdmins(admins)|, _ => true);
      forall a :: a in ApproveAll(admins, outcomes) ==> !IsPending(a)
  {
    var pending := PendingAdmins(admins);
    var outcomes := seq(|pending|, _ => true);
    var r := ApproveAll(admins, outcomes);
    ApproveAllSpec(admins, outcomes);
    forall i | 0 <= i < |r| ensures !IsPending(r[i]) {
      if IsPending(admins[i]) {
        var k :| 0 <= k < |pending| && pending[k] == admins[i];
        assert outcomes[k];
      }
    }
  }

  /** What the page sends to the admin API when the form is saved. */
  datatype AdminRequest =
    | UpdateAdmin(id: string, full_name: Option<string>, email: Option<string>, role: Option<string>)
    | CreateAdmin(full_name: Option<string>, email: Option<string>, password: Option<string>, roleOrDefault: string)

  function Lookup(m: map<string, string>, key: string): Option<string>
  {
    if key in m then Some(m[key]) else None
  }

  /**
   * The request for a submitted form: an update of name, email and role when
   * editing (never the password), otherwise a creation of the form's name,
   * email and password with the chosen role, where a missing or empty role
   * becomes 'admin'.
   */
  function FormRequest(editing: Option<AdminUser>, formData: map<string, string>): (r: AdminRequest)
    ensures editing.Some? ==> r.UpdateAdmin? && r.id == editing.value.id
    ensures editing.None? ==>
      && r.CreateAdmin? && r.roleOrDefault != ""
      && r.full_name == Lookup(formData, "full_name")
      && r.email == Lookup(formData, "email")
      && r.password == Lookup(formData, "password")
      && (Lookup(formData, "role").Some? && Lookup(formData, "role").value != "" ==>
            r.roleOrDefault == Lookup(formData, "role").value)
      && (r.roleOrDefault == "admin" <==> Lookup(formData, "role") in {None, Some(""), Some("admin")})
  {
    if editing.Some? then
      UpdateAdmin(editing.value.id, Lookup(formData, "full_name"), Lookup(formData, "email"),
                  Lookup(formData, "role"))
    else
      var role := Lookup(formData, "role");
      CreateAdmin(Lookup(formData, "full_name"), Lookup(formData, "email"), Lookup(formData, "password"),
                  if role.Some? && role.value != "" then role.value else "admin")
  }

  /** An update carries the role as given and copies no password even when one is in the form. */
  lemma UpdateCarriesNoPassword(editing: AdminUser, formData: map<string, string>)
    ensures var r := FormRequest(Some(editing), formData);
      && r.role == Lookup(formData, "role")
      && r.full_name == Lookup(formData, "full_name") && r.email == Lookup(formData, "email")
  {
  }

  /** The admin-account page's state. */
  class AdminList {
    var admins: seq<AdminUser>
    var isModalOpen: bool
    var editingAdmin: Option<AdminUser>

    constructor ()
      ensures admins == [] && !isModalOpen && editingAdmin == None
    {
      admins := [];
      isModalOpen := false;
      editingAdmin := None;
    }

    /** The initial load: a fetched list (an absent body counts as empty) is mapped; a failure changes nothing. */
    method Load(response: Response<Option<seq<BackendUser>>>)
      modifies this
      ensures response.Success? ==>
        admins == Map(if response.body.Some? then response.body.value else [], MapFromBackend)
      ensures response.Failure? ==> admins == old(admins)
      ensures isModalOpen == old(isModalOpen) && editingAdmin == old(editingAdmin)
    {
      if response.Success? {
        admins := Map(if response.body.Some? then response.body.value else [], MapFromBackend);
      }
    }

    /**
     * `handleDelete`: once confirmed, the accounts with that id are removed
     * at once; a failed request puts the previous list back.
     */
    method HandleDelete(adminId: string, confirmed: bool, deleteSucceeds: bool)
      modifies this
      ensures confirmed && deleteSucceeds ==> admins == WithoutAdmin(old(admins), adminId)
      ensures !confirmed || !deleteSucceeds ==> admins == old(admins)
      ensures isModalOpen == old(isModalOpen) && editingAdmin == old(editingAdmin)
    {
      if confirmed {
        var prev := admins;
        admins := WithoutAdmin(admins, adminId);
        if !deleteSucceeds {
          admins := prev;
        }
      }
    }

    method HandleOpenModal(admin: Option<AdminUser>)
      modifies this
      ensures isModalOpen && editingAdmin == admin && admins == old(admins)
    {
      editingAdmin := admin;
      isModalOpen := true;
    }

    method HandleCloseModal()
      modifies this
      ensures !isModalOpen && editingAdmin == None && admins == old(admins)
    {
      isModalOpen := false;
      editingAdmin := None;
    }

    /**
     * `handleFormSubmit`: sends the request for the form; the returned
     * account replaces its namesakes when editing or is prepended when
     * creating, and the modal closes. A failed save changes nothing.
     */
    method HandleFormSubmit(formData: map<string, string>, response: Response<BackendUser>)
      returns (request: AdminRequest)
      modifies this
      ensures request == FormRequest(old(editingAdmin), formData)
      ensures response.Success? && old(editingAdmin).Some? ==>
        admins == ReplaceAdmin(old(admins), MapFromBackend(response.body))
      ensures response.Success? && old(editingAdmin).None? ==>
        admins == [MapFromBackend(response.body)] + old(admins)
      ensures response.Success? ==> !isModalOpen && editingAdmin == None
      ensures response.Failure? ==>
        admins == old(admins) && isModalOpen == old(isModalOpen) && editingAdmin == old(editingAdmin)
    {
      request := FormRequest(editingAdmin, formData);
      if response.Success? {
        var mapped := MapFromBackend(response.body);
        if editingAdmin.Some? {
          admins := ReplaceAdmin(admins, mapped);
        } else {
          admins := [mapped] + admins;
        }
        HandleCloseModal();
      }
    }

    /** `handleApprove`: the returned account replaces its namesakes; a failure changes nothing. */
    method HandleApprove(adminId: string, response: Response<BackendUser>)
      modifies this
      ensures response.Success? ==> admins == ReplaceAdmin(old(admins), MapFromBackend(response.body))
      ensures response.Failure? ==> admins == old(admins)
      ensures isModalOpen == old(isModalOpen) && editingAdmin == old(editingAdmin)
    {
      if response.Success? {
        admins := ReplaceAdmin(admins, MapFromBackend(response.body));
      }
    }

    /**
     * `handleApproveAll`: only a super administrator, and only with a pending
     * account, sends one approval per pending account (their ids are
     * returned); `outcomes[k]` says whether the k-th request was fulfilled.
     */
    method HandleApproveAll(currentUser: Option<User>, outcomes: seq<bool>) returns (requested: seq<string>)
      requires IsSuperAdmin(currentUser) && |PendingAdmins(admins)| > 0 ==> |outcomes| == |PendingAdmins(admins)|
      modifies this
      ensures !IsSuperAdmin(currentUser) || |PendingAdmins(old(admins))| == 0 ==>
        admins == old(admins) && requested == []
      ensures IsSuperAdmin(currentUser) && |PendingAdmins(old(admins))| > 0 ==>
        |outcomes| == |PendingAdmins(old(admins))| &&
        admins == ApproveAll(old(admins), outcomes) &&
        requested == Map(PendingAdmins(old(admins)), (a: AdminUser) => a.id)
      ensures isModalOpen == old(isModalOpen) && editingAdmin == old(editingAdmin)
    {
      requested := [];
      if !IsSuperAdmin(currentUser) {
        return;
      }
      var pending := PendingAdmins(admins);
      if |pending| == 0 {
        return;
      }
      requested := Map(pending, (a: AdminUser) => a.id);
      var approvedIds := SucceededIds(pending, outcomes);
      admins := ApproveByIds(admins, approvedIds);
    }

    /**
     * `handleRefuseAll`: only a super administrator, only with a refusable
     * account and only once confirmed, sends one delete per refusable
     * account and drops those whose delete was fulfilled.
     */
    method HandleRefuseAll(currentUser: Option<User>, confirmed: bool, outcomes: seq<bool>)
      returns (requested: seq<string>)
      requires IsSuperAdmin(currentUser) && |Refusable(admins)| > 0 && confirmed ==>
        |outcomes| == |Refusable(admins)|
      modifies this
      ensures !IsSuperAdmin(currentUser) || |Refusable(old(admins))| == 0 || !confirmed ==>
        admins == old(admins) && requested == []
      ensures IsSuperAdmin(currentUser) && |Refusable(old(admins))| > 0 && confirmed ==>
        |outcomes| == |Refusable(old(admins))| &&
        admins == RefuseAll(old(admins), outcomes) &&
        requested == Map(Refusable(old(admins)), (a: AdminUser) => a.id)
      ensures isModalOpen == old(isModalOpen) && editingAdmin == old(editingAdmin)
    {
      requested := [];
      if !IsSuperAdmin(currentUser) {
        return;
      }
      var pending := Refusable(admins);
      if |pending| == 0 {
        return;
      }
      if !confirmed {
        return;
      }
      requested := Map(pending, (a: AdminUser) => a.id);
      var deletedIds := SucceededIds(pending, outcomes);
      admins := RemoveByIds(admins, deletedIds);
    }
  }
}
