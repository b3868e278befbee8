/** The admin-creation dialog of
    src/components/adminDashboard/adminManagement/helperModals/CreateAdminModal.jsx: the permission map
    and its checkboxes, the request body, the outcome of a submission and the close reset. */
module CreateAdmin {
  import opened Wrappers

  /** The permission keys, in the order the dialog lists them. */
  const PermissionKeys: seq<string> := ["canManageUsers", "canCreateTokens", "canDeleteTokens", "canEditAdmin",
                                        "canAccessMemoryEditor", "canAccessPersonalisedConfig"]
  const DefaultRole := "ADMIN"

  /** What a successful creation returns for display. */
  datatype Generated = Generated(token: string, inviteUrl: string)

  datatype Dialog = Dialog(role: string, permissions: map<string, bool>, submitting: bool,
                           generated: Option<Generated>)

  /** The request body: exactly the role and the permission map. */
  datatype CreateBody = CreateBody(role: string, permissions: map<string, bool>)

  /** The server's answer: success with the new admin's token and invite link, or anything else. */
  datatype Reply = Created(token: string, inviteUrl: string) | Refused

  /** The `reduce` that builds the permission map: one `false` entry per key, added left to right. */
  function AllFalse(keys: seq<string>): (m: map<string, bool>)
    ensures m.Keys == set k | k in keys
    ensures forall k :: k in m ==> !m[k]
    decreases |keys|
  {
    if keys == [] then map[] else AllFalse(keys[..|keys| - 1])[keys[|keys| - 1] := false]
  }

  /** The permission map a dialog starts with and is reset to. */
  function InitialPermissions(): (m: map<string, bool>)
    ensures m.Keys == {"canManageUsers", "canCreateTokens", "canDeleteTokens", "canEditAdmin",
                       "canAccessMemoryEditor", "canAccessPersonalisedConfig"}
    ensures forall k :: k in m ==> !m[k]
  {
    AllFalse(PermissionKeys)
  }

  function InitialDialog(): Dialog {
    Dialog(DefaultRole, InitialPermissions(), false, None)
  }

  /** `handleCheckboxChange(key)`: the key is negated, a missing key counting as false. */
  function Toggle(m: map<string, bool>, key: string): (r: map<string, bool>)
    ensures r.Keys == m.Keys + {key}
    ensures r[key] == !(key in m && m[key])
    ensures forall k :: k in m && k != key ==> r[k] == m[k]
  {
    m[key := !(key in m && m[key])]
  }

  /** Toggling the same key twice restores a map that has the key; a missing key comes back as false. */
  lemma ToggleTwice(m: map<string, bool>, key: string)
    ensures key in m ==> Toggle(Toggle(m, key), key) == m
    ensures key !in m ==> Toggle(Toggle(m, key), key) == m[key := false]
  {
    if key in m {
      assert Toggle(Toggle(m, key), key).Keys == m.Keys;
    }
  }

  /** Toggles of two different keys commute. */
  lemma ToggleCommutes(m: map<string, bool>, a: string, b: string)
    requires a != b
    ensures Toggle(Toggle(m, a), b) == Toggle(Toggle(m, b), a)
  {
  }

  /** Toggling a listed key keeps the map's key set at the six permissions. */
  lemma ToggleKeepsKeys(m: map<string, bool>, key: string)
    requires m.Keys == InitialPermissions().Keys && key in m
    ensures Toggle(m, key).Keys == InitialPermissions().Keys
  {
  }

  function Body(d: Dialog): (b: CreateBody)
    ensures b.role == d.role && b.permissions == d.permissions
  {
    CreateBody(d.role, d.permissions)
  }

  /** The end of `handleSubmit`: a creation shows the generated token and link; any other outcome keeps
      what was shown; the submitting flag is cleared either way. */
  function SubmitFinished(d: Dialog, reply: Reply): (r: Dialog)
    ensures !r.submitting && r.role == d.role && r.permissions == d.permissions
    ensures reply.Created? ==> r.generated == Some(Generated(reply.token, reply.inviteUrl))
    ensures reply.Refused? ==> r.generated == d.generated
  {
    match reply
    case Created(token, url) => d.(submitting := false, generated := Some(Generated(token, url)))
    case Refused => d.(submitting := false)
  }

  /** `handleClose`: the generated data is dropped, the role is "ADMIN" again and every permission is
      false. */
  function HandleClose(d: Dialog): (r: Dialog)
    ensures r.generated.None? && r.role == DefaultRole && r.permissions == InitialPermissions()
    ensures r.submitting == d.submitting
  {
    d.(generated := None, role := DefaultRole, permissions := InitialPermissions())
  }
}
