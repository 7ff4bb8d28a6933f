/** The session store the client keeps in the browser's local storage
    under one key. */
module Storage {
  import opened Wrappers

  datatype Role = Admin | Sucursal

  function RoleText(r: Role): string {
    match r
    case Admin => "admin"
    case Sucursal => "sucursal"
  }

  datatype SessionData = SessionData(access: string, refresh: string, rol: Role, sucursal: Option<int>, username: string)

  /** tokenStorage: the one storage slot, empty or holding a session. */
  class TokenStorage {
    var slot: Option<SessionData>

    constructor ()
      ensures slot == None
    {
      slot := None;
    }

    /** getSession: the stored session, or nothing. */
    function GetSession(): (s: Option<SessionData>)
      reads this
      ensures s == slot
    {
      slot
    }

    function GetAccess(): (a: Option<string>)
      reads this
      ensures a.None? <==> slot.None?
      ensures a.Some? ==> a.value == slot.value.access
    {
      if slot.Some? then Some(slot.value.access) else None
    }

    function GetRefresh(): (r: Option<string>)
      reads this
      ensures r.None? <==> slot.None?
      ensures r.Some? ==> r.value == slot.value.refresh
    {
      if slot.Some? then Some(slot.value.refresh) else None
    }

    function GetRole(): (r: Option<Role>)
      reads this
      ensures r.None? <==> slot.None?
      ensures r.Some? ==> r.value == slot.value.rol
    {
      if slot.Some? then Some(slot.value.rol) else None
    }

    /** getSucursal: nothing without a session, and nothing when the
        session's sucursal is null. */
    function GetSucursal(): (r: Option<int>)
      reads this
      ensures r.None? <==> slot.None? || slot.value.sucursal.None?
      ensures r.Some? ==> r == slot.value.sucursal
    {
      if slot.Some? then slot.value.sucursal else None
    }

    function GetUsername(): (u: Option<string>)
      reads this
      ensures u.None? <==> slot.None?
      ensures u.Some? ==> u.value == slot.value.username
    {
      if slot.Some? then Some(slot.value.username) else None
    }

    /** setSession: the new session replaces whatever was stored. */
    method SetSession(s: SessionData)
      modifies this
      ensures slot == Some(s)
    {
      slot := Some(s);
    }

    /** clear: the slot is emptied. */
    method Clear()
      modifies this
      ensures slot == None
    {
      slot := None;
    }
  }

  /** After setSession(s) every getter reads back its field of s, whatever
      was stored before. */
  lemma SetThenGet(t: TokenStorage, s: SessionData)
    requires t.slot == Some(s)
    ensures t.GetSession() == Some(s)
    ensures t.GetAccess() == Some(s.access) && t.GetRefresh() == Some(s.refresh)
    ensures t.GetRole() == Some(s.rol) && t.GetSucursal() == s.sucursal && t.GetUsername() == Some(s.username)
  {
  }

  /** With nothing stored (at start or after clear) every getter gives null. */
  lemma EmptyGetsNothing(t: TokenStorage)
    requires t.slot == None
    ensures t.GetSession() == None && t.GetAccess() == None && t.GetRefresh() == None
    ensures t.GetRole() == None && t.GetSucursal() == None && t.GetUsername() == None
  {
  }
}
