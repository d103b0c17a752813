/** The session provider (src/contexts/AuthContext.tsx): the signed-in
    user, the loading flag, and the copy of the session kept in the
    browser's storage. Sign-in looks the e-mail up among the active users of
    a fixed list; the password is not checked. */
module Auth {
  import opened Tipos
  import opened Listas

  /** The user sign-in accepts for `email`: the first active user with that
      exact e-mail, or none. */
  function Autenticar(usuarios: seq<Usuario>, email: string): (r: Option<Usuario>)
    ensures r.Some? ==> r.value in usuarios && r.value.email == email && r.value.activo
    ensures r.None? <==> forall u :: u in usuarios ==> !(u.email == email && u.activo)
    ensures r.Some? ==> exists i :: 0 <= i < |usuarios| && usuarios[i] == r.value
                                    && forall j :: 0 <= j < i ==> !(usuarios[j].email == email && usuarios[j].activo)
  {
    Find(usuarios, (u: Usuario) => u.email == email && u.activo)
  }

  /** An e-mail that belongs only to inactive users, or to nobody, is refused. */
  lemma InactivoRechazado(usuarios: seq<Usuario>, email: string)
    requires forall u :: u in usuarios && u.email == email ==> !u.activo
    ensures Autenticar(usuarios, email).None?
  {
  }

  /** With unique e-mails, an active user's own e-mail signs in as that user. */
  lemma ActivoAceptado(usuarios: seq<Usuario>, u: Usuario)
    requires u in usuarios && u.activo
    requires forall i, j :: 0 <= i < j < |usuarios| ==> usuarios[i].email != usuarios[j].email
    ensures Autenticar(usuarios, u.email) == Some(u)
  {
    var r := Autenticar(usuarios, u.email);
    var k :| 0 <= k < |usuarios| && usuarios[k] == r.value;
    var m :| 0 <= m < |usuarios| && usuarios[m] == u;
    assert k == m;
  }

  class AuthProvider {
    /** The mock user list. */
    const usuarios: seq<Usuario>
    var usuario: Option<Usuario>
    var isLoading: bool
    /** `localStorage['usuario']`, kept as the user it encodes. */
    var sesionGuardada: Option<Usuario>

    /** Before the mount effect: nobody signed in, loading. */
    constructor (usuarios0: seq<Usuario>, sesion: Option<Usuario>)
      ensures usuarios == usuarios0 && sesionGuardada == sesion
      ensures usuario.None? && isLoading
    {
      usuarios := usuarios0;
      sesionGuardada := sesion;
      usuario := None;
      isLoading := true;
    }

    /** The user the stored session holds, if any, becomes the signed-in one. */
    predicate Sincronizada()
      reads this
    {
      usuario == sesionGuardada
    }

    /** The mount effect: a stored session is restored, and loading ends. */
    method Montar()
      modifies this
      ensures sesionGuardada.Some? ==> usuario == sesionGuardada
      ensures sesionGuardada.None? ==> usuario == old(usuario)
      ensures sesionGuardada == old(sesionGuardada) && !isLoading
    {
      if sesionGuardada.Some? {
        usuario := sesionGuardada;
      }
      isLoading := false;
    }

    /** `iniciarSesion`: on success the user is signed in and stored; on
        failure neither changes. Loading has ended either way. */
    method IniciarSesion(email: string, password: string) returns (ok: bool)
      modifies this
      ensures ok <==> Autenticar(usuarios, email).Some?
      ensures ok ==> usuario == Autenticar(usuarios, email) && sesionGuardada == usuario
      ensures !ok ==> usuario == old(usuario) && sesionGuardada == old(sesionGuardada)
      ensures !isLoading
      ensures old(Sincronizada()) ==> Sincronizada()
    {
      isLoading := true;
      var user := Autenticar(usuarios, email);
      if user.Some? {
        usuario := user;
        sesionGuardada := user;
        isLoading := false;
        return true;
      }
      isLoading := false;
      return false;
    }

    /** `cerrarSesion`: nobody signed in and nothing stored; the loading flag
        is left as it is. */
    method CerrarSesion()
      modifies this
      ensures usuario.None? && sesionGuardada.None? && Sincronizada()
      ensures isLoading == old(isLoading)
    {
      usuario := None;
      sesionGuardada := None;
    }
  }
}
