/** The navigation sidebar (src/components/Layout/Sidebar.tsx): which
    screens each role may open, and the role caption above them. */
module Sidebar {
  import opened Tipos
  import opened Texto

  datatype MenuItem = MenuItem(id: string, etiqueta: string)

  /** `getMenuItems`: the entries shown for the signed-in user's role, and
      none when nobody is signed in. */
  function MenuItems(usuario: Option<Usuario>): (items: seq<MenuItem>)
    ensures usuario.None? ==> items == []
    ensures |items| == (if usuario.None? then 0
                        else match usuario.value.rol
                             case Administrador => 7
                             case OperadorLogistico => 5
                             case Encargado => 2)
  {
    if usuario.None? then []
    else match usuario.value.rol
      case Administrador => [
        MenuItem("dashboard", "Dashboard"),
        MenuItem("clientes", "Clientes"),
        MenuItem("prospectos", "Prospectos"),
        MenuItem("equipos", "Equipos"),
        MenuItem("tareas", "Tareas"),
        MenuItem("visitas", "Programación"),
        MenuItem("usuarios", "Usuarios")]
      case OperadorLogistico => [
        MenuItem("dashboard", "Dashboard"),
        MenuItem("clientes", "Clientes"),
        MenuItem("visitas", "Programación"),
        MenuItem("equipos", "Equipos"),
        MenuItem("tareas", "Tareas")]
      case Encargado => [
        MenuItem("hoja-ruta", "Mi Hoja de Ruta"),
        MenuItem("visitas-hoy", "Visitas de Hoy")]
  }

  /** The ids of the entries, which the buttons are keyed by. */
  function Ids(items: seq<MenuItem>): seq<string>
  {
    seq(|items|, i requires 0 <= i < |items| => items[i].id)
  }

  /** Each role's entries, in order. */
  lemma IdsPorRol(u: Usuario)
    ensures u.rol == Administrador ==>
              Ids(MenuItems(Some(u))) == ["dashboard", "clientes", "prospectos", "equipos", "tareas", "visitas", "usuarios"]
    ensures u.rol == OperadorLogistico ==>
              Ids(MenuItems(Some(u))) == ["dashboard", "clientes", "visitas", "equipos", "tareas"]
    ensures u.rol == Encargado ==> Ids(MenuItems(Some(u))) == ["hoja-ruta", "visitas-hoy"]
  {
  }

  /** No role sees two entries with the same id. */
  lemma IdsDistintos(usuario: Option<Usuario>)
    ensures var ids := Ids(MenuItems(usuario));
            forall i, j :: 0 <= i < j < |ids| ==> ids[i] != ids[j]
  {
  }

  /** Access by role: the user list only for administrators, prospects only
      for administrators, the route sheet only for team leaders, and every
      logistics operator's entry is also an administrator's. */
  lemma AccesoPorRol(u: Usuario)
    ensures "usuarios" in Ids(MenuItems(Some(u))) <==> u.rol == Administrador
    ensures "prospectos" in Ids(MenuItems(Some(u))) <==> u.rol == Administrador
    ensures "hoja-ruta" in Ids(MenuItems(Some(u))) <==> u.rol == Encargado
    ensures u.rol == OperadorLogistico ==>
              forall it :: it in MenuItems(Some(u)) ==> it in MenuItems(Some(u.(rol := Administrador)))
  {
    var ids := Ids(MenuItems(Some(u)));
    match u.rol
    case Administrador =>
      assert ids[6] == "usuarios" && ids[2] == "prospectos";
    case OperadorLogistico =>
      var adm := MenuItems(Some(u.(rol := Administrador)));
      assert MenuItems(Some(u)) == [adm[0], adm[1], adm[5], adm[3], adm[4]];
    case Encargado =>
      assert ids[0] == "hoja-ruta";
  }

  /** The caption above the menu: the role name with its first '_' turned
      into a space, upper-cased; nothing when nobody is signed in. */
  function EtiquetaRol(usuario: Option<Usuario>): (s: Option<string>)
    ensures usuario.None? <==> s.None?
    ensures s.Some? ==> |s.value| == |RolNombre(usuario.value.rol)|
  {
    if usuario.None? then None
    else Some(ToUpper(ReplaceFirst(RolNombre(usuario.value.rol), '_', ' ')))
  }

  /** The three captions. */
  lemma EtiquetasDeRol(u: Usuario)
    ensures u.rol == Administrador ==> EtiquetaRol(Some(u)) == Some("ADMINISTRADOR")
    ensures u.rol == OperadorLogistico ==> EtiquetaRol(Some(u)) == Some("OPERADOR LOGISTICO")
    ensures u.rol == Encargado ==> EtiquetaRol(Some(u)) == Some("ENCARGADO")
  {
    match u.rol
    case Administrador => MayusculasSinGuion("administrador", "ADMINISTRADOR");
    case OperadorLogistico => EtiquetaOperador();
    case Encargado => MayusculasSinGuion("encargado", "ENCARGADO");
  }

  lemma EtiquetaOperador()
    ensures ToUpper(ReplaceFirst("operador_logistico", '_', ' ')) == "OPERADOR LOGISTICO"
  {
    GuionOperador();
    MayusculasOperador();
  }

  lemma GuionOperador()
    ensures ReplaceFirst("operador_logistico", '_', ' ') == "operador logistico"
  {
    var n := "operador_logistico";
    GuionEnOcho();
    assert ReplaceFirst(n, '_', ' ') == n[..8] + [' '] + n[9..];
    TrozosOperador();
    PalabrasOperador();
  }

  lemma TrozosOperador()
    ensures "operador_logistico"[..8] == "operador"
    ensures "operador_logistico"[9..] == "logistico"
  {
  }

  lemma GuionEnOcho()
    ensures IndexOf("operador_logistico", '_') == 8
  {
    var n := "operador_logistico";
    assert n[8] == '_';
    assert forall i :: 0 <= i < 8 ==> n[i] != '_';
    assert '_' !in n[..8];
  }

  lemma MayusculasOperador()
    ensures ToUpper("operador logistico") == "OPERADOR LOGISTICO"
  {
    Mayusculas("operador", "OPERADOR");
    Mayusculas("logistico", "LOGISTICO");
    Mayusculas(" ", " ");
    MayusculasConcat("operador", " ");
    MayusculasConcat("operador" + " ", "logistico");
    PalabrasOperador();
  }

  lemma PalabrasOperador()
    ensures "operador logistico" == "operador" + " " + "logistico"
    ensures "OPERADOR LOGISTICO" == "OPERADOR" + " " + "LOGISTICO"
  {
  }

  lemma MayusculasSinGuion(n: string, m: string)
    requires '_' !in n && |n| == |m|
    requires forall i :: 0 <= i < |n| ==> UpperChar(n[i]) == m[i]
    ensures ToUpper(ReplaceFirst(n, '_', ' ')) == m
  {
  }

  lemma MayusculasConcat(a: string, b: string)
    ensures ToUpper(a + b) == ToUpper(a) + ToUpper(b)
  {
  }

  lemma Mayusculas(n: string, m: string)
    requires |n| == |m|
    requires forall i :: 0 <= i < |n| ==> UpperChar(n[i]) == m[i]
    ensures ToUpper(n) == m
  {
  }
}
