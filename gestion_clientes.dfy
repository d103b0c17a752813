/** Client management (src/components/Clientes/GestionClientes.tsx): the
    client list, the create/edit dialog's form, the search box and group
    filter, and the group and plan badge colours. */
module GestionClientes {
  import opened Tipos
  import opened Texto
  import opened Listas

  /** The dialog's fields (`formData`). */
  datatype FormCliente = FormCliente(
    nombre: string,
    direccion: string,
    telefono: string,
    email: string,
    grupo: Grupo,
    plan: Plan,
    diaAsignado: string,
    observaciones: string)

  /** The form as `resetForm` leaves it. */
  const FormInicial := FormCliente("", "", "", "", C, Semanal, "lunes", "")

  /** The form's fields marked `required`: the browser submits only when
      they are all filled in. */
  predicate Completo(f: FormCliente)
  {
    f.nombre != "" && f.telefono != "" && f.email != "" && f.direccion != ""
  }

  /** `editarCliente`'s copy of a client into the form. */
  function FormDe(c: Cliente): FormCliente
  {
    FormCliente(c.nombre, c.direccion, c.telefono, c.email, c.grupo, c.plan, c.diaAsignado, c.observaciones)
  }

  /** `{ ...cliente, ...formData }`: the form's eight fields replace the
      client's, and the client keeps its id, registration date, active flag
      and history. */
  function AplicarForm(c: Cliente, f: FormCliente): (r: Cliente)
    ensures FormDe(r) == f
    ensures r.id == c.id && r.fechaRegistro == c.fechaRegistro && r.activo == c.activo
            && r.historial == c.historial
  {
    c.(nombre := f.nombre, direccion := f.direccion, telefono := f.telefono, email := f.email,
       grupo := f.grupo, plan := f.plan, diaAsignado := f.diaAsignado, observaciones := f.observaciones)
  }

  /** Saving the form a client was loaded into, untouched, gives back the
      same client. */
  lemma AplicarFormDe(c: Cliente)
    ensures AplicarForm(c, FormDe(c)) == c
  {
  }

  /** The update of the edit branch: every client with the edited id takes
      the form's fields; the others, the order and the length are kept. */
  function Editar(cs: seq<Cliente>, id: string, f: FormCliente): (r: seq<Cliente>)
    ensures |r| == |cs|
    ensures forall i :: 0 <= i < |cs| ==> r[i] == if cs[i].id == id then AplicarForm(cs[i], f) else cs[i]
  {
    seq(|cs|, i requires 0 <= i < |cs| => if cs[i].id == id then AplicarForm(cs[i], f) else cs[i])
  }

  /** No two clients share an id. */
  predicate IdsUnicos(cs: seq<Cliente>)
  {
    forall i, j :: 0 <= i < j < |cs| ==> cs[i].id != cs[j].id
  }

  /** Editing a client and saving without changing anything leaves the list
      as it was, when ids are unique. */
  lemma EditarSinCambios(cs: seq<Cliente>, c: Cliente)
    requires IdsUnicos(cs) && c in cs
    ensures Editar(cs, c.id, FormDe(c)) == cs
  {
    var k :| 0 <= k < |cs| && cs[k] == c;
    forall i | 0 <= i < |cs| && cs[i].id == c.id
      ensures cs[i] == c
    {
      assert i == k;
    }
  }

  /** Editing keeps every id where it was, so unique ids stay unique. */
  lemma EditarIds(cs: seq<Cliente>, id: string, f: FormCliente)
    ensures forall i :: 0 <= i < |cs| ==> Editar(cs, id, f)[i].id == cs[i].id
    ensures IdsUnicos(cs) ==> IdsUnicos(Editar(cs, id, f))
  {
  }

  /** The client the create branch appends, with `Date.now().toString()`
      and today's `YYYY-MM-DD` passed in: the form's fields, active, with no
      history. */
  function NuevoCliente(f: FormCliente, id: string, hoy: string): (c: Cliente)
    ensures FormDe(c) == f
    ensures c.id == id && c.fechaRegistro == hoy && c.activo && c.historial == []
  {
    Cliente(id, f.nombre, f.direccion, f.telefono, f.email, f.grupo, f.plan, f.diaAsignado,
            hoy, true, f.observaciones, [])
  }

  /** Appending a client whose id is new keeps ids unique. */
  lemma AltaIdsUnicos(cs: seq<Cliente>, f: FormCliente, id: string, hoy: string)
    requires IdsUnicos(cs)
    requires forall c :: c in cs ==> c.id != id
    ensures IdsUnicos(cs + [NuevoCliente(f, id, hoy)])
  {
    var r := cs + [NuevoCliente(f, id, hoy)];
    forall i, j | 0 <= i < j < |r|
      ensures r[i].id != r[j].id
    {
      if j == |cs| {
        assert r[i] in cs;
      }
    }
  }

  /** The search box matches a client when the lower-cased text occurs in
      its lower-cased name or e-mail; the group filter matches when it is
      'todos' or the client's group letter. */
  predicate Coincide(c: Cliente, searchText: string, filtroGrupo: string)
  {
    && (Includes(ToLower(c.nombre), ToLower(searchText)) || Includes(ToLower(c.email), ToLower(searchText)))
    && EnGrupo(c, filtroGrupo)
  }

  predicate EnGrupo(c: Cliente, filtroGrupo: string)
  {
    filtroGrupo == "todos" || GrupoNombre(c.grupo) == filtroGrupo
  }

  /** `clientesFiltrados`: the clients matching both filters, in list order. */
  function ClientesFiltrados(cs: seq<Cliente>, searchText: string, filtroGrupo: string): (r: seq<Cliente>)
    ensures forall c :: c in r <==> c in cs && Coincide(c, searchText, filtroGrupo)
    ensures Subsecuencia(r, cs)
    ensures forall c :: multiset(r)[c] == if Coincide(c, searchText, filtroGrupo) then multiset(cs)[c] else 0
  {
    var p := c => Coincide(c, searchText, filtroGrupo);
    FilterSubsecuencia(cs, p);
    assert forall c :: multiset(Filter(cs, p))[c] == if Coincide(c, searchText, filtroGrupo) then multiset(cs)[c] else 0 by {
      forall c {
        FilterCuenta(cs, p, c);
      }
    }
    Filter(cs, p)
  }

  /** With an empty search and 'todos' every client is listed, in order. */
  lemma SinFiltrosTodos(cs: seq<Cliente>)
    ensures ClientesFiltrados(cs, "", "todos") == cs
  {
    forall i | 0 <= i < |cs|
      ensures Coincide(cs[i], "", "todos")
    {
      IncludesVacioYPropio(ToLower(cs[i].nombre));
    }
    FilterTodos(cs, c => Coincide(c, "", "todos"));
  }

  /** Searching a client's own name, in any letter case, finds it. */
  lemma BuscarPorNombre(cs: seq<Cliente>, c: Cliente, searchText: string)
    requires c in cs && ToLower(searchText) == ToLower(c.nombre)
    ensures c in ClientesFiltrados(cs, searchText, "todos")
    ensures c in ClientesFiltrados(cs, searchText, GrupoNombre(c.grupo))
  {
    IncludesVacioYPropio(ToLower(c.nombre));
  }

  /** A group filter other than 'todos' narrows the text-filtered list to
      the clients of that group, keeping their order. */
  lemma FiltroGrupo(cs: seq<Cliente>, searchText: string, g: string)
    ensures ClientesFiltrados(cs, searchText, g)
            == Filter(ClientesFiltrados(cs, searchText, "todos"), (c: Cliente) => EnGrupo(c, g))
  {
    FilterConjuncion(cs, c => Coincide(c, searchText, "todos"), (c: Cliente) => EnGrupo(c, g),
                     c => Coincide(c, searchText, g));
  }

  /** The empty-list hint: adjust the filters when any is set, otherwise
      add the first client. */
  function MensajeVacio(searchText: string, filtroGrupo: string): (m: string)
    ensures m == "Intenta ajustar los filtros de búsqueda" <==> searchText != "" || filtroGrupo != "todos"
    ensures m != "Intenta ajustar los filtros de búsqueda" ==> m == "Comienza agregando tu primer cliente"
  {
    if searchText != "" || filtroGrupo != "todos" then "Intenta ajustar los filtros de búsqueda"
    else "Comienza agregando tu primer cliente"
  }

  /** `getGrupoColor`: green for A, blue for B, grey for C and anything else. */
  function GrupoColor(grupo: string): (c: string)
    ensures c == "bg-green-100 text-green-800" <==> GrupoDe(grupo) == Some(A)
    ensures c == "bg-blue-100 text-blue-800" <==> GrupoDe(grupo) == Some(B)
    ensures c == "bg-gray-100 text-gray-800" <==> GrupoDe(grupo) !in {Some(A), Some(B)}
  {
    match grupo
    case "A" => "bg-green-100 text-green-800"
    case "B" => "bg-blue-100 text-blue-800"
    case "C" => "bg-gray-100 text-gray-800"
    case _ => "bg-gray-100 text-gray-800"
  }

  /** `getPlanColor`: one colour per plan, grey for anything else. */
  function PlanColor(plan: string): (c: string)
    ensures c == "bg-gray-100 text-gray-800" <==> PlanDe(plan).None?
  {
    match plan
    case "semanal" => "bg-purple-100 text-purple-800"
    case "quincenal" => "bg-orange-100 text-orange-800"
    case "mensual" => "bg-yellow-100 text-yellow-800"
    case _ => "bg-gray-100 text-gray-800"
  }

  /** Different plans get different colours. */
  lemma PlanColorInyectivo(p1: Plan, p2: Plan)
    requires p1 != p2
    ensures PlanColor(PlanNombre(p1)) != PlanColor(PlanNombre(p2))
  {
  }

  /** The component's state. */
  class GestionClientes {
    var clientes: seq<Cliente>
    var searchText: string
    var filtroGrupo: string
    var isDialogOpen: bool
    var clienteEditando: Option<Cliente>
    var formData: FormCliente

    constructor (clientes0: seq<Cliente>)
      ensures clientes == clientes0 && searchText == "" && filtroGrupo == "todos"
      ensures !isDialogOpen && clienteEditando.None? && formData == FormInicial
    {
      clientes := clientes0;
      searchText, filtroGrupo := "", "todos";
      isDialogOpen := false;
      clienteEditando := None;
      formData := FormInicial;
    }

    /** `resetForm`: the form back to its defaults and no client in edition. */
    method ResetForm()
      modifies this
      ensures formData == FormInicial && clienteEditando.None?
      ensures clientes == old(clientes) && searchText == old(searchText)
      ensures filtroGrupo == old(filtroGrupo) && isDialogOpen == old(isDialogOpen)
    {
      formData := FormInicial;
      clienteEditando := None;
    }

    /** `editarCliente`: remember the client, load it into the form, open
        the dialog. */
    method EditarCliente(c: Cliente)
      modifies this
      ensures clienteEditando == Some(c) && formData == FormDe(c) && isDialogOpen
      ensures clientes == old(clientes) && searchText == old(searchText) && filtroGrupo == old(filtroGrupo)
    {
      clienteEditando := Some(c);
      formData := FormDe(c);
      isDialogOpen := true;
    }

    /** `handleSubmit`, with the new id and today's date passed in: the edit
        branch rewrites the clients with the edited id, the create branch
        appends a new client; both then reset the form and close the dialog. */
    method HandleSubmit(nuevoId: string, hoy: string)
      requires Completo(formData)
      modifies this
      ensures old(clienteEditando).Some? ==> clientes == Editar(old(clientes), old(clienteEditando).value.id, old(formData))
      ensures old(clienteEditando).None? ==> clientes == old(clientes) + [NuevoCliente(old(formData), nuevoId, hoy)]
      ensures formData == FormInicial && clienteEditando.None? && !isDialogOpen
      ensures searchText == old(searchText) && filtroGrupo == old(filtroGrupo)
    {
      if clienteEditando.Some? {
        clientes := Editar(clientes, clienteEditando.value.id, formData);
      } else {
        clientes := clientes + [NuevoCliente(formData, nuevoId, hoy)];
      }
      ResetForm();
      isDialogOpen := false;
    }
  }
}
