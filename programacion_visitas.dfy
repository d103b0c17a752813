/** The visit scheduling screen (src/components/Visitas/ProgramacionVisitas.tsx):
    the store of visits with its two updates, creating a visit from the
    dialog and rescheduling one, and the filter bar shared by the weekly
    table and the drag-and-drop calendar. */
module ProgramacionVisitas {
  import opened Tipos
  import opened Listas
  import opened Fechas
  import opened Agenda
  import opened CalendarioSemanal

  /** The "new visit" dialog's fields (`nuevaVisita`). */
  datatype FormVisita = FormVisita(
    clienteId: string,
    equipoId: string,
    fechaProgramada: string,
    tareasProgramadas: seq<string>)

  const FormVacio := FormVisita("", "", "", [])

  /** The filter bar: a client id, a team id and a status name, each of which
      may be the sentinel 'all'. */
  datatype Filtros = Filtros(cliente: string, equipo: string, estado: string)

  const SinFiltros := Filtros("all", "all", "all")

  /** `tareasPorPlan`: the fixed, ordered task list a new visit starts with. */
  function TareasPorPlan(p: Plan): (t: seq<string>)
    ensures |t| == 3
    ensures forall i, j :: 0 <= i < j < 3 ==> t[i] != t[j]
  {
    match p
    case Semanal => ["Poda de césped", "Riego de plantas", "Limpieza general"]
    case Quincenal => ["Mantenimiento de jardines", "Poda de arbustos", "Fertilización"]
    case Mensual => ["Mantenimiento completo", "Poda general", "Tratamiento de plagas"]
  }

  /** Each plan has its own task list. */
  lemma TareasPorPlanDistintas(p1: Plan, p2: Plan)
    requires p1 != p2
    ensures TareasPorPlan(p1) != TareasPorPlan(p2)
  {
  }

  /** The visit `crearVisita` builds, or `None` when it returns early: a
      blank client, team or date, or a client or team id that is not in the
      lists. The visit takes its names from the records found, its tasks
      from the client's plan, and starts scheduled with nothing done. */
  function NuevaVisita(form: FormVisita, clientes: seq<Cliente>, equipos: seq<Equipo>, id: string): (r: Option<Visita>)
    ensures r.Some? <==> form.clienteId != "" && form.equipoId != "" && form.fechaProgramada != ""
                         && BuscarCliente(clientes, form.clienteId).Some?
                         && BuscarEquipo(equipos, form.equipoId).Some?
    ensures r.Some? ==>
              var c, e, v := BuscarCliente(clientes, form.clienteId).value,
                             BuscarEquipo(equipos, form.equipoId).value, r.value;
              && v.id == id
              && v.clienteId == form.clienteId == c.id && v.clienteNombre == c.nombre
              && v.equipoId == form.equipoId == e.id && v.equipoNombre == e.nombre
              && v.fechaProgramada == form.fechaProgramada
              && v.fechaEjecucion.None? && v.tiempoTotal.None?
              && v.estado == Programada
              && v.tareasProgramadas == TareasPorPlan(c.plan)
              && v.tareasRealizadas == [] && v.tareasAdicionales == []
              && v.observaciones == ""
  {
    if form.clienteId == "" || form.equipoId == "" || form.fechaProgramada == "" then None
    else
      var cliente, equipo := BuscarCliente(clientes, form.clienteId), BuscarEquipo(equipos, form.equipoId);
      if cliente.None? || equipo.None? then None
      else
        Some(Visita(
          id := id,
          clienteId := form.clienteId,
          clienteNombre := cliente.value.nombre,
          equipoId := form.equipoId,
          equipoNombre := equipo.value.nombre,
          fechaProgramada := form.fechaProgramada,
          fechaEjecucion := None,
          estado := Programada,
          tareasProgramadas := TareasPorPlan(cliente.value.plan),
          tareasRealizadas := [],
          tareasAdicionales := [],
          observaciones := "",
          tiempoTotal := None))
  }

  /** `reagendarVisita`'s update of the list: every visit with the id gets
      the new date and the status 'reagendada'; every other visit, the length
      and the order stay as they were. */
  function Reagendar(vs: seq<Visita>, id: string, fecha: string): (r: seq<Visita>)
    ensures |r| == |vs|
    ensures forall i :: 0 <= i < |vs| && vs[i].id == id ==>
              r[i] == vs[i].(fechaProgramada := fecha, estado := Reagendada)
    ensures forall i :: 0 <= i < |vs| && vs[i].id != id ==> r[i] == vs[i]
  {
    seq(|vs|, i requires 0 <= i < |vs| =>
      if vs[i].id == id then vs[i].(fechaProgramada := fecha, estado := Reagendada) else vs[i])
  }

  /** Rescheduling twice to the same date is rescheduling once. */
  lemma ReagendarIdempotente(vs: seq<Visita>, id: string, fecha: string)
    ensures Reagendar(Reagendar(vs, id, fecha), id, fecha) == Reagendar(vs, id, fecha)
  {
    var r := Reagendar(vs, id, fecha);
    var rr := Reagendar(r, id, fecha);
    forall i | 0 <= i < |vs|
      ensures rr[i] == r[i]
    {
      if vs[i].id == id {
        assert r[i].id == id;
      }
    }
  }

  /** Dropping a visit on a column of the weekly calendar reschedules it to
      that column's day: afterwards it is in that day's list of all visits
      as 'reagendada', and every visit with another id is in the same days'
      lists as before. The calendar draws the list the filter bar lets
      through (`SoltarFiltrado`), where the dropped visit shows only while it
      passes the filters. */
  lemma SoltarEnDia(vs: seq<Visita>, id: string, d: Date)
    requires Valid(d) && 1000 <= d.year <= 9999
    ensures var r := Reagendar(vs, id, FechaDrop(d));
            forall i :: 0 <= i < |vs| && vs[i].id == id ==>
              r[i] in VisitasDelDia(r, d) && r[i].estado == Reagendada
    ensures var r := Reagendar(vs, id, FechaDrop(d));
            forall v: Visita, x: Date :: v.id != id ==> (v in VisitasDelDia(r, x) <==> v in VisitasDelDia(vs, x))
  {
    var r := Reagendar(vs, id, FechaDrop(d));
    forall v: Visita | v.id != id
      ensures v in r <==> v in vs
    {
      if v in r {
        var i :| 0 <= i < |r| && r[i] == v;
        assert vs[i] == v;
      }
      if v in vs {
        var i :| 0 <= i < |vs| && vs[i] == v;
        assert r[i] == v;
      }
    }
  }

  /** The filter bar's test: 'all' imposes nothing, any other value must
      equal the visit's client id, team id or status name. */
  predicate PasaFiltros(f: Filtros, v: Visita)
  {
    && (f.cliente == "all" || v.clienteId == f.cliente)
    && (f.equipo == "all" || v.equipoId == f.equipo)
    && (f.estado == "all" || EstadoNombre(v.estado) == f.estado)
  }

  /** The list handed to the weekly calendar: the visits that pass the
      filter bar, in list order. */
  function FiltrarVisitas(vs: seq<Visita>, f: Filtros): (r: seq<Visita>)
    ensures forall v :: v in r <==> v in vs && PasaFiltros(f, v)
    ensures Subsecuencia(r, vs)
    ensures forall v :: multiset(r)[v] == if PasaFiltros(f, v) then multiset(vs)[v] else 0
  {
    var p := v => PasaFiltros(f, v);
    FilterSubsecuencia(vs, p);
    assert forall v :: multiset(Filter(vs, p))[v] == if PasaFiltros(f, v) then multiset(vs)[v] else 0 by {
      forall v {
        FilterCuenta(vs, p, v);
      }
    }
    Filter(vs, p)
  }

  /** What the calendar shows after a drop: the dropped visit is in the
      target day's cell of the filtered list exactly when it passes the
      filters; in particular, with the status filter on any status other than
      'reagendada' it leaves the calendar. */
  lemma SoltarFiltrado(vs: seq<Visita>, id: string, d: Date, f: Filtros, i: int)
    requires Valid(d) && 1000 <= d.year <= 9999
    requires 0 <= i < |vs| && vs[i].id == id
    ensures var r := Reagendar(vs, id, FechaDrop(d));
            r[i] in VisitasDelDia(FiltrarVisitas(r, f), d) <==> PasaFiltros(f, r[i])
    ensures var r := Reagendar(vs, id, FechaDrop(d));
            f.estado != "all" && f.estado != "reagendada" ==> r[i] !in VisitasDelDia(FiltrarVisitas(r, f), d)
  {
    var r := Reagendar(vs, id, FechaDrop(d));
    SoltadaEnDia(vs, id, d, i);
    EnCeldaFiltrada(r, f, d, r[i]);
    if f.estado != "all" && f.estado != "reagendada" {
      FiltroOcultaReagendada(f, r[i]);
    }
  }

  /** A status filter on anything but 'reagendada' hides a rescheduled
      visit. */
  lemma FiltroOcultaReagendada(f: Filtros, v: Visita)
    requires v.estado == Reagendada && f.estado != "all" && f.estado != "reagendada"
    ensures !PasaFiltros(f, v)
  {
  }

  lemma SoltadaEnDia(vs: seq<Visita>, id: string, d: Date, i: int)
    requires Valid(d) && 1000 <= d.year <= 9999
    requires 0 <= i < |vs| && vs[i].id == id
    ensures var r := Reagendar(vs, id, FechaDrop(d));
            r[i] in r && EnDia(r[i], d) && r[i].estado == Reagendada
  {
    var r := Reagendar(vs, id, FechaDrop(d));
    assert r[i].fechaProgramada == FechaDrop(d);
  }

  /** A visit of day `d` is in that day's cell of the filtered list exactly
      when it passes the filters. */
  lemma EnCeldaFiltrada(r: seq<Visita>, f: Filtros, d: Date, v: Visita)
    requires v in r && EnDia(v, d)
    ensures v in VisitasDelDia(FiltrarVisitas(r, f), d) <==> PasaFiltros(f, v)
  {
  }

  /** With every filter at 'all' the whole list is shown, in order. */
  lemma SinFiltrosEsTodo(vs: seq<Visita>)
    ensures FiltrarVisitas(vs, SinFiltros) == vs
  {
    FilterTodos(vs, v => PasaFiltros(SinFiltros, v));
  }

  /** Filtering an already filtered list changes nothing. */
  lemma FiltrarIdempotente(vs: seq<Visita>, f: Filtros)
    ensures FiltrarVisitas(FiltrarVisitas(vs, f), f) == FiltrarVisitas(vs, f)
  {
    FilterIdempotente(vs, v => PasaFiltros(f, v));
  }

  predicate EnSemana(v: Visita, ref: Date)
    requires Valid(ref)
  {
    EnAlguno(v, DiasSemana(ref))
  }

  /** `visitasFiltradas` of the weekly table: the visits of the week of
      `ref` that pass the filter bar, in list order. */
  function VisitasSemana(vs: seq<Visita>, f: Filtros, ref: Date): (r: seq<Visita>)
    requires Valid(ref)
    ensures forall v :: v in r <==> v in vs && EnSemana(v, ref) && PasaFiltros(f, v)
    ensures Subsecuencia(r, vs)
    ensures forall v :: multiset(r)[v] == if EnSemana(v, ref) && PasaFiltros(f, v) then multiset(vs)[v] else 0
  {
    var p := v requires Valid(ref) => EnSemana(v, ref) && PasaFiltros(f, v);
    FilterSubsecuencia(vs, p);
    assert forall v :: multiset(Filter(vs, p))[v] == if EnSemana(v, ref) && PasaFiltros(f, v) then multiset(vs)[v] else 0 by {
      forall v {
        FilterCuenta(vs, p, v);
      }
    }
    Filter(vs, p)
  }

  /** The weekly table is the calendar's filtered list cut down to the week,
      and it holds exactly the visits of the calendar's seven columns, each
      as often. */
  lemma SemanaEsCalendario(vs: seq<Visita>, f: Filtros, ref: Date)
    requires Valid(ref)
    ensures VisitasSemana(vs, f, ref) == Filter(FiltrarVisitas(vs, f), v requires Valid(ref) => EnSemana(v, ref))
    ensures multiset(VisitasSemana(vs, f, ref)) == Celdas(FiltrarVisitas(vs, f), DiasSemana(ref))
  {
    SemanaFiltrada(vs, f, ref);
    var dias := DiasSemana(ref);
    SemanaParticion(FiltrarVisitas(vs, f), ref);
    FilterCongruente(FiltrarVisitas(vs, f), v requires Valid(ref) => EnSemana(v, ref),
                     v => EnAlguno(v, dias));
  }

  /** Cutting the filtered list down to the week is the weekly table. */
  lemma SemanaFiltrada(vs: seq<Visita>, f: Filtros, ref: Date)
    requires Valid(ref)
    ensures VisitasSemana(vs, f, ref) == Filter(FiltrarVisitas(vs, f), v requires Valid(ref) => EnSemana(v, ref))
  {
    FilterConjuncion(vs, v => PasaFiltros(f, v), v requires Valid(ref) => EnSemana(v, ref),
                     v requires Valid(ref) => PasaFiltros(f, v) && EnSemana(v, ref));
    FilterCongruente(vs, v requires Valid(ref) => PasaFiltros(f, v) && EnSemana(v, ref),
                     v requires Valid(ref) => EnSemana(v, ref) && PasaFiltros(f, v));
  }

  /** The component's state. */
  class Programacion {
    var visitas: seq<Visita>
    var clientes: seq<Cliente>
    var equipos: seq<Equipo>
    var nuevaVisita: FormVisita
    var isDialogOpen: bool

    /** The state after the mount effect has loaded the three lists. */
    constructor (clientes0: seq<Cliente>, equipos0: seq<Equipo>, visitas0: seq<Visita>)
      ensures clientes == clientes0 && equipos == equipos0 && visitas == visitas0
      ensures nuevaVisita == FormVacio && !isDialogOpen
    {
      clientes, equipos, visitas := clientes0, equipos0, visitas0;
      nuevaVisita := FormVacio;
      isDialogOpen := false;
    }

    /** `crearVisita`, with `Date.now().toString()` passed in as `id`. On
        success the new visit is appended and the dialog is reset and closed;
        otherwise nothing changes. */
    method CrearVisita(id: string)
      modifies this
      ensures clientes == old(clientes) && equipos == old(equipos)
      ensures var r := NuevaVisita(old(nuevaVisita), old(clientes), old(equipos), id);
              r.None? ==> visitas == old(visitas) && nuevaVisita == old(nuevaVisita)
                          && isDialogOpen == old(isDialogOpen)
      ensures var r := NuevaVisita(old(nuevaVisita), old(clientes), old(equipos), id);
              r.Some? ==> visitas == old(visitas) + [r.value] && nuevaVisita == FormVacio && !isDialogOpen
    {
      var visita := NuevaVisita(nuevaVisita, clientes, equipos, id);
      match visita
      case None =>
      case Some(v) =>
        visitas := visitas + [v];
        nuevaVisita := FormVacio;
        isDialogOpen := false;
    }

    /** `reagendarVisita`: the list is replaced by its rescheduled copy. */
    method ReagendarVisita(visitaId: string, nuevaFecha: string)
      modifies this
      ensures visitas == Reagendar(old(visitas), visitaId, nuevaFecha)
      ensures clientes == old(clientes) && equipos == old(equipos)
      ensures nuevaVisita == old(nuevaVisita) && isDialogOpen == old(isDialogOpen)
    {
      visitas := Reagendar(visitas, visitaId, nuevaFecha);
    }
  }
}
