/** The daily view (src/components/Visitas/VistaDiaria.tsx): the visits of
    the selected day, grouped into one card per team, the three counters at
    the top, the day navigation buttons and the fallback labels of a card. */
module VistaDiaria {
  import opened Tipos
  import opened Listas
  import opened Fechas
  import opened Agenda

  /** The teams that have at least one visit in `vs`. */
  function EquiposDe(vs: seq<Visita>): set<string>
  {
    if vs == [] then {} else EquiposDe(vs[..|vs| - 1]) + {vs[|vs| - 1].equipoId}
  }

  /** A team has a visit in `vs` exactly when it is among `EquiposDe(vs)`. */
  lemma {:induction false} EquiposDeMiembro(vs: seq<Visita>, k: string)
    ensures k in EquiposDe(vs) <==> exists i :: 0 <= i < |vs| && vs[i].equipoId == k
    decreases |vs|
  {
    if vs != [] {
      var init := vs[..|vs| - 1];
      EquiposDeMiembro(init, k);
      if exists i :: 0 <= i < |vs| && vs[i].equipoId == k {
        var i :| 0 <= i < |vs| && vs[i].equipoId == k;
        if i < |vs| - 1 {
          assert init[i].equipoId == k;
        }
      }
      if exists i :: 0 <= i < |init| && init[i].equipoId == k {
        var i :| 0 <= i < |init| && init[i].equipoId == k;
        assert vs[i].equipoId == k;
      }
    }
  }

  /** The visits of team `k`, in list order. */
  function DelEquipo(vs: seq<Visita>, k: string): seq<Visita>
  {
    Filter(vs, (v: Visita) => v.equipoId == k)
  }

  /** A team with no visit in `vs` gets an empty list. */
  lemma {:induction false} DelEquipoVacio(vs: seq<Visita>, k: string)
    requires k !in EquiposDe(vs)
    ensures DelEquipo(vs, k) == []
    decreases |vs|
  {
    if vs != [] {
      var init := vs[..|vs| - 1];
      DelEquipoVacio(init, k);
      assert vs == init + [vs[|vs| - 1]];
      FilterConcat(init, [vs[|vs| - 1]], (w: Visita) => w.equipoId == k);
    }
  }

  /** `visitasPorEquipo`: the day's visits reduced into a record keyed by
      team id. Its keys are exactly the teams with a visit that day, and each
      team's list holds that team's visits in the order of the day's list. */
  method AgruparPorEquipo(hoy: seq<Visita>) returns (grupos: map<string, seq<Visita>>)
    ensures grupos.Keys == EquiposDe(hoy)
    ensures forall k :: k in grupos ==> grupos[k] == DelEquipo(hoy, k)
    ensures |grupos| == 0 <==> hoy == []
  {
    grupos := map[];
    var i := 0;
    while i < |hoy|
      invariant 0 <= i <= |hoy|
      invariant Agrupa(grupos, hoy[..i])
    {
      var v := hoy[i];
      PasoAgrupar(grupos, hoy, i);
      grupos := grupos[v.equipoId := Anteriores(grupos, v.equipoId) + [v]];
      i := i + 1;
    }
    AgrupaCompleto(grupos, hoy);
  }

  /** `grupos` is the grouping of `s` by team. */
  predicate Agrupa(grupos: map<string, seq<Visita>>, s: seq<Visita>)
  {
    && grupos.Keys == EquiposDe(s)
    && forall k :: k in grupos ==> grupos[k] == DelEquipo(s, k)
  }

  /** `acc[k]`, created empty when missing. */
  function Anteriores(grupos: map<string, seq<Visita>>, k: string): seq<Visita>
  {
    if k in grupos then grupos[k] else []
  }

  /** One step of the `reduce`: pushing the `i`-th visit onto its team's
      list groups the list one visit longer. */
  lemma PasoAgrupar(grupos: map<string, seq<Visita>>, hoy: seq<Visita>, i: int)
    requires 0 <= i < |hoy| && Agrupa(grupos, hoy[..i])
    ensures var v := hoy[i];
            Agrupa(grupos[v.equipoId := Anteriores(grupos, v.equipoId) + [v]], hoy[..i + 1])
  {
    assert hoy[..i + 1] == hoy[..i] + [hoy[i]];
    AgregarVisita(grupos, hoy[..i], hoy[i]);
  }

  /** Pushing `v` onto its team's list (created empty when missing) groups
      the list extended by `v`. */
  lemma AgregarVisita(grupos: map<string, seq<Visita>>, s: seq<Visita>, v: Visita)
    requires Agrupa(grupos, s)
    ensures Agrupa(grupos[v.equipoId := Anteriores(grupos, v.equipoId) + [v]], s + [v])
  {
    var g := grupos[v.equipoId := Anteriores(grupos, v.equipoId) + [v]];
    assert (s + [v])[..|s|] == s;
    assert EquiposDe(s + [v]) == EquiposDe(s) + {v.equipoId};
    if v.equipoId !in grupos {
      DelEquipoVacio(s, v.equipoId);
    }
    forall k | k in g
      ensures g[k] == DelEquipo(s + [v], k)
    {
      DelEquipoSnoc(s, v, k);
    }
  }

  /** Once the whole day is folded in, the grouping has no keys exactly
      when the day has no visit. */
  lemma AgrupaCompleto(grupos: map<string, seq<Visita>>, hoy: seq<Visita>)
    requires Agrupa(grupos, hoy[..|hoy|])
    ensures Agrupa(grupos, hoy)
    ensures |grupos| == 0 <==> hoy == []
  {
    assert hoy[..|hoy|] == hoy;
    if hoy != [] {
      EquiposDeMiembro(hoy, hoy[0].equipoId);
      assert hoy[0].equipoId in grupos;
    }
  }

  lemma DelEquipoSnoc(s: seq<Visita>, v: Visita, k: string)
    ensures DelEquipo(s + [v], k) == DelEquipo(s, k) + (if k == v.equipoId then [v] else [])
  {
    FilterConcat(s, [v], (w: Visita) => w.equipoId == k);
  }

  /** Each visit of the day is shown once per occurrence, on its own team's
      card and on no other. */
  lemma GruposParticion(hoy: seq<Visita>, k: string, v: Visita)
    ensures multiset(DelEquipo(hoy, k))[v] == if v.equipoId == k then multiset(hoy)[v] else 0
  {
    FilterCuenta(hoy, (w: Visita) => w.equipoId == k, v);
  }

  /** The statuses of the day's visits, one per visit, in order. */
  function Estados(hoy: seq<Visita>): (r: seq<Estado>)
    ensures |r| == |hoy|
    ensures forall i :: 0 <= i < |hoy| ==> r[i] == hoy[i].estado
  {
    seq(|hoy|, i requires 0 <= i < |hoy| => hoy[i].estado)
  }

  /** Filtering the day's visits by a test that reads only the status `e`
      keeps as many visits as the statuses hold copies of `e`. */
  lemma {:induction false} CuentaEstado(hoy: seq<Visita>, p: Visita -> bool, e: Estado)
    requires forall v :: p(v) == (v.estado == e)
    ensures |Filter(hoy, p)| == multiset(Estados(hoy))[e]
    decreases |hoy|
  {
    if hoy != [] {
      CuentaEstado(hoy[1..], p, e);
      assert Estados(hoy) == [hoy[0].estado] + Estados(hoy[1..]);
    }
  }

  /** The "Completadas" counter: the visits of the day in state
      'completada'. */
  function Completadas(hoy: seq<Visita>): (n: nat)
    ensures n <= |hoy|
    ensures n == multiset(Estados(hoy))[Completada]
  {
    var p := (v: Visita) => v.estado == Completada;
    CuentaEstado(hoy, p, Completada);
    |Filter(hoy, p)|
  }

  /** The "Pendientes" counter: the visits still 'programada'. */
  function Pendientes(hoy: seq<Visita>): (n: nat)
    ensures n <= |hoy|
    ensures n == multiset(Estados(hoy))[Programada]
  {
    var p := (v: Visita) => v.estado == Programada;
    CuentaEstado(hoy, p, Programada);
    |Filter(hoy, p)|
  }

  /** The two status counters never add up to more than the day's total
      ("Visitas Programadas"), which counts every visit of the day. */
  lemma ContadoresAcotados(hoy: seq<Visita>)
    ensures Completadas(hoy) + Pendientes(hoy) <= |hoy|
    ensures Completadas(hoy) + Pendientes(hoy) == |hoy| <==>
              forall i :: 0 <= i < |hoy| ==> hoy[i].estado in {Completada, Programada}
  {
    ContadoresPorEstado(hoy);
    var otros := Otros(hoy);
    if otros != [] {
      assert otros[0] in hoy;
    }
  }

  /** The visits of the day counted by neither status counter. */
  function Otros(hoy: seq<Visita>): (r: seq<Visita>)
    ensures r == [] <==> forall i :: 0 <= i < |hoy| ==> hoy[i].estado in {Completada, Programada}
  {
    var r := Filter(hoy, (v: Visita) => v.estado !in {Completada, Programada});
    assert r != [] ==> r[0] in hoy;
    r
  }

  lemma {:induction false} ContadoresPorEstado(hoy: seq<Visita>)
    ensures Completadas(hoy) + Pendientes(hoy) + |Otros(hoy)| == |hoy|
    decreases |hoy|
  {
    if hoy != [] {
      ContadoresPorEstado(hoy[1..]);
    }
  }

  /** "← Anterior". */
  function Anterior(d: Date): (r: Date)
    requires Valid(d)
    ensures Valid(r) && DayNumber(r) == DayNumber(d) - 1
  {
    AddDays(d, -1)
  }

  /** "Siguiente →". */
  function Siguiente(d: Date): (r: Date)
    requires Valid(d)
    ensures Valid(r) && DayNumber(r) == DayNumber(d) + 1
  {
    AddDays(d, 1)
  }

  /** Going back a day and then forward a day, or the other way round,
      returns to the day shown. */
  lemma AnteriorSiguiente(d: Date)
    requires Valid(d)
    ensures Siguiente(Anterior(d)) == d
    ensures Anterior(Siguiente(d)) == d
  {
    DayNumberInyectivo(Siguiente(Anterior(d)), d);
    DayNumberInyectivo(Anterior(Siguiente(d)), d);
  }

  /** A team card's title: `equipo?.nombre || 'Equipo Desconocido'`, so an
      unknown team and a team with an empty name both get the fallback. */
  function TituloEquipo(equipos: seq<Equipo>, equipoId: string): (t: string)
    ensures t != ""
    ensures (BuscarEquipo(equipos, equipoId).Some? && BuscarEquipo(equipos, equipoId).value.nombre != "")
            ==> t == BuscarEquipo(equipos, equipoId).value.nombre
    ensures (forall e :: e in equipos ==> e.id != equipoId) ==> t == "Equipo Desconocido"
    ensures (BuscarEquipo(equipos, equipoId).Some? && BuscarEquipo(equipos, equipoId).value.nombre == "")
            ==> t == "Equipo Desconocido"
  {
    match BuscarEquipo(equipos, equipoId)
    case Some(e) => if e.nombre != "" then e.nombre else "Equipo Desconocido"
    case None => "Equipo Desconocido"
  }

  /** A visit's address line: `cliente?.direccion || 'Dirección no disponible'`. */
  function DireccionVisita(clientes: seq<Cliente>, v: Visita): (t: string)
    ensures t != ""
    ensures (BuscarCliente(clientes, v.clienteId).Some? && BuscarCliente(clientes, v.clienteId).value.direccion != "")
            ==> t == BuscarCliente(clientes, v.clienteId).value.direccion
    ensures (forall c :: c in clientes ==> c.id != v.clienteId) ==> t == "Dirección no disponible"
    ensures (BuscarCliente(clientes, v.clienteId).Some? && BuscarCliente(clientes, v.clienteId).value.direccion == "")
            ==> t == "Dirección no disponible"
  {
    match BuscarCliente(clientes, v.clienteId)
    case Some(c) => if c.direccion != "" then c.direccion else "Dirección no disponible"
    case None => "Dirección no disponible"
  }
}
