/** What the visit screens share: looking up a visit's client and team by
    id, the status badge label, and placing visits on calendar days. A
    visit's `YYYY-MM-DD` date is read at local midnight (`VisitasDelDia`,
    the weekly calendar's reading, used for every view of the model) or, as
    the daily and monthly views and the weekly table are written, at UTC
    midnight (`VisitasDelDiaUtc`); the two differ west of Greenwich. */
module Agenda {
  import opened Tipos
  import opened Listas
  import opened Texto
  import opened Fechas

  /** `clientes.find(c => c.id === id)`. */
  function BuscarCliente(cs: seq<Cliente>, id: string): (r: Option<Cliente>)
    ensures r.Some? ==> r.value in cs && r.value.id == id
    ensures r.None? <==> forall c :: c in cs ==> c.id != id
    ensures r.Some? ==> exists i :: 0 <= i < |cs| && cs[i] == r.value && forall j :: 0 <= j < i ==> cs[j].id != id
  {
    Find(cs, (c: Cliente) => c.id == id)
  }

  /** `equipos.find(e => e.id === id)`. */
  function BuscarEquipo(es: seq<Equipo>, id: string): (r: Option<Equipo>)
    ensures r.Some? ==> r.value in es && r.value.id == id
    ensures r.None? <==> forall e :: e in es ==> e.id != id
    ensures r.Some? ==> exists i :: 0 <= i < |es| && es[i] == r.value && forall j :: 0 <= j < i ==> es[j].id != id
  {
    Find(es, (e: Equipo) => e.id == id)
  }

  /** The label the status badge gives each status. */
  function Etiqueta(e: Estado): string
  {
    match e
    case Programada => "Programada"
    case EnProceso => "En Proceso"
    case Completada => "Completada"
    case Reagendada => "Reagendada"
    case Cancelada => "Cancelada"
  }

  /** Distinct statuses get distinct labels, and each label begins with the
      capital of its status name's first letter. */
  lemma EtiquetasDistintas(e1: Estado, e2: Estado)
    ensures Etiqueta(e1) == Etiqueta(e2) ==> e1 == e2
    ensures |Etiqueta(e1)| > 0 && Etiqueta(e1)[0] == UpperChar(EstadoNombre(e1)[0])
    ensures Etiqueta(e1) != EstadoNombre(e1)
  {
  }

  /** The status badge label of the scheduling table and the daily view: a
      fixed label for each status, and the value itself for anything else. */
  function EstadoBadge(estado: string): (r: string)
    ensures EstadoDe(estado).None? <==> r == estado
    ensures EstadoDe(estado).Some? ==> r == Etiqueta(EstadoDe(estado).value)
  {
    match estado
    case "programada" => "Programada"
    case "en_proceso" => "En Proceso"
    case "completada" => "Completada"
    case "reagendada" => "Reagendada"
    case "cancelada" => "Cancelada"
    case _ => estado
  }

  /** The calendar day a visit is scheduled on, when its date string names one. */
  function FechaVisita(v: Visita): Option<Date>
  {
    Parse(v.fechaProgramada)
  }

  predicate EnDia(v: Visita, d: Date)
  {
    FechaVisita(v) == Some(d)
  }

  /** The visit's day is one of `dias`. */
  predicate EnAlguno(v: Visita, dias: seq<Date>)
  {
    FechaVisita(v).Some? && FechaVisita(v).value in dias
  }

  /** The visits of one day cell, in list order:
      `visitas.filter(v => isSameDay(fecha(v.fechaProgramada), dia))`. */
  function VisitasDelDia(vs: seq<Visita>, d: Date): (r: seq<Visita>)
    ensures forall v :: v in r <==> v in vs && EnDia(v, d)
    ensures Subsecuencia(r, vs)
    ensures forall v :: multiset(r)[v] == if EnDia(v, d) then multiset(vs)[v] else 0
  {
    var p := v => EnDia(v, d);
    FilterSubsecuencia(vs, p);
    assert forall v :: multiset(Filter(vs, p))[v] == if EnDia(v, d) then multiset(vs)[v] else 0 by {
      forall v {
        FilterCuenta(vs, p, v);
      }
    }
    Filter(vs, p)
  }

  /** The local calendar day on which UTC midnight of `d` falls, in a time
      zone `offset` minutes ahead of UTC (negative west of Greenwich): the
      day before `d` west of Greenwich, `d` itself otherwise. */
  function DiaLocalDeMedianocheUtc(d: Date, offset: int): (r: Date)
    requires Valid(d) && -1440 < offset < 1440
    ensures Valid(r)
    ensures offset >= 0 ==> r == d
    ensures offset < 0 ==> DayNumber(r) == DayNumber(d) - 1
  {
    if offset < 0 then PrevDay(d) else d
  }

  /** The visit's day as the daily and monthly views and the weekly table
      read it: `new Date('YYYY-MM-DD')` is UTC midnight, seen in local time. */
  function FechaVisitaUtc(v: Visita, offset: int): Option<Date>
    requires -1440 < offset < 1440
  {
    match Parse(v.fechaProgramada)
    case None => None
    case Some(d) => Some(DiaLocalDeMedianocheUtc(d, offset))
  }

  /** The same-day filter as written in those views. */
  function VisitasDelDiaUtc(vs: seq<Visita>, d: Date, offset: int): (r: seq<Visita>)
    requires -1440 < offset < 1440
    ensures forall v :: v in r <==> v in vs && FechaVisitaUtc(v, offset) == Some(d)
    ensures Subsecuencia(r, vs)
    ensures forall v :: multiset(r)[v] == if FechaVisitaUtc(v, offset) == Some(d) then multiset(vs)[v] else 0
  {
    var p := (v: Visita) requires -1440 < offset < 1440 => FechaVisitaUtc(v, offset) == Some(d);
    FilterSubsecuencia(vs, p);
    assert forall v :: multiset(Filter(vs, p))[v] == if FechaVisitaUtc(v, offset) == Some(d) then multiset(vs)[v] else 0 by {
      forall v {
        FilterCuenta(vs, p, v);
      }
    }
    Filter(vs, p)
  }

  /** As written, west of Greenwich a visit dated `d` is listed under the day
      before and not under `d`; east of it (or at UTC) the two readings
      agree. */
  lemma DesfaseOeste(vs: seq<Visita>, v: Visita, d: Date, offset: int)
    requires v in vs && Parse(v.fechaProgramada) == Some(d)
    requires -1440 < offset < 0
    ensures v in VisitasDelDia(vs, d)
    ensures v !in VisitasDelDiaUtc(vs, d, offset)
    ensures v in VisitasDelDiaUtc(vs, PrevDay(d), offset)
  {
    assert Valid(d);
    assert DayNumber(PrevDay(d)) != DayNumber(d);
  }

  /** In Guatemala (UTC-6) a visit dated 2024-06-25 is shown on the 24th. */
  lemma DesfaseGuatemala(v: Visita)
    requires v.fechaProgramada == "2024-06-25"
    ensures Parse(v.fechaProgramada) == Some(Date(2024, 6, 25))
    ensures FechaVisitaUtc(v, -360) == Some(Date(2024, 6, 24))
  {
    ParseFechaGuatemala();
  }

  lemma ParseFechaGuatemala()
    ensures Parse("2024-06-25") == Some(Date(2024, 6, 25))
  {
    var s := "2024-06-25";
    assert s[..4] == "2024" && s[5..7] == "06" && s[8..] == "25";
    Lee2024();
    Lee06y25();
  }

  lemma Lee2024()
    ensures ParseNat("2024") == 2024
  {
    assert "2024"[..3] == "202";
    assert "202"[..2] == "20";
    assert "20"[..1] == "2";
    assert "2"[..0] == [];
  }

  lemma Lee06y25()
    ensures ParseNat("06") == 6 && ParseNat("25") == 25
  {
    assert "06"[..1] == "0";
    assert "0"[..0] == [];
    assert "25"[..1] == "2";
    assert "2"[..0] == [];
  }

  /** East of Greenwich, or at UTC, both readings list the same visits. */
  lemma LecturasCoincidenAlEste(vs: seq<Visita>, d: Date, offset: int)
    requires 0 <= offset < 1440
    ensures VisitasDelDiaUtc(vs, d, offset) == VisitasDelDia(vs, d)
  {
    FilterCongruente(vs, (v: Visita) requires -1440 < offset < 1440 => FechaVisitaUtc(v, offset) == Some(d),
                     (v: Visita) => EnDia(v, d));
  }

  predicate Distintos(dias: seq<Date>)
  {
    forall i, j :: 0 <= i < j < |dias| ==> dias[i] != dias[j]
  }

  /** The visits of all the cells of a row, counted with multiplicity. */
  ghost function Celdas(vs: seq<Visita>, dias: seq<Date>): multiset<Visita>
  {
    if dias == [] then multiset{}
    else multiset(VisitasDelDia(vs, dias[0])) + Celdas(vs, dias[1..])
  }

  /** Two different days share no visit. */
  lemma CeldasDisjuntas(vs: seq<Visita>, d1: Date, d2: Date)
    requires d1 != d2
    ensures multiset(VisitasDelDia(vs, d1)) !! multiset(VisitasDelDia(vs, d2))
  {
    forall v | v in VisitasDelDia(vs, d1)
      ensures v !in VisitasDelDia(vs, d2)
    {
    }
  }

  /** A visit occurs in a row of different days' cells as often as in the
      list when its day is in the row, and not at all otherwise. */
  lemma {:induction false} CeldasCuenta(vs: seq<Visita>, dias: seq<Date>, x: Visita)
    requires Distintos(dias)
    ensures Celdas(vs, dias)[x] == if EnAlguno(x, dias) then multiset(vs)[x] else 0
    decreases |dias|
  {
    if dias != [] {
      var resto := dias[1..];
      assert Distintos(resto);
      CeldasCuenta(vs, resto, x);
      CeldaCuenta(vs, dias[0], x);
      assert Celdas(vs, dias)[x] == multiset(VisitasDelDia(vs, dias[0]))[x] + Celdas(vs, resto)[x];
      assert EnAlguno(x, dias) <==> EnDia(x, dias[0]) || EnAlguno(x, resto);
      if EnDia(x, dias[0]) {
        assert dias[0] !in resto;
      }
    }
  }

  /** One cell holds a visit as often as the list does when the visit is
      dated on that day, and not at all otherwise. */
  lemma CeldaCuenta(vs: seq<Visita>, d: Date, x: Visita)
    ensures multiset(VisitasDelDia(vs, d))[x] == if EnDia(x, d) then multiset(vs)[x] else 0
  {
    FilterCuenta(vs, v => EnDia(v, d), x);
  }

  /** Over a row of different days, the cells together hold every visit
      dated on one of those days exactly as often as the list does, and
      nothing else: no visit is dropped or shown twice. */
  lemma CeldasParticion(vs: seq<Visita>, dias: seq<Date>)
    requires Distintos(dias)
    ensures Celdas(vs, dias) == multiset(Filter(vs, v => EnAlguno(v, dias)))
  {
    forall x
      ensures Celdas(vs, dias)[x] == multiset(Filter(vs, v => EnAlguno(v, dias)))[x]
    {
      CeldasCuenta(vs, dias, x);
      FilterCuenta(vs, v => EnAlguno(v, dias), x);
    }
  }
}
