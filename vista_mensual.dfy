/** The monthly view (src/components/Visitas/VistaMensual.tsx): one cell per
    day of the selected month holding that day's visits, the month
    navigation buttons, the "+N más" note and the short status badges, and
    the weekday columns the cells are laid out in. */
module VistaMensual {
  import opened Tipos
  import opened Listas
  import opened Fechas
  import opened Agenda

  /** `eachDayOfInterval({ start: startOfMonth(d), end: endOfMonth(d) })`:
      the days of `d`'s month, first to last, one day apart. */
  function DiasMes(d: Date): (dias: seq<Date>)
    requires Valid(d)
    ensures |dias| == DaysInMonth(d.year, d.month)
    ensures forall i :: 0 <= i < |dias| ==> Valid(dias[i]) && dias[i].year == d.year && dias[i].month == d.month
    ensures dias[0].day == 1 && dias[|dias| - 1].day == DaysInMonth(d.year, d.month)
    ensures forall i :: 0 <= i < |dias| ==> DayNumber(dias[i]) == DayNumber(dias[0]) + i
    ensures d in dias
  {
    var dias := seq(DaysInMonth(d.year, d.month), i requires 0 <= i < DaysInMonth(d.year, d.month) =>
      Date(d.year, d.month, i + 1));
    assert dias[d.day - 1] == d;
    dias
  }

  /** The month's days are all different, so `CeldasParticion` applies. */
  lemma DiasMesDistintos(d: Date)
    requires Valid(d)
    ensures Distintos(DiasMes(d))
  {
  }

  /** A visit is in some cell of the month exactly when it is dated in that
      month, and the cells hold every such visit as often as the list does. */
  lemma CeldasMes(vs: seq<Visita>, d: Date)
    requires Valid(d)
    ensures forall v :: EnAlguno(v, DiasMes(d)) <==>
              FechaVisita(v).Some? && FechaVisita(v).value.year == d.year
              && FechaVisita(v).value.month == d.month
    ensures var dias := DiasMes(d);
            Celdas(vs, dias) == multiset(Filter(vs, v => EnAlguno(v, dias)))
  {
    forall v | FechaVisita(v).Some?
      ensures FechaVisita(v).value in DiasMes(d) <==>
                FechaVisita(v).value.year == d.year && FechaVisita(v).value.month == d.month
    {
      DiaEnMes(d, FechaVisita(v).value);
    }
    DiasMesDistintos(d);
    CeldasParticion(vs, DiasMes(d));
  }

  /** A valid date is one of the month's days exactly when it has the
      month's year and month. */
  lemma DiaEnMes(d: Date, x: Date)
    requires Valid(d) && Valid(x)
    ensures x in DiasMes(d) <==> x.year == d.year && x.month == d.month
  {
    if x.year == d.year && x.month == d.month {
      assert DiasMes(d)[x.day - 1] == x;
    }
  }

  /** `new Date(year, monthIndex)`: a month index outside 0..11 carries into
      the year, and a year argument from 0 to 99 means 1900 to 1999. The
      result is the first of that month. */
  function NuevaFechaMes(year: int, monthIndex: int): (r: Date)
    ensures Valid(r) && r.day == 1
    ensures !(0 <= year <= 99) && 0 <= monthIndex < 12 ==> r == Date(year, monthIndex + 1, 1)
    ensures 12 * r.year + (r.month - 1) == 12 * (if 0 <= year <= 99 then 1900 + year else year) + monthIndex
  {
    var y := if 0 <= year <= 99 then 1900 + year else year;
    var q, m := monthIndex / 12, monthIndex % 12;
    assert monthIndex == 12 * q + m;
    Date(y + q, m + 1, 1)
  }

  /** "← Anterior": the first of the previous month. */
  function MesAnterior(d: Date): (r: Date)
    requires Valid(d)
    ensures Valid(r) && r.day == 1
  {
    NuevaFechaMes(d.year, d.month - 1 - 1)
  }

  /** "Siguiente →": the first of the next month. */
  function MesSiguiente(d: Date): (r: Date)
    requires Valid(d)
    ensures Valid(r) && r.day == 1
  {
    NuevaFechaMes(d.year, d.month - 1 + 1)
  }

  /** The buttons step one month, carrying across the year boundary. */
  lemma MesesConsecutivos(d: Date)
    requires Valid(d) && (d.year >= 100 || d.year < 0)
    ensures var s := MesSiguiente(d);
            if d.month == 12 then s.year == d.year + 1 && s.month == 1
            else s.year == d.year && s.month == d.month + 1
    ensures var a := MesAnterior(d);
            if d.month == 1 then a.year == d.year - 1 && a.month == 12
            else a.year == d.year && a.month == d.month - 1
  {
  }

  /** Forward then back, or back then forward, returns to the first of the
      month shown, for years the constructor does not remap. */
  lemma MesAnteriorSiguiente(d: Date)
    requires Valid(d) && (d.year >= 101 || d.year <= -2)
    ensures MesAnterior(MesSiguiente(d)) == Date(d.year, d.month, 1)
    ensures MesSiguiente(MesAnterior(d)) == Date(d.year, d.month, 1)
  {
  }

  /** The constructor's two-digit-year rule shows in the navigation:
      "Siguiente →" from December of year 99 lands on January 2000. */
  lemma SiguienteDesdeAnio99()
    ensures MesSiguiente(Date(99, 12, 1)) == Date(2000, 1, 1)
  {
  }

  /** The "+N más" note under a cell with `n` visits: shown when there are
      more than two, counting those beyond the first two. */
  function NotaMas(n: nat): (r: Option<nat>)
    ensures r.Some? <==> n > 2
    ensures r.Some? ==> r.value > 0 && r.value + 2 == n
  {
    if n > 2 then Some(n - 2) else None
  }

  /** As written, a cell draws every visit of its day, and with more than
      two visits it still announces "+N más", so cards and note together
      count more visits than the day has (three visits give three cards and
      "+1 más"), and the cards drawn are not the capped `TarjetasCelda`. */
  lemma NotaMasComoEscrita(hoy: seq<Visita>)
    requires |hoy| > 2
    ensures NotaMas(|hoy|).Some?
    ensures |hoy| + NotaMas(|hoy|).value == 2 * |hoy| - 2 > |hoy|
    ensures TarjetasCelda(hoy) != hoy
  {
  }

  /** The cards a cell evidently means to draw: the first two visits of the
      day, the rest being announced by the note. */
  function TarjetasCelda(hoy: seq<Visita>): (r: seq<Visita>)
    ensures |r| <= 2 && r <= hoy
    ensures |hoy| <= 2 ==> r == hoy
  {
    if |hoy| <= 2 then hoy else hoy[..2]
  }

  /** The cards drawn and the note together account for every visit of the
      day exactly once. */
  lemma TarjetasYNota(hoy: seq<Visita>)
    ensures |TarjetasCelda(hoy)| + (if NotaMas(|hoy|).Some? then NotaMas(|hoy|).value else 0) == |hoy|
    ensures TarjetasCelda(hoy) + hoy[|TarjetasCelda(hoy)|..] == hoy
  {
  }

  /** The short label the monthly badge gives each status. */
  function EtiquetaCorta(e: Estado): string
  {
    match e
    case Programada => "Prog."
    case EnProceso => "En Proceso"
    case Completada => "Comp."
    case Reagendada => "Reag."
    case Cancelada => "Canc."
  }

  /** Distinct statuses get distinct short labels, none of them a status
      name. */
  lemma EtiquetasCortasDistintas(e1: Estado, e2: Estado)
    ensures EtiquetaCorta(e1) == EtiquetaCorta(e2) ==> e1 == e2
    ensures EstadoDe(EtiquetaCorta(e1)).None?
  {
  }

  /** The monthly view's short status badge. */
  function EstadoBadgeCorto(estado: string): (r: string)
    ensures EstadoDe(estado).None? <==> r == estado
    ensures EstadoDe(estado).Some? ==> r == EtiquetaCorta(EstadoDe(estado).value)
  {
    match estado
    case "programada" => "Prog."
    case "en_proceso" => "En Proceso"
    case "completada" => "Comp."
    case "reagendada" => "Reag."
    case "cancelada" => "Canc."
    case _ => estado
  }

  /** The seven column headings, Monday first. */
  const Encabezados: seq<string> := ["Lun", "Mar", "Mié", "Jue", "Vie", "Sáb", "Dom"]

  /** Position of a weekday in `Encabezados`: Monday 0, …, Sunday 6. */
  function IndiceSemana(d: Date): (k: int)
    requires Valid(d)
    ensures 0 <= k < 7
    ensures (k + 1) % 7 == Weekday(d)
  {
    (Weekday(d) + 6) % 7
  }

  /** The grid as written: the day cells go straight into the seven-column
      grid, so day `d.day` lands in column `(d.day - 1) % 7`. */
  function ColumnaComoEscrita(d: Date): (c: int)
    requires Valid(d)
    ensures 0 <= c < 7
  {
    (d.day - 1) % 7
  }

  /** As written, a cell sits under the heading of its own weekday in every
      cell of the month exactly when the month begins on a Monday. */
  lemma ColumnaComoEscritaSoloLunes(d: Date)
    requires Valid(d)
    ensures ColumnaComoEscrita(d) == IndiceSemana(d) <==> Weekday(Date(d.year, d.month, 1)) == 1
  {
    var p := Date(d.year, d.month, 1);
    var np, j := DayNumber(p), d.day - 1;
    assert DayNumber(d) == np + j;
    IndiceSemanaCerrada(d);
    ModSuma(np, j + 12);
    ModSuma(j, np % 7 + 12);
    ModSuma(np, 6);
    ColumnaTabla(np % 7, j % 7);
  }

  /** `IndiceSemana` in one step: the day number plus 12, modulo 7. */
  lemma IndiceSemanaCerrada(d: Date)
    requires Valid(d)
    ensures IndiceSemana(d) == (DayNumber(d) + 12) % 7
  {
    ModSuma(DayNumber(d) + 6, 6);
  }

  /** The as-written column against the weekday, on remainders modulo 7. */
  lemma ColumnaTabla(r: int, t: int)
    requires 0 <= r < 7 && 0 <= t < 7
    ensures t == (r + t + 12) % 7 <==> (r + 6) % 7 == 1
  {
  }

  /** June 2025 begins on a Sunday, yet its 1st is drawn under "Lun". */
  lemma ColumnaComoEscritaContraejemplo()
    ensures Weekday(Date(2025, 6, 1)) == 0
    ensures Encabezados[ColumnaComoEscrita(Date(2025, 6, 1))] == "Lun"
    ensures Encabezados[IndiceSemana(Date(2025, 6, 1))] == "Dom"
  {
  }

  /** Blank cells before the 1st: as many as weekdays from Monday to the
      weekday the month begins on. */
  function Desfase(d: Date): (k: int)
    requires Valid(d)
    ensures 0 <= k < 7
  {
    IndiceSemana(Date(d.year, d.month, 1))
  }

  /** The grid with the blank cells in front: day `d.day` lands in column
      `(Desfase + d.day - 1) % 7`. */
  function Columna(d: Date): (c: int)
    requires Valid(d)
    ensures 0 <= c < 7
  {
    (Desfase(d) + d.day - 1) % 7
  }

  /** With the blank cells in front, every day sits under the heading of its
      own weekday. */
  lemma ColumnaEsDiaSemana(d: Date)
    requires Valid(d)
    ensures Columna(d) == IndiceSemana(d)
    ensures (Columna(d) + 1) % 7 == Weekday(d)
  {
    var p := Date(d.year, d.month, 1);
    var np := DayNumber(p);
    assert DayNumber(d) == np + d.day - 1;
    IndiceSemanaCerrada(d);
    IndiceSemanaCerrada(p);
    ModSuma(np + 12, d.day - 1);
  }

  /** `(a + b) % 7` depends on `a` only through `a % 7`. */
  lemma ModSuma(a: int, b: int)
    ensures (a % 7 + b) % 7 == (a + b) % 7
  {
    var q := a / 7;
    assert a == 7 * q + a % 7;
    assert a + b == 7 * q + (a % 7 + b);
  }
}
