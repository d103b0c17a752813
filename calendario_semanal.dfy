/** The weekly drag-and-drop calendar (src/components/Visitas/CalendarioSemanal.tsx):
    seven Monday-first day columns, the visits of each column, the date text
    a drop produces, and the colour of a visit card. */
module CalendarioSemanal {
  import opened Tipos
  import opened Texto
  import opened Listas
  import opened Fechas
  import opened Agenda

  /** The text `handleDrop` builds from the local year, month and day of the
      column it was dropped on: year, month zero-padded to two digits, day
      zero-padded to two digits, joined by '-'. For four-digit years this is
      `YYYY-MM-DD` and reads back, at local midnight, as the same day. */
  function FechaDrop(d: Date): (s: string)
    requires Valid(d)
    ensures 1000 <= d.year <= 9999 ==> |s| == 10 && s[4] == '-' && s[7] == '-'
    ensures 1000 <= d.year <= 9999 ==> Parse(s) == Some(d)
  {
    var y, m, dd := YearString(d.year), Pad2(d.month), Pad2(d.day);
    var s := y + "-" + m + "-" + dd;
    assert 1000 <= d.year <= 9999 ==> |s| == 10 && s[..4] == y && s[5..7] == m && s[8..] == dd
                                      && ParseNat(y) == d.year by {
      if 1000 <= d.year <= 9999 {
        LongitudNatToString(d.year);
        ParseNatToString(d.year);
      }
    }
    s
  }

  /** The card colour of each status; any other value gets the grey default. */
  function EstadoColor(estado: string): (c: string)
    ensures EstadoDe(estado).Some? ==> c != "bg-gray-100 border-gray-300 text-gray-800"
    ensures EstadoDe(estado).None? ==> c == "bg-gray-100 border-gray-300 text-gray-800"
  {
    match estado
    case "programada" => "bg-blue-100 border-blue-300 text-blue-800"
    case "en_proceso" => "bg-yellow-100 border-yellow-300 text-yellow-800"
    case "completada" => "bg-green-100 border-green-300 text-green-800"
    case "reagendada" => "bg-purple-100 border-purple-300 text-purple-800"
    case "cancelada" => "bg-red-100 border-red-300 text-red-800"
    case _ => "bg-gray-100 border-gray-300 text-gray-800"
  }

  /** Different statuses get different colours. */
  lemma EstadoColorInyectivo(e1: Estado, e2: Estado)
    requires e1 != e2
    ensures EstadoColor(EstadoNombre(e1)) != EstadoColor(EstadoNombre(e2))
  {
  }

  /** The seven columns of the week of `ref`: a visit is in some column
      exactly when its day is one of the seven, no two columns share a
      visit, and together they hold each such visit exactly as often as the
      list does. */
  lemma SemanaParticion(vs: seq<Visita>, ref: Date)
    requires Valid(ref)
    ensures var dias := DiasSemana(ref);
            forall v :: (exists i :: 0 <= i < 7 && v in VisitasDelDia(vs, dias[i]))
                        <==> v in vs && EnAlguno(v, dias)
    ensures var dias := DiasSemana(ref);
            forall i, j :: 0 <= i < j < 7 ==>
              multiset(VisitasDelDia(vs, dias[i])) !! multiset(VisitasDelDia(vs, dias[j]))
    ensures var dias := DiasSemana(ref);
            Celdas(vs, dias) == multiset(Filter(vs, v => EnAlguno(v, dias)))
  {
    SemanaCubre(vs, ref);
    SemanaDisjunta(vs, ref);
    SemanaCeldas(vs, ref);
  }

  lemma SemanaCubre(vs: seq<Visita>, ref: Date)
    requires Valid(ref)
    ensures var dias := DiasSemana(ref);
            forall v :: (exists i :: 0 <= i < 7 && v in VisitasDelDia(vs, dias[i]))
                        <==> v in vs && EnAlguno(v, dias)
  {
    var dias := DiasSemana(ref);
    forall v | v in vs && EnAlguno(v, dias)
      ensures exists i :: 0 <= i < 7 && v in VisitasDelDia(vs, dias[i])
    {
      var i :| 0 <= i < 7 && dias[i] == FechaVisita(v).value;
      assert v in VisitasDelDia(vs, dias[i]);
    }
  }

  lemma SemanaDisjunta(vs: seq<Visita>, ref: Date)
    requires Valid(ref)
    ensures var dias := DiasSemana(ref);
            forall i, j :: 0 <= i < j < 7 ==>
              multiset(VisitasDelDia(vs, dias[i])) !! multiset(VisitasDelDia(vs, dias[j]))
  {
    var dias := DiasSemana(ref);
    forall i, j | 0 <= i < j < 7
      ensures multiset(VisitasDelDia(vs, dias[i])) !! multiset(VisitasDelDia(vs, dias[j]))
    {
      DiasSemanaDistintos(ref, i, j);
      CeldasDisjuntas(vs, dias[i], dias[j]);
    }
  }

  lemma SemanaCeldas(vs: seq<Visita>, ref: Date)
    requires Valid(ref)
    ensures var dias := DiasSemana(ref);
            Celdas(vs, dias) == multiset(Filter(vs, v => EnAlguno(v, dias)))
  {
    var dias := DiasSemana(ref);
    forall i, j | 0 <= i < j < |dias|
      ensures dias[i] != dias[j]
    {
      DiasSemanaDistintos(ref, i, j);
    }
    CeldasParticion(vs, dias);
  }
}
