/** The team leader's route sheet (src/components/HojaRuta/HojaRuta.tsx):
    per-visit updates keyed by visit id (tasks ticked and field notes), the
    completion request built from them, and the labels of a visit card. */
module HojaRuta {
  import opened Tipos
  import opened Listas

  /** One entry of `visitasActualizadas`: each field is absent until its
      handler first writes it. */
  datatype Actualizacion = Actualizacion(tareasRealizadas: Option<seq<string>>, observaciones: Option<string>)

  /** What `marcarVisitaCompleta` sends on: the ticked tasks, the notes
      (absent if never typed) and the execution time stamp. */
  datatype Envio = Envio(visitaId: string, tareasRealizadas: seq<string>, observaciones: Option<string>, fechaEjecucion: string)

  datatype Resultado = Enviada(envio: Envio) | Rechazada(mensaje: string)

  const MensajeSinTareas := "Debes marcar al menos una tarea como realizada"

  /** `(visitasActualizadas[id] || {}).tareasRealizadas || []`: the tasks
      ticked so far on visit `id`. */
  function Realizadas(act: map<string, Actualizacion>, id: string): seq<string>
  {
    if id in act && act[id].tareasRealizadas.Some? then act[id].tareasRealizadas.value else []
  }

  /** `actualizacion.observaciones || ''`: the notes box's text. */
  function Observaciones(act: map<string, Actualizacion>, id: string): string
  {
    if id in act && act[id].observaciones.Some? then act[id].observaciones.value else ""
  }

  /** `handleTareaChange`: ticking appends the task to the visit's list,
      unticking removes every copy of it. The entry is created when missing;
      its notes and every other visit's entry are kept. */
  function CambiarTarea(act: map<string, Actualizacion>, id: string, tarea: string, checked: bool): (r: map<string, Actualizacion>)
    ensures r.Keys == act.Keys + {id}
    ensures forall k :: k in act && k != id ==> r[k] == act[k]
    ensures r[id].tareasRealizadas.Some?
    ensures r[id].observaciones == if id in act then act[id].observaciones else None
    ensures checked ==> Realizadas(r, id) == Realizadas(act, id) + [tarea]
    ensures !checked ==> tarea !in Realizadas(r, id)
    ensures !checked ==> forall t :: t != tarea ==> (t in Realizadas(r, id) <==> t in Realizadas(act, id))
    ensures !checked ==> Subsecuencia(Realizadas(r, id), Realizadas(act, id))
    ensures !checked ==> forall t :: t != tarea ==> multiset(Realizadas(r, id))[t] == multiset(Realizadas(act, id))[t]
  {
    var previas := Realizadas(act, id);
    var nuevas := if checked then previas + [tarea] else Filter(previas, (t: string) => t != tarea);
    var anterior := if id in act then act[id] else Actualizacion(None, None);
    var r := act[id := anterior.(tareasRealizadas := Some(nuevas))];
    assert Realizadas(r, id) == nuevas;
    if !checked then
      FilterSubsecuencia(previas, (t: string) => t != tarea);
      assert forall t :: t != tarea ==> multiset(nuevas)[t] == multiset(previas)[t] by {
        forall t | t != tarea {
          FilterCuenta(previas, (t: string) => t != tarea, t);
        }
      }
      r
    else
      r
  }

  /** Ticking a task that was not ticked and then unticking it gives back
      the list as it was. */
  lemma MarcarYDesmarcar(act: map<string, Actualizacion>, id: string, tarea: string)
    requires tarea !in Realizadas(act, id)
    ensures Realizadas(CambiarTarea(CambiarTarea(act, id, tarea, true), id, tarea, false), id) == Realizadas(act, id)
  {
    var previas := Realizadas(act, id);
    FilterConcat(previas, [tarea], (t: string) => t != tarea);
    FilterTodos(previas, (t: string) => t != tarea);
  }

  /** Unticking is idempotent. */
  lemma DesmarcarIdempotente(act: map<string, Actualizacion>, id: string, tarea: string)
    ensures var una := CambiarTarea(act, id, tarea, false);
            CambiarTarea(una, id, tarea, false) == una
  {
    var una := CambiarTarea(act, id, tarea, false);
    FilterIdempotente(Realizadas(act, id), (t: string) => t != tarea);
  }

  /** Ticking is not idempotent: the handler appends without looking, so
      ticking twice lists the task twice. */
  lemma MarcarDosVeces(act: map<string, Actualizacion>, id: string, tarea: string)
    ensures var dos := CambiarTarea(CambiarTarea(act, id, tarea, true), id, tarea, true);
            Realizadas(dos, id) == Realizadas(act, id) + [tarea, tarea]
  {
  }

  /** `handleObservacionChange`: the visit's notes become `observacion`; its
      ticked tasks and every other entry are kept. */
  function CambiarObservacion(act: map<string, Actualizacion>, id: string, observacion: string): (r: map<string, Actualizacion>)
    ensures r.Keys == act.Keys + {id}
    ensures forall k :: k in act && k != id ==> r[k] == act[k]
    ensures Observaciones(r, id) == observacion
    ensures r[id].tareasRealizadas == if id in act then act[id].tareasRealizadas else None
    ensures Realizadas(r, id) == Realizadas(act, id)
  {
    var anterior := if id in act then act[id] else Actualizacion(None, None);
    act[id := anterior.(observaciones := Some(observacion))]
  }

  /** `marcarVisitaCompleta`, with `new Date().toISOString()` passed in: it
      refuses a visit with no ticked task and otherwise hands on the ticked
      tasks and the notes as they stand. */
  function MarcarVisitaCompleta(act: map<string, Actualizacion>, id: string, fechaEjecucion: string): (r: Resultado)
    ensures r.Rechazada? <==> Realizadas(act, id) == []
    ensures r.Rechazada? ==> r.mensaje == MensajeSinTareas
    ensures r.Enviada? ==> r.envio.visitaId == id && r.envio.tareasRealizadas == Realizadas(act, id)
                           && r.envio.fechaEjecucion == fechaEjecucion
                           && r.envio.observaciones == act[id].observaciones
  {
    if id !in act || act[id].tareasRealizadas.None? || |act[id].tareasRealizadas.value| == 0 then
      Rechazada(MensajeSinTareas)
    else
      Enviada(Envio(id, act[id].tareasRealizadas.value, act[id].observaciones, fechaEjecucion))
  }

  /** The complete button is disabled while no task is ticked. */
  predicate BotonDeshabilitado(act: map<string, Actualizacion>, id: string)
  {
    |Realizadas(act, id)| == 0
  }

  /** The button is enabled exactly when pressing it sends the visit on. */
  lemma BotonYEnvio(act: map<string, Actualizacion>, id: string, fechaEjecucion: string)
    ensures !BotonDeshabilitado(act, id) <==> MarcarVisitaCompleta(act, id, fechaEjecucion).Enviada?
  {
  }

  /** The complete button's label. */
  function EtiquetaAccion(act: map<string, Actualizacion>, v: Visita): (s: string)
    ensures s == "Completar Visita" <==> |Realizadas(act, v.id)| == |v.tareasProgramadas|
    ensures s != "Completar Visita" ==> s == "Completar Parcialmente"
  {
    if |Realizadas(act, v.id)| == |v.tareasProgramadas| then "Completar Visita" else "Completar Parcialmente"
  }

  predicate SinRepetidos(s: seq<string>)
  {
    forall i, j :: 0 <= i < j < |s| ==> s[i] != s[j]
  }

  /** What the checkboxes keep true of a visit's entry: each ticked task is
      one of the visit's tasks, ticked once. */
  predicate Coherente(act: map<string, Actualizacion>, v: Visita)
  {
    && SinRepetidos(Realizadas(act, v.id))
    && Incluidas(Realizadas(act, v.id), v.tareasProgramadas)
  }

  /** Every element of `a` is an element of `b`. */
  predicate Incluidas(a: seq<string>, b: seq<string>)
  {
    forall t :: t in a ==> t in b
  }

  /** A checkbox of a task of `v` reports `checked` as the negation of
      whether the task is ticked; so every change keeps the entry coherent. */
  lemma CambiarTareaCoherente(act: map<string, Actualizacion>, v: Visita, tarea: string, checked: bool)
    requires Coherente(act, v)
    requires tarea in v.tareasProgramadas
    requires checked == (tarea !in Realizadas(act, v.id))
    ensures Coherente(CambiarTarea(act, v.id, tarea, checked), v)
  {
    var previas := Realizadas(act, v.id);
    var r := Realizadas(CambiarTarea(act, v.id, tarea, checked), v.id);
    if !checked {
      FilterSubsecuencia(previas, (t: string) => t != tarea);
      SubsecuenciaSinRepetidos(r, previas);
    }
  }

  /** A notes change keeps every entry coherent. */
  lemma CambiarObservacionCoherente(act: map<string, Actualizacion>, v: Visita, id: string, observacion: string)
    requires Coherente(act, v)
    ensures Coherente(CambiarObservacion(act, id, observacion), v)
  {
    if id != v.id {
      assert Realizadas(CambiarObservacion(act, id, observacion), v.id) == Realizadas(act, v.id);
    }
  }

  lemma {:induction false} SubsecuenciaSinRepetidos(r: seq<string>, s: seq<string>)
    requires Subsecuencia(r, s) && SinRepetidos(s)
    ensures SinRepetidos(r)
    ensures Incluidas(r, s)
    decreases |s|
  {
    if r != [] && s != [] {
      if r[0] == s[0] && Subsecuencia(r[1..], s[1..]) {
        SubsecuenciaSinRepetidos(r[1..], s[1..]);
        assert r == [r[0]] + r[1..];
        forall i | 0 < i < |r|
          ensures r[0] != r[i]
        {
          assert r[i] == r[1..][i - 1];
          assert r[i] in s[1..];
        }
      } else {
        SubsecuenciaSinRepetidos(r, s[1..]);
      }
    }
  }

  /** With coherent updates and a task list without repeats, the label says
      "Completar Visita" exactly when every scheduled task is ticked. */
  lemma CompletarSiiTodas(act: map<string, Actualizacion>, v: Visita)
    requires Coherente(act, v) && SinRepetidos(v.tareasProgramadas)
    ensures EtiquetaAccion(act, v) == "Completar Visita" <==> Incluidas(v.tareasProgramadas, Realizadas(act, v.id))
  {
    var hechas, todas := Realizadas(act, v.id), v.tareasProgramadas;
    var a, b := Elementos(hechas), Elementos(todas);
    CardinalSinRepetidos(hechas);
    CardinalSinRepetidos(todas);
    assert a <= b;
    if |hechas| == |todas| {
      assert |b - a| + |a| == |b| by {
        assert b == (b - a) + a;
      }
      assert b - a == {};
      assert forall i :: 0 <= i < |todas| ==> todas[i] in b;
    }
    if Incluidas(todas, hechas) {
      assert a == b;
    }
  }

  function Elementos(s: seq<string>): set<string>
  {
    set t | t in s
  }

  lemma {:induction false} CardinalSinRepetidos(s: seq<string>)
    requires SinRepetidos(s)
    ensures |Elementos(s)| == |s|
    decreases |s|
  {
    if s != [] {
      CardinalSinRepetidos(s[1..]);
      assert Elementos(s) == Elementos(s[1..]) + {s[0]};
      assert s[0] !in Elementos(s[1..]);
    }
  }

  /** `getEstadoColor` of the route sheet: three statuses have their own
      colour, everything else (including 'reagendada' and 'cancelada') is grey. */
  function EstadoColor(estado: string): (c: string)
    ensures c == "bg-gray-100 text-gray-800" <==> estado !in {"completada", "en_proceso", "programada"}
  {
    match estado
    case "completada" => "bg-green-100 text-green-800"
    case "en_proceso" => "bg-blue-100 text-blue-800"
    case "programada" => "bg-yellow-100 text-yellow-800"
    case _ => "bg-gray-100 text-gray-800"
  }

  /** The three statuses the route sheet colours get three different
      colours. */
  lemma EstadoColorInyectivo(e1: string, e2: string)
    requires e1 in {"completada", "en_proceso", "programada"}
    requires e2 in {"completada", "en_proceso", "programada"}
    requires e1 != e2
    ensures EstadoColor(e1) != EstadoColor(e2)
  {
  }

  /** The component's state: the day's visits and the updates made on them. */
  class HojaRuta {
    const visitasHoy: seq<Visita>
    var visitasActualizadas: map<string, Actualizacion>

    constructor (visitas: seq<Visita>)
      ensures visitasHoy == visitas && visitasActualizadas == map[]
    {
      visitasHoy := visitas;
      visitasActualizadas := map[];
    }

    method HandleTareaChange(visitaId: string, tarea: string, checked: bool)
      modifies this
      ensures visitasActualizadas == CambiarTarea(old(visitasActualizadas), visitaId, tarea, checked)
    {
      visitasActualizadas := CambiarTarea(visitasActualizadas, visitaId, tarea, checked);
    }

    method HandleObservacionChange(visitaId: string, observacion: string)
      modifies this
      ensures visitasActualizadas == CambiarObservacion(old(visitasActualizadas), visitaId, observacion)
    {
      visitasActualizadas := CambiarObservacion(visitasActualizadas, visitaId, observacion);
    }
  }
}
