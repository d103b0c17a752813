/** Entities of the gardening-service dashboard (src/types/index.ts).
    Closed string unions become enumerations; the string each variant stands
    for in the source is given by a `...Nombre` function, because several
    screens compare these fields against plain strings. */
module Tipos {

  datatype Option<+T> = None | Some(value: T)

  /** Client group tag: 'A' | 'B' | 'C'. */
  datatype Grupo = A | B | C

  /** Billing plan: 'semanal' | 'quincenal' | 'mensual'. */
  datatype Plan = Semanal | Quincenal | Mensual

  /** Visit status: 'programada' | 'en_proceso' | 'completada' | 'reagendada' | 'cancelada'. */
  datatype Estado = Programada | EnProceso | Completada | Reagendada | Cancelada

  /** User role: 'administrador' | 'operador_logistico' | 'encargado'. */
  datatype Rol = Administrador | OperadorLogistico | Encargado

  datatype TipoHistorial = CambioPlan | Observacion | Suspension

  datatype HistorialCliente = HistorialCliente(
    id: string,
    fecha: string,
    tipo: TipoHistorial,
    descripcion: string,
    planAnterior: Option<string>,
    planNuevo: Option<string>)

  datatype Cliente = Cliente(
    id: string,
    nombre: string,
    direccion: string,
    telefono: string,
    email: string,
    grupo: Grupo,
    plan: Plan,
    diaAsignado: string,
    fechaRegistro: string,
    activo: bool,
    observaciones: string,
    historial: seq<HistorialCliente>)

  datatype Equipo = Equipo(
    id: string,
    nombre: string,
    encargadoId: string,
    encargadoNombre: string,
    activo: bool,
    miembros: seq<string>)

  datatype TareaAdicional = TareaAdicional(
    id: string,
    nombre: string,
    descripcion: string,
    cobrable: bool,
    solicitadoPor: string,
    fechaSolicitud: string)

  datatype Visita = Visita(
    id: string,
    clienteId: string,
    clienteNombre: string,
    equipoId: string,
    equipoNombre: string,
    fechaProgramada: string,
    fechaEjecucion: Option<string>,
    estado: Estado,
    tareasProgramadas: seq<string>,
    tareasRealizadas: seq<string>,
    tareasAdicionales: seq<TareaAdicional>,
    observaciones: string,
    tiempoTotal: Option<int>)

  datatype Usuario = Usuario(
    id: string,
    nombre: string,
    email: string,
    rol: Rol,
    equipoId: Option<string>,
    activo: bool,
    fechaRegistro: string)

  function GrupoNombre(g: Grupo): (s: string)
    ensures |s| == 1
  {
    match g
    case A => "A"
    case B => "B"
    case C => "C"
  }

  function PlanNombre(p: Plan): string
  {
    match p
    case Semanal => "semanal"
    case Quincenal => "quincenal"
    case Mensual => "mensual"
  }

  function EstadoNombre(e: Estado): string
  {
    match e
    case Programada => "programada"
    case EnProceso => "en_proceso"
    case Completada => "completada"
    case Reagendada => "reagendada"
    case Cancelada => "cancelada"
  }

  function RolNombre(r: Rol): string
  {
    match r
    case Administrador => "administrador"
    case OperadorLogistico => "operador_logistico"
    case Encargado => "encargado"
  }

  /** The status a string names, if any (the inverse of `EstadoNombre`). */
  function EstadoDe(s: string): (r: Option<Estado>)
    ensures r.Some? ==> EstadoNombre(r.value) == s
    ensures r.None? ==> forall e :: EstadoNombre(e) != s
  {
    match s
    case "programada" => Some(Programada)
    case "en_proceso" => Some(EnProceso)
    case "completada" => Some(Completada)
    case "reagendada" => Some(Reagendada)
    case "cancelada" => Some(Cancelada)
    case _ => None
  }

  /** The group a string names, if any (the inverse of `GrupoNombre`). */
  function GrupoDe(s: string): (r: Option<Grupo>)
    ensures r.Some? ==> GrupoNombre(r.value) == s
    ensures r.None? ==> forall g :: GrupoNombre(g) != s
  {
    match s
    case "A" => Some(A)
    case "B" => Some(B)
    case "C" => Some(C)
    case _ => None
  }

  /** The plan a string names, if any (the inverse of `PlanNombre`). */
  function PlanDe(s: string): (r: Option<Plan>)
    ensures r.Some? ==> PlanNombre(r.value) == s
    ensures r.None? ==> forall p :: PlanNombre(p) != s
  {
    match s
    case "semanal" => Some(Semanal)
    case "quincenal" => Some(Quincenal)
    case "mensual" => Some(Mensual)
    case _ => None
  }

  /** The string names of each enumeration are distinct, so comparing a
      field's name with a filter string is the same as comparing variants. */
  lemma NombresInyectivos()
    ensures forall g1: Grupo, g2: Grupo :: GrupoNombre(g1) == GrupoNombre(g2) ==> g1 == g2
    ensures forall e1: Estado, e2: Estado :: EstadoNombre(e1) == EstadoNombre(e2) ==> e1 == e2
    ensures forall p1: Plan, p2: Plan :: PlanNombre(p1) == PlanNombre(p2) ==> p1 == p2
    ensures forall r1: Rol, r2: Rol :: RolNombre(r1) == RolNombre(r2) ==> r1 == r2
  {
  }
}
