# Gardening service dashboard — verified model of the visit screens, route sheet, clients, session and menu

The dashboard is a React single-page application for a gardening company. It
keeps clients with a service plan, teams of gardeners and scheduled visits.
This project models its core in Dafny and proves what the screens promise:

- **Visit scheduling.** A visit is created from the "new visit" dialog and
  takes its task list from the client's plan. Visits are rescheduled by date
  text or by dragging a card to another day of the weekly calendar. A filter
  bar (client, team, status, each possibly `all`) narrows the list.
- **Three calendar views.** The weekly drag-and-drop calendar has seven
  Monday-first columns. The daily view groups the day's visits by team and
  shows three counters. The monthly view has one cell per day.
- **The route sheet of a team leader.** Tasks are ticked per visit, notes are
  typed, and a visit is marked complete.
- **Client management.** A create/edit form, a search box and a group
  filter, and the badge colours.
- **The session provider.** Sign-in against a fixed user list, sign-out, and
  the stored session restored on mount.
- **The sidebar.** The menu entries each role may open, and the role caption.

Calendar dates are `Fechas.Date(year, month, day)` on the proleptic
Gregorian calendar, numbered by `Fechas.DayNumber`. The date-fns helpers the
views use (`addDays`, `subDays`, `startOfWeek` with Monday first,
`isSameDay`, the days of a month) are functions on these dates. A visit's
`fechaProgramada` text is read by `Fechas.Parse`: exactly `YYYY-MM-DD`
naming a real date, at local midnight. Any other text is an Invalid Date and
matches no day.

React state becomes a class per component. The arrays and records the
setters replace become `seq` and `map` fields, reassigned by methods whose
`ensures` give the whole new state. The pure computations the setters and
renderers use become functions, and the lemmas are about them.

Modules, one per file:

- `Tipos`: the records and enumerations of `src/types/index.ts`.
- `Texto`: ASCII case mapping, `includes`, first-match `replace` and decimal numbers.
- `Listas`: `filter` and `find` with their laws.
- `Fechas`: calendar dates.
- `Agenda`: what the visit screens share.
- `CalendarioSemanal`, `ProgramacionVisitas`, `VistaDiaria`, `VistaMensual`,
  `HojaRuta`, `GestionClientes`, `Auth` and `Sidebar`: one per component.

## Model

| member | source | states |
|---|---|---|
| Tipos.EstadoDe | src/types/index.ts:72 | a string names a status exactly when it is one of the five status names; the status it yields has that name |
| Tipos.GrupoDe | src/types/index.ts:8 | a string names a group exactly when it is "A", "B" or "C" |
| Tipos.PlanDe | src/types/index.ts:9 | a string names a plan exactly when it is one of the three plan names |
| Tipos.NombresInyectivos | src/types/index.ts:8-9 | different groups, statuses, plans and roles have different string names, so comparing a field's name with a filter string is comparing variants |
| Agenda.BuscarCliente | src/components/Visitas/ProgramacionVisitas.tsx:245 | `find` by id: the client found is the first in the list with that id; none is found exactly when no client has the id |
| Agenda.BuscarEquipo | src/components/Visitas/ProgramacionVisitas.tsx:246 | the same for teams: the first team with that id, none exactly when no team has it |
| Agenda.EstadoBadge | src/components/Visitas/ProgramacionVisitas.tsx:288-303 | the badge shows the value itself exactly when it is not a status name, and the status's label from the label table otherwise |
| Agenda.EtiquetasDistintas | src/components/Visitas/ProgramacionVisitas.tsx:288-303 | distinct statuses have distinct labels; each label starts with the capital of its status name's first letter and differs from the name |
| Agenda.VisitasDelDia | src/components/Visitas/CalendarioSemanal.tsx:54-59 | a day cell holds exactly the visits whose date reads, at local midnight, as that day, in list order, each as often as in the list |
| Agenda.VisitasDelDiaUtc | src/components/Visitas/VistaDiaria.tsx:26-28 | the same-day filter as the daily and monthly views write it: the date text read at UTC midnight, then seen in local time; in list order, each as often as in the list |
| Agenda.DiaLocalDeMedianocheUtc | src/components/Visitas/VistaMensual.tsx:31 | UTC midnight of a date is the previous local day west of Greenwich and the same day otherwise |
| Agenda.DesfaseOeste | src/components/Visitas/VistaDiaria.tsx:26-28 | west of Greenwich, a visit dated d is missing from d's cell as written and appears under the previous day |
| Agenda.DesfaseGuatemala | src/components/Visitas/VistaMensual.tsx:29-33 | at UTC-6 a visit dated 2024-06-25 is read as 2024-06-24 |
| Agenda.LecturasCoincidenAlEste | src/components/Visitas/ProgramacionVisitas.tsx:147-148 | at UTC or east of it, the UTC reading and the local reading select the same visits |
| Agenda.CeldasDisjuntas | src/components/Visitas/CalendarioSemanal.tsx:54-59 | the cells of two different days share no visit |
| Agenda.CeldasParticion | src/components/Visitas/CalendarioSemanal.tsx:54-59 | over a row of different days, the cells together hold each visit dated on one of those days exactly as often as the list, and nothing else |
| Fechas.AddDays | src/components/Visitas/CalendarioSemanal.tsx:27 | `addDays(d, n)` is a valid date exactly n days after d |
| Fechas.StartOfWeek | src/components/Visitas/CalendarioSemanal.tsx:26 | `startOfWeek(d, { weekStartsOn: 1 })` is a Monday, at most six days before d |
| Fechas.LunesAnterior | src/components/Visitas/CalendarioSemanal.tsx:26 | stepping back by date-fns's difference from any weekday lands on a Monday |
| Fechas.DiasSemana | src/components/Visitas/CalendarioSemanal.tsx:26-27 | seven consecutive days starting on a Monday, one of them the selected day |
| Fechas.DiasSemanaDistintos | src/components/Visitas/CalendarioSemanal.tsx:27 | the seven columns are seven different dates |
| Fechas.Parse | src/components/Visitas/CalendarioSemanal.tsx:56 | only text of four digits, '-', two digits, '-', two digits naming a real date reads as a day |
| Fechas.ParseLeeLoEscrito | src/components/Visitas/CalendarioSemanal.tsx:56 | a date read from text is the date its digits name: for years from 1000 on the text is exactly the `yyyy-MM-dd` form of that date |
| CalendarioSemanal.FechaDrop | src/components/Visitas/CalendarioSemanal.tsx:45-48 | the text a drop builds is `YYYY-MM-DD` for four-digit years and reads back as the day dropped on |
| CalendarioSemanal.EstadoColor | src/components/Visitas/CalendarioSemanal.tsx:61-76 | a card is grey exactly when its status is not one of the five |
| CalendarioSemanal.EstadoColorInyectivo | src/components/Visitas/CalendarioSemanal.tsx:61-76 | different statuses get different card colours |
| CalendarioSemanal.SemanaParticion | src/components/Visitas/CalendarioSemanal.tsx:26-59 | a visit is in some column exactly when its day is in the week; no two columns share a visit; the columns hold each such visit as often as the list does |
| ProgramacionVisitas.TareasPorPlan | src/components/Visitas/ProgramacionVisitas.tsx:250-254 | each plan gives three distinct tasks |
| ProgramacionVisitas.TareasPorPlanDistintas | src/components/Visitas/ProgramacionVisitas.tsx:250-254 | different plans give different task lists |
| ProgramacionVisitas.NuevaVisita | src/components/Visitas/ProgramacionVisitas.tsx:240-268 | a visit is built exactly when client, team and date are filled in and both ids are found; it carries the given id, the found names, the plan's tasks, status 'programada', and nothing done |
| ProgramacionVisitas.Reagendar | src/components/Visitas/ProgramacionVisitas.tsx:280-286 | visits with the id get the new date and 'reagendada'; all others, the order and the length are kept |
| ProgramacionVisitas.ReagendarIdempotente | src/components/Visitas/ProgramacionVisitas.tsx:280-286 | rescheduling twice to the same date is rescheduling once |
| ProgramacionVisitas.SoltarEnDia | src/components/Visitas/CalendarioSemanal.tsx:40-52 | after a drop, the dropped visit is in the target day's list of all visits as 'reagendada', and every other visit is in the same days' lists as before |
| ProgramacionVisitas.SoltarFiltrado | src/components/Visitas/ProgramacionVisitas.tsx:503-508 | in the calendar's filtered cells the dropped visit shows on the target day exactly when it passes the filters, so a status filter other than 'reagendada' hides it |
| ProgramacionVisitas.FiltrarVisitas | src/components/Visitas/ProgramacionVisitas.tsx:503-508 | the calendar gets exactly the visits passing the three filters, in list order, each as often as in the list |
| ProgramacionVisitas.SinFiltrosEsTodo | src/components/Visitas/ProgramacionVisitas.tsx:28-32 | with every filter at 'all' the whole list is shown unchanged |
| ProgramacionVisitas.FiltrarIdempotente | src/components/Visitas/ProgramacionVisitas.tsx:503-508 | filtering twice is filtering once |
| ProgramacionVisitas.VisitasSemana | src/components/Visitas/ProgramacionVisitas.tsx:146-154 | the weekly table holds exactly the visits of the week passing the filters, in list order, each as often as in the list |
| ProgramacionVisitas.SemanaEsCalendario | src/components/Visitas/ProgramacionVisitas.tsx:142-154 | the weekly table equals the calendar's filtered list cut to the week, and holds exactly the visits of the calendar's seven columns |
| ProgramacionVisitas.Programacion.constructor | src/components/Visitas/ProgramacionVisitas.tsx:24-39 | the loaded lists, an empty form and a closed dialog |
| ProgramacionVisitas.Programacion.CrearVisita | src/components/Visitas/ProgramacionVisitas.tsx:240-278 | on success the visit is appended and the form reset and closed; otherwise nothing changes |
| ProgramacionVisitas.Programacion.ReagendarVisita | src/components/Visitas/ProgramacionVisitas.tsx:280-286 | the list becomes its rescheduled copy and nothing else changes |
| VistaDiaria.AgruparPorEquipo | src/components/Visitas/VistaDiaria.tsx:47-53 | the `reduce` yields one key per team with a visit that day, each holding that team's visits in order, and no keys on an empty day |
| VistaDiaria.EquiposDeMiembro | src/components/Visitas/VistaDiaria.tsx:47-53 | a team is a key exactly when one of the day's visits belongs to it |
| VistaDiaria.PasoAgrupar | src/components/Visitas/VistaDiaria.tsx:48-51 | one step of the `reduce` keeps the grouping invariant |
| VistaDiaria.GruposParticion | src/components/Visitas/VistaDiaria.tsx:47-53 | each visit appears on its own team's card as often as in the day, and on no other card |
| VistaDiaria.Completadas | src/components/Visitas/VistaDiaria.tsx:91 | the "Completadas" count is the number of the day's visits whose status is 'completada' |
| VistaDiaria.Pendientes | src/components/Visitas/VistaDiaria.tsx:97 | the "Pendientes" count is the number of the day's visits whose status is 'programada' |
| VistaDiaria.CuentaEstado | src/components/Visitas/VistaDiaria.tsx:91-97 | filtering by one status keeps as many visits as the day's statuses hold copies of it |
| VistaDiaria.ContadoresPorEstado | src/components/Visitas/VistaDiaria.tsx:86-97 | completed, pending and other visits add up to the day's total |
| VistaDiaria.ContadoresAcotados | src/components/Visitas/VistaDiaria.tsx:86-97 | the two counters never exceed the total, and equal it exactly when every visit is completed or pending |
| VistaDiaria.Anterior | src/components/Visitas/VistaDiaria.tsx:64 | "← Anterior" moves to the day before |
| VistaDiaria.Siguiente | src/components/Visitas/VistaDiaria.tsx:76 | "Siguiente →" moves to the day after |
| VistaDiaria.AnteriorSiguiente | src/components/Visitas/VistaDiaria.tsx:64-76 | back then forward, or forward then back, returns to the day shown |
| VistaDiaria.TituloEquipo | src/components/Visitas/VistaDiaria.tsx:119 | a card's title is the team's name when found and non-empty, and 'Equipo Desconocido' for an unknown team or an empty name |
| VistaDiaria.DireccionVisita | src/components/Visitas/VistaDiaria.tsx:128-141 | the client's address when found and non-empty, and 'Dirección no disponible' for an unknown client or an empty address |
| VistaMensual.DiasMes | src/components/Visitas/VistaMensual.tsx:25-27 | the month's days, 1 to its last day, one day apart, including the selected day |
| VistaMensual.DiasMesDistintos | src/components/Visitas/VistaMensual.tsx:27 | the month's days are all different |
| VistaMensual.CeldasMes | src/components/Visitas/VistaMensual.tsx:27-33 | a visit is in some cell exactly when it is dated in that month, and the cells hold each such visit as often as the list does |
| VistaMensual.NuevaFechaMes | src/components/Visitas/VistaMensual.tsx:60 | `new Date(year, monthIndex)` is the first of a valid month; indices outside 0..11 carry into the year; years 0 to 99 mean 1900 to 1999 |
| VistaMensual.MesAnterior | src/components/Visitas/VistaMensual.tsx:60 | "← Anterior" lands on the first of a month |
| VistaMensual.MesSiguiente | src/components/Visitas/VistaMensual.tsx:72 | "Siguiente →" lands on the first of a month |
| VistaMensual.MesesConsecutivos | src/components/Visitas/VistaMensual.tsx:60-72 | the buttons step exactly one month, carrying across the year boundary |
| VistaMensual.MesAnteriorSiguiente | src/components/Visitas/VistaMensual.tsx:60-72 | forward then back, or back then forward, returns to the first of the month shown |
| VistaMensual.SiguienteDesdeAnio99 | src/components/Visitas/VistaMensual.tsx:72 | "Siguiente →" from December of year 99 lands on January 2000 |
| VistaMensual.NotaMas | src/components/Visitas/VistaMensual.tsx:125-129 | the "+N más" note appears exactly when a day has more than two visits, and N counts those beyond two |
| VistaMensual.NotaMasComoEscrita | src/components/Visitas/VistaMensual.tsx:107-129 | as written, every visit is drawn, so cards and note together count more visits than the day has and the cards are not the capped list |
| VistaMensual.TarjetasCelda | src/components/Visitas/VistaMensual.tsx:107 | corrected: at most two cards, a prefix of the day's visits, all of them when there are two or fewer |
| VistaMensual.TarjetasYNota | src/components/Visitas/VistaMensual.tsx:107-129 | corrected: the cards and the note account for every visit of the day exactly once |
| VistaMensual.EstadoBadgeCorto | src/components/Visitas/VistaMensual.tsx:35-50 | the short badge shows the value itself exactly when it is not a status name, and the status's short label otherwise |
| VistaMensual.EtiquetasCortasDistintas | src/components/Visitas/VistaMensual.tsx:35-50 | distinct statuses have distinct short labels, and no short label is itself a status name |
| VistaMensual.IndiceSemana | src/components/Visitas/VistaMensual.tsx:81 | a date's position among the headings Lun…Dom agrees with its weekday |
| VistaMensual.ColumnaComoEscrita | src/components/Visitas/VistaMensual.tsx:88-89 | as written, day n of the month falls in column (n-1) mod 7 |
| VistaMensual.ColumnaComoEscritaSoloLunes | src/components/Visitas/VistaMensual.tsx:81-89 | as written, days sit under their own weekday exactly when the month begins on a Monday |
| VistaMensual.ColumnaComoEscritaContraejemplo | src/components/Visitas/VistaMensual.tsx:81-89 | June 1 2025 is a Sunday but is drawn under "Lun" |
| VistaMensual.Desfase | src/components/Visitas/VistaMensual.tsx:81-89 | corrected: the number of blank cells before the 1st is below seven |
| VistaMensual.Columna | src/components/Visitas/VistaMensual.tsx:88-89 | corrected: a day's column once the blank cells are in front |
| VistaMensual.ColumnaEsDiaSemana | src/components/Visitas/VistaMensual.tsx:81-89 | corrected: every day sits under its own weekday's heading |
| HojaRuta.CambiarTarea | src/components/HojaRuta/HojaRuta.tsx:44-54 | ticking appends the task; unticking removes every copy and keeps the other tasks in order with their number of copies; the notes and other visits' entries are kept |
| HojaRuta.MarcarYDesmarcar | src/components/HojaRuta/HojaRuta.tsx:49-51 | ticking an unticked task and unticking it restores the list |
| HojaRuta.DesmarcarIdempotente | src/components/HojaRuta/HojaRuta.tsx:51 | unticking twice is unticking once |
| HojaRuta.MarcarDosVeces | src/components/HojaRuta/HojaRuta.tsx:49-50 | ticking twice lists the task twice, so ticking is not idempotent |
| HojaRuta.CambiarObservacion | src/components/HojaRuta/HojaRuta.tsx:56-64 | the visit's notes become the text typed; its ticked tasks and the other entries are kept |
| HojaRuta.MarcarVisitaCompleta | src/components/HojaRuta/HojaRuta.tsx:66-91 | refused, with the "mark at least one task" message, exactly when no task is ticked; otherwise the ticked tasks, the notes and the time stamp are sent |
| HojaRuta.BotonYEnvio | src/components/HojaRuta/HojaRuta.tsx:197-198 | the button is enabled exactly when pressing it sends the visit |
| HojaRuta.EtiquetaAccion | src/components/HojaRuta/HojaRuta.tsx:121 | "Completar Visita" exactly when as many tasks are ticked as scheduled, else "Completar Parcialmente" |
| HojaRuta.CambiarTareaCoherente | src/components/HojaRuta/HojaRuta.tsx:44-54 | a checkbox change keeps the ticked list free of repeats and within the visit's tasks |
| HojaRuta.CambiarObservacionCoherente | src/components/HojaRuta/HojaRuta.tsx:56-64 | a notes change keeps that property |
| HojaRuta.CompletarSiiTodas | src/components/HojaRuta/HojaRuta.tsx:119-121 | with coherent updates, the label says "Completar Visita" exactly when every scheduled task is ticked |
| HojaRuta.EstadoColor | src/components/HojaRuta/HojaRuta.tsx:93-100 | grey exactly when the status is not completed, in progress or scheduled |
| HojaRuta.EstadoColorInyectivo | src/components/HojaRuta/HojaRuta.tsx:93-100 | the three coloured statuses get three different colours |
| HojaRuta.HojaRuta.constructor | src/components/HojaRuta/HojaRuta.tsx:13-42 | the day's visits and no updates |
| HojaRuta.HojaRuta.HandleTareaChange | src/components/HojaRuta/HojaRuta.tsx:44-54 | the updates become their `CambiarTarea` |
| HojaRuta.HojaRuta.HandleObservacionChange | src/components/HojaRuta/HojaRuta.tsx:56-64 | the updates become their `CambiarObservacion` |
| GestionClientes.AplicarForm | src/components/Clientes/GestionClientes.tsx:84 | the form's eight fields replace the client's; id, registration date, active flag and history are kept |
| GestionClientes.AplicarFormDe | src/components/Clientes/GestionClientes.tsx:80-86 | saving a client's own form untouched gives back the same client |
| GestionClientes.Editar | src/components/Clientes/GestionClientes.tsx:80-86 | clients with the edited id take the form; others, the order and the length are kept |
| GestionClientes.EditarSinCambios | src/components/Clientes/GestionClientes.tsx:80-125 | opening a client for edition and saving unchanged leaves the list as it was, when ids are unique |
| GestionClientes.EditarIds | src/components/Clientes/GestionClientes.tsx:80-86 | editing keeps every id in place, so unique ids stay unique |
| GestionClientes.NuevoCliente | src/components/Clientes/GestionClientes.tsx:93-99 | the new client carries the form's fields, the given id and date, active and without history |
| GestionClientes.AltaIdsUnicos | src/components/Clientes/GestionClientes.tsx:93-101 | appending a client with a new id keeps ids unique |
| GestionClientes.ClientesFiltrados | src/components/Clientes/GestionClientes.tsx:127-133 | exactly the clients whose lower-cased name or e-mail contains the lower-cased search and whose group passes, in order, each as often as in the list |
| GestionClientes.SinFiltrosTodos | src/components/Clientes/GestionClientes.tsx:127-133 | an empty search with 'todos' lists every client in order |
| GestionClientes.BuscarPorNombre | src/components/Clientes/GestionClientes.tsx:128 | searching a client's own name, in any ASCII letter case, finds it |
| GestionClientes.FiltroGrupo | src/components/Clientes/GestionClientes.tsx:130 | the group filter narrows the text-filtered list to that group, keeping the order |
| GestionClientes.MensajeVacio | src/components/Clientes/GestionClientes.tsx:385-387 | "adjust the filters" exactly when a filter is set, else "add your first client" |
| GestionClientes.GrupoColor | src/components/Clientes/GestionClientes.tsx:135-142 | green exactly for A, blue exactly for B, grey for everything else |
| GestionClientes.PlanColor | src/components/Clientes/GestionClientes.tsx:144-151 | grey exactly when the value is not a plan name |
| GestionClientes.PlanColorInyectivo | src/components/Clientes/GestionClientes.tsx:144-151 | different plans get different colours |
| GestionClientes.GestionClientes.constructor | src/components/Clientes/GestionClientes.tsx:47-61 | the initial list, empty search, 'todos', a closed dialog, nobody in edition, the default form |
| GestionClientes.GestionClientes.ResetForm | src/components/Clientes/GestionClientes.tsx:63-75 | the default form and nobody in edition; the rest is kept |
| GestionClientes.GestionClientes.EditarCliente | src/components/Clientes/GestionClientes.tsx:112-125 | remembers the client, loads it into the form and opens the dialog |
| GestionClientes.GestionClientes.HandleSubmit | src/components/Clientes/GestionClientes.tsx:77-110 | edit mode rewrites the edited client, create mode appends a new one; both reset the form and close the dialog |
| Auth.Autenticar | src/contexts/AuthContext.tsx:60 | the user found is the first active user with that e-mail; none is found exactly when no active user has it |
| Auth.InactivoRechazado | src/contexts/AuthContext.tsx:60 | an e-mail of inactive users only is refused |
| Auth.ActivoAceptado | src/contexts/AuthContext.tsx:60 | with unique e-mails, an active user's e-mail signs in as that user |
| Auth.AuthProvider.constructor | src/contexts/AuthContext.tsx:44-45 | nobody signed in, loading |
| Auth.AuthProvider.Montar | src/contexts/AuthContext.tsx:47-54 | a stored session is restored and loading ends |
| Auth.AuthProvider.IniciarSesion | src/contexts/AuthContext.tsx:56-71 | succeeds exactly when an active user has the e-mail, whatever the password; success signs in and stores the user; failure changes neither; loading ends either way |
| Auth.AuthProvider.CerrarSesion | src/contexts/AuthContext.tsx:73-76 | nobody signed in and nothing stored |
| Sidebar.MenuItems | src/components/Layout/Sidebar.tsx:24-57 | seven entries for administrators, five for logistics operators, two for team leaders, none without a user |
| Sidebar.IdsPorRol | src/components/Layout/Sidebar.tsx:27-54 | each role's entry ids, in order |
| Sidebar.IdsDistintos | src/components/Layout/Sidebar.tsx:27-54 | no menu shows two entries with the same id |
| Sidebar.AccesoPorRol | src/components/Layout/Sidebar.tsx:27-54 | users and prospects only for administrators, the route sheet only for team leaders, an operator's entries all among an administrator's |
| Sidebar.EtiquetaRol | src/components/Layout/Sidebar.tsx:65 | a caption exactly when someone is signed in, as long as the role name |
| Sidebar.EtiquetasDeRol | src/components/Layout/Sidebar.tsx:65 | the captions are "ADMINISTRADOR", "OPERADOR LOGISTICO" and "ENCARGADO" |

## Left out

- JSX rendering, styling and icons are not modelled. One of these is the `Calendar` icon that src/components/HojaRuta/HojaRuta.tsx:107 uses without importing it.
- The mock fixtures are left out. Each constructor takes its initial lists as parameters.
- `localStorage` and JSON are not modelled: the stored session is an abstract slot holding a user (`Auth.AuthProvider.sesionGuardada`).
- Toasts, `console.log` and the backend call marked as a comment are left out. `HojaRuta.MarcarVisitaCompleta` returns what would be logged, or the refusal message.
- `Date.now()`, `new Date()` and `toISOString()` are parameters: the new id, today's date and the execution time stamp.
- The "Hoy" buttons set the selected date to the clock's today. With the clock a parameter there is nothing left to model.
- The `prompt` reschedule in the weekly table is not modelled; its effect is `ProgramacionVisitas.Programacion.ReagendarVisita`. The `dataTransfer` round trip of the dragged id is not modelled either; the dropped id is a parameter of `ProgramacionVisitas.SoltarEnDia`.
- Text formatting of dates (`'HH:mm'`, `'dd/MM'`, month and weekday names) and the progress bar's floating-point percentage are not modelled.
- Asynchrony of `iniciarSesion` is not modelled. The sign-in is one atomic step, and its intermediate `isLoading = true` is not observable.
- The password is not modelled: the source never reads it.
- The e-mail format check of the browser is not modelled.
- The form fields the browser requires (name, phone, e-mail, address) are a precondition of `GestionClientes.GestionClientes.HandleSubmit`. The browser does not submit otherwise.
- Texto.ToLower, Texto.ToUpper: only ASCII letters are mapped. JavaScript maps all of Unicode, so searches with accented capitals differ.
- Fechas.Parse: the only text read as a date is `YYYY-MM-DD`. Other forms that JavaScript also accepts (times, other separators, expanded years) count as no date.
- Fechas.Parse: a day past the month's end ("2024-02-30") reads as no date. JavaScript engines differ here; some accept days up to 31 and roll over into the next month. The model does not follow that rollover.
- CalendarioSemanal.FechaDrop: the round trip is stated for years 1000 to 9999 only. Other years are not zero-padded to four digits by the source, and no visit date uses them.
- VistaMensual.MesAnteriorSiguiente: stated for years the `Date` constructor does not remap (from 101, or up to -2). `VistaMensual.SiguienteDesdeAnio99` shows the remapping at year 99.
- `!nuevaVisita.clienteId` and similar truthiness tests are modelled as comparison with the empty string. The fields are strings, so this is the only falsy value.
- The order of `Object.entries` on the team grouping is not modelled: `VistaDiaria.AgruparPorEquipo` returns a `map`.
- `HojaRuta.MarcarDosVeces` states that ticking the same task twice appends it twice. A repeated tick appends a second copy; only unticking is idempotent. Through the checkbox a tick and an untick alternate, so the duplicate needs a repeated `true` event.
- Local time: every view in the model reads a visit's date at local midnight (`Agenda.VisitasDelDia`). The UTC reading in the daily and monthly views and the weekly table is modelled separately (`Agenda.VisitasDelDiaUtc`), with the time-zone offset as a parameter in minutes. Daylight-saving changes within a day are not modelled.

## Findings

| source | as written | input that shows it | evidently intended | confidence | as-written member | corrected member |
|---|---|---|---|---|---|---|
| src/components/Visitas/VistaDiaria.tsx:26-28 (also VistaMensual.tsx:29-33, ProgramacionVisitas.tsx:147) | `new Date('YYYY-MM-DD')` is UTC midnight, then compared with local days by `isSameDay` | a visit dated "2024-06-25" viewed at UTC-6 (the fixtures' phone numbers are Guatemalan, +502) is listed on 2024-06-24 | read the date at local midnight, as CalendarioSemanal.tsx:56 does with `'T00:00:00'` | high; not executed | Agenda.DesfaseOeste, Agenda.DesfaseGuatemala | Agenda.VisitasDelDia (with Agenda.CeldasParticion, VistaMensual.CeldasMes) |
| src/components/Visitas/VistaMensual.tsx:81-89 | day cells start in the first column, so the 1st always sits under "Lun" | June 2025: the 1st is a Sunday and is drawn under "Lun" | blank cells before the 1st, as many as weekdays from Monday | high; not executed | VistaMensual.ColumnaComoEscritaContraejemplo, VistaMensual.ColumnaComoEscritaSoloLunes | VistaMensual.ColumnaEsDiaSemana |
| src/components/Visitas/VistaMensual.tsx:107-129 | every visit of the day is drawn, and "+N más" is added for those beyond two | a day with three visits shows three cards and "+1 más" | draw the first two visits and announce the rest | medium; not executed | VistaMensual.NotaMasComoEscrita | VistaMensual.TarjetasYNota |
