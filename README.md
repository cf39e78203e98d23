# Barbershop appointment book — a Dafny model

This project models the appointment book and client roster of a small barbershop web
application (`barbearia_system/app.py`). The application keeps three tables: clients
(`Cliente`), services (`Servico`) and appointments (`Agendamento`, with the status `Pendente`,
`Confirmado`, `Concluido` or `Cancelado`). Each HTTP request handler reads these tables and
then either commits a change or commits nothing. The model covers the following handlers:

- client self-booking, with its name/phone rule and its exact-timestamp conflict rule;
- client cancellation, with its ownership and status guards;
- admin confirm, conclude (which credits the client's cut counter and loyalty points) and cancel;
- admin creation and rescheduling of appointments;
- registration of clients and services;
- deletion of services and of clients;
- the occupied-slots listing that the booking form uses.

Files (one module each):

- `wrappers.dfy` (`Wrappers`): `Option`.
- `records.dfy` (`Records`): the rows, the status labels, the `HH:MM` rendering and one step of
  the loyalty counter.
- `queries.dfy` (`Queries`): the table queries. These are first-row lookup, filter, the next row
  id, uniqueness of a key, the conflict and name/phone checks, and the occupied-slots listing.
- `transitions.dfy` (`Transitions`): the tables as a value `Book`, and one function per handler.
  Each function returns `Done(after)` or `Refused(reason)`. A refused request commits nothing.
  `Valid` holds the integrity constraints.
- `properties.dfy` (`Properties`): lemmas that relate several requests or hold across all of them.
- `database.dfy` (`Store`): class `Database` holding the three tables as `seq` fields. It has one
  method per handler. Each method changes the fields in place, keeps `Valid()`, and is proved to
  commit exactly what its `Transitions` function describes.

Modelling choices:

- Timestamps are a `(date, hour, minute)` value and are only compared for equality, as the source
  compares them.
- Parsing a date or time is not modelled. A handler receives `Option<DateTime>`, and `None` stands
  for a missing or unparseable field.
- A new row's id follows SQLite's rowid rule: the largest id in the table plus one, or 1 for an
  empty table (`NextId`).
- A handler that ends in an uncaught exception commits nothing, because the session is rolled
  back. This covers a timestamp that does not parse in admin creation, a price that does not parse
  in service creation, and a conclude whose client row is missing. All three are modelled as
  `Refused`.

What the code does and does not guarantee:

- None of the three tables is partitioned by the URL slug. The slug must name the configuration
  row (an unknown one ends in 404), but the tables are shared, so the model has a single book.
- There is no walk-in queue in `app.py`, so none is modelled.
- At most one active appointment per timestamp is enforced only on self-booking. Admin creation
  and rescheduling skip the check, and `AdminCreateCanDoubleBook` and `RescheduleCanDoubleBook`
  exhibit a double booking reached from a valid book. So it is not an invariant of the model.
  Admin confirm and conclude also skip it: they turn a `Cancelado` appointment back into an
  active one even after its slot has been self-booked again (`ConfirmCanDoubleBook`).
  `SelfBookingHoldsSlotAlone` states what self-booking does guarantee.

The counters are counted once per conclude, not once per appointment. Conclude changes nothing
on an appointment that is already `Concluido` (`ConcluirAgendamentoIdempotent`). But an admin
cancel or confirm moves the status away from `Concluido`, and a later conclude credits the
client again (`ReopenedAppointmentCreditedTwice`).

## Model

| member | source | states |
|---|---|---|
| `Records.NextLoyalty` | barbearia_system/app.py:329-331 | one completion adds a loyalty point and wraps 11 to 0; for points in 0..10 the result is (p + 1) mod 11 |
| `Records.HoraMinuto` | barbearia_system/app.py:111 | a time renders as five characters, two digits, a colon, two digits, and the two digit pairs read back as the hour and the minute |
| `Records.HoraMinutoInjective` | barbearia_system/app.py:111 | two times with the same `HH:MM` text are the same time |
| `Queries.NextId` | barbearia_system/app.py:223-228 | a new row's id exceeds every id in its table and is the largest id plus one (1 on an empty table) |
| `Queries.ClienteIndex` | barbearia_system/app.py:327 | finds the first client row with the given primary key, or reports that none has it |
| `Queries.PhoneIndex` | barbearia_system/app.py:206 | finds a client row with the given phone, or reports that no client has it |
| `Queries.ServicoIndex` | barbearia_system/app.py:419 | finds a service row with the given primary key, or reports that none has it |
| `Queries.AgendamentoIndex` | barbearia_system/app.py:165 | finds the first appointment row with the given primary key, or reports that none has it |
| `Queries.HasConflict` | barbearia_system/app.py:212-215 | true exactly when some appointment at the same timestamp is Pendente, Confirmado or Concluido; cancelled ones never block |
| `Queries.ServiceReferenced` | barbearia_system/app.py:420 | true exactly when some appointment refers to the service |
| `Queries.NameClash` | barbearia_system/app.py:205-208 | with unique phones: some client has the name, and every client with the phone has a different name |
| `Queries.AgendamentosSemCliente` | barbearia_system/app.py:435 | keeps exactly the appointments that do not belong to the client |
| `Queries.ClientesSem` | barbearia_system/app.py:436 | keeps exactly the clients with another id |
| `Queries.ServicosSem` | barbearia_system/app.py:423 | keeps exactly the services with another id |
| `Queries.FilterCounts` | barbearia_system/app.py:106-109 | a query filter keeps each matching row as many times as the table holds it and drops every other row |
| `Queries.OccupyingOn` | barbearia_system/app.py:106-109 | keeps exactly the appointments on the day that are Pendente, Confirmado or Concluido, each as often as in the table |
| `Queries.HorariosOcupados` | barbearia_system/app.py:97-112 | lists exactly the HH:MM of the appointments on the day that are Pendente, Confirmado or Concluido, one entry per such appointment and with the multiplicity of the table; empty when the day is missing or unparseable |
| `Queries.ConflictIffListedOccupied` | barbearia_system/app.py:106-111 | a timestamp conflicts for self-booking exactly when its HH:MM appears in the occupied list for its day |
| `Transitions.AgendarCliente` | barbearia_system/app.py:198-229 | succeeds exactly when the timestamp parses, the name rule passes and the slot is free; bad timestamp, then the name rule, then the conflict rule refuse with nothing committed; on success one Pendente appointment at the timestamp is appended, with a fresh id, for the existing client with that phone or for one new client with zero counters; services unchanged |
| `Transitions.CancelarAgendamentoCliente` | barbearia_system/app.py:164-175 | missing id is NotFound; another client's appointment is AccessDenied; the caller's Concluido or Cancelado appointment is NotCancellable; the request succeeds exactly for the caller's Pendente or Confirmado appointment, which becomes Cancelado, and nothing else changes |
| `Transitions.ConfirmarAgendamento` | barbearia_system/app.py:312-313 | succeeds exactly when the id exists; the appointment becomes Confirmado whatever its status, and nothing else changes |
| `Transitions.ConcluirAgendamento` | barbearia_system/app.py:324-333 | an already-concluded appointment leaves the book as it is; otherwise it becomes Concluido, and its client gets one more cut and one loyalty step, while other rows stay as they were; a missing client refuses with nothing committed |
| `Transitions.CancelarAgendamentoAdmin` | barbearia_system/app.py:343-344 | succeeds exactly when the id exists; the appointment becomes Cancelado whatever its status, and nothing else changes |
| `Transitions.NovoAgendamento` | barbearia_system/app.py:277-281 | refused only for an unparseable timestamp; otherwise one Confirmado appointment with a fresh id is appended, with no conflict check |
| `Transitions.AlterarDataAgendamento` | barbearia_system/app.py:295-300 | missing id is NotFound, unparseable timestamp is refused; an existing id with a parsed timestamp always succeeds, and only that appointment's timestamp changes, with no conflict check |
| `Transitions.NovoCliente` | barbearia_system/app.py:370-377 | refused exactly when the phone is registered; otherwise one client with a fresh id, the given fields and zero counters is appended |
| `Transitions.NovoServico` | barbearia_system/app.py:405-409 | refused exactly when the price does not parse; otherwise appends one service with a fresh id, the name, the price and the default duration 30 |
| `Transitions.ExcluirServico` | barbearia_system/app.py:419-425 | refused exactly when the id is missing (NotFound) or some appointment refers to the service (ServiceInUse for an existing one); otherwise exactly the services with another id remain |
| `Transitions.ExcluirCliente` | barbearia_system/app.py:434-437 | missing id is NotFound; otherwise exactly the other clients and exactly the appointments of other clients remain; services unchanged |
| `Properties.AgendarClienteKeepsValid` | barbearia_system/app.py:221-229 | self-booking keeps ids and phones unique and loyalty points in 0..10 |
| `Properties.SetStatusKeepsValid` | barbearia_system/app.py:343-344 | admin confirm and cancel keep the integrity constraints |
| `Properties.CancelarAgendamentoClienteKeepsValid` | barbearia_system/app.py:169-171 | client cancel keeps the integrity constraints |
| `Properties.ConcluirAgendamentoKeepsValid` | barbearia_system/app.py:325-333 | conclude keeps loyalty points in 0..10 and counters non-negative, and keeps ids and phones unique |
| `Properties.NovoAgendamentoKeepsValid` | barbearia_system/app.py:279-281 | admin creation keeps appointment ids unique |
| `Properties.AlterarDataAgendamentoKeepsValid` | barbearia_system/app.py:298-300 | rescheduling keeps the integrity constraints |
| `Properties.NovoClienteKeepsValid` | barbearia_system/app.py:370-375 | registration keeps client ids and phones unique |
| `Properties.NovoServicoKeepsValid` | barbearia_system/app.py:407-409 | adding a service, or refusing it, keeps service ids unique |
| `Properties.ExcluirServicoKeepsValid` | barbearia_system/app.py:420-424 | deleting a service keeps the integrity constraints |
| `Properties.ExcluirClienteKeepsValid` | barbearia_system/app.py:435-437 | deleting a client and their appointments keeps the integrity constraints |
| `Properties.SelfBookingHoldsSlotAlone` | barbearia_system/app.py:212-229 | after a successful self-booking, the new appointment is the only one holding its timestamp |
| `Properties.AdminCreateCanDoubleBook` | barbearia_system/app.py:277-281 | from a valid book, admin creation can put a second active appointment on a held timestamp |
| `Properties.RescheduleCanDoubleBook` | barbearia_system/app.py:298-300 | from a valid book, rescheduling can move an active appointment onto a held timestamp |
| `Properties.ConfirmCanDoubleBook` | barbearia_system/app.py:312-313 | from a valid book, admin confirm can reopen a cancelled appointment onto a slot that was self-booked again |
| `Properties.AdminCancelFreesSlot` | barbearia_system/app.py:343-344 | admin-cancelling the only appointment that holds a timestamp frees it for self-booking |
| `Properties.ConcluirAgendamentoIdempotent` | barbearia_system/app.py:325 | concluding twice gives the same book as concluding once |
| `Properties.ConcluirCreditsClient` | barbearia_system/app.py:325-331 | concluding an open appointment makes it Concluido, adds one cut, sets points to (p + 1) mod 11, and changes no other row |
| `Properties.SetStatusAt` | barbearia_system/app.py:312-313 | confirm/cancel by admin sets exactly that appointment's status and changes no other row |
| `Properties.LoyaltyCycle` | barbearia_system/app.py:329-332 | after n completions a new client holds n mod 11 points, so the reset happens exactly on every eleventh completion |
| `Properties.CancelThenConcludeCredits` | barbearia_system/app.py:325-329 | an admin cancel followed by conclude credits the client one more cut |
| `Properties.ReopenedAppointmentCreditedTwice` | barbearia_system/app.py:325-329 | conclude, admin cancel, conclude on one appointment credits its client two cuts |
| `Store.Database.constructor` | barbearia_system/app.py:68-69 | the tables start empty and valid |
| `Store.Database.AgendarCliente` | barbearia_system/app.py:188-233 | updates the tables in place exactly as `Transitions.AgendarCliente` and keeps Valid |
| `Store.Database.CancelarAgendamentoCliente` | barbearia_system/app.py:164-175 | updates the tables in place exactly as `Transitions.CancelarAgendamentoCliente` and keeps Valid |
| `Store.Database.ConfirmarAgendamento` | barbearia_system/app.py:308-316 | updates the tables in place exactly as `Transitions.ConfirmarAgendamento` and keeps Valid |
| `Store.Database.ConcluirAgendamento` | barbearia_system/app.py:320-335 | updates the tables in place exactly as `Transitions.ConcluirAgendamento`, rolling back the status change when the client is missing, and keeps Valid |
| `Store.Database.CancelarAgendamentoAdmin` | barbearia_system/app.py:339-347 | updates the tables in place exactly as `Transitions.CancelarAgendamentoAdmin` and keeps Valid |
| `Store.Database.NovoAgendamento` | barbearia_system/app.py:268-283 | updates the tables in place exactly as `Transitions.NovoAgendamento` and keeps Valid |
| `Store.Database.AlterarDataAgendamento` | barbearia_system/app.py:291-304 | updates the tables in place exactly as `Transitions.AlterarDataAgendamento` and keeps Valid |
| `Store.Database.NovoCliente` | barbearia_system/app.py:360-379 | updates the tables in place exactly as `Transitions.NovoCliente` and keeps Valid |
| `Store.Database.NovoServico` | barbearia_system/app.py:401-411 | updates the tables in place exactly as `Transitions.NovoServico` and keeps Valid |
| `Store.Database.ExcluirServico` | barbearia_system/app.py:415-426 | updates the tables in place exactly as `Transitions.ExcluirServico` and keeps Valid |
| `Store.Database.ExcluirCliente` | barbearia_system/app.py:430-439 | updates the tables in place exactly as `Transitions.ExcluirCliente` and keeps Valid |

## Left out

- HTTP routing, templates, flash messages and redirects. A flash of an error is modelled as a
  refusal that commits nothing.
- Authentication, sessions, password hashing and the admin/client role checks. The logged-in
  client's id is a plain parameter of client cancellation. The login that follows a self-booking
  is not modelled.
- SQL persistence and transactions. The tables are sequences held in memory, and ORM rows updated
  in place are modelled as row values replaced in a sequence. The order of rows that a query
  returns is taken to be table order.
- The start-up seeding of the configuration, the admin user and four services.
- `strptime` parsing. The parsed timestamp or date is an `Option` parameter. Seconds are not
  kept, because the forms never carry them.
- Float parsing of the price. The parsed price is an `Option<real>` parameter, and the stored
  price is an exact `real`, not a rounded double.
- The 404 for a URL slug that names no configuration row, in self-booking and the client pages.
  Self-booking takes the configuration as found.
- The configuration page, which only assigns fields.
- Missing form fields. The model takes the fields as given strings and naturals, so it admits no
  request without them. In the code:
  - A missing phone, client id or service id makes the insert fail on a NOT NULL column
    (`telefone`, `cliente_id`, `servico_id`), so nothing is committed.
  - A missing name fails on the NOT NULL `nome` column only when a new client row is inserted.
    In self-booking with a registered phone, no name matches, no client row is inserted, and the
    appointment is committed for that phone's client. The model gives the same outcome for a
    name that no client carries.
- Referential integrity. The database does not check the client and service ids of an
  appointment, so `Valid` does not either.
- Concurrency, including the race between the conflict check and the insert.
- The listing pages (admin index, appointment list, client list, client panel), which only read.
