/** Each request handler of the appointment book as a function from the tables before the
    request to what it commits. The database class in database.dfy is proved against these. */
module Transitions {
  import opened Wrappers
  import opened Records
  import opened Queries

  /** The three tables. */
  datatype Book = Book(clientes: seq<Cliente>, servicos: seq<Servico>, agendamentos: seq<Agendamento>)

  /** Why a handler committed nothing. */
  datatype Error =
    | InvalidDateTime   // the date and time fields did not parse
    | InvalidPrice      // the price field did not parse as a number
    | NameTaken         // self-booking: the name belongs to a client with another phone
    | SlotTaken         // self-booking: another appointment holds exactly this timestamp
    | NotFound          // no row has the requested primary key
    | AccessDenied      // client cancel: the appointment belongs to someone else
    | NotCancellable    // client cancel: the appointment is already completed or cancelled
    | PhoneTaken        // registration: the phone number is already registered
    | ServiceInUse      // service deletion: appointments still refer to the service
    | ClientMissing     // conclude: the appointment's client row does not exist

  /** What a request commits: new tables, or nothing at all together with the reason. */
  datatype Step = Done(after: Book) | Refused(reason: Error) {
    function Then(before: Book): Book {
      if Done? then after else before
    }
    function Refusal(): Option<Error> {
      if Done? then None else Some(reason)
    }
  }

  /** The database's integrity constraints, and the loyalty range the handlers keep. */
  ghost predicate Valid(b: Book) {
    && UniqueBy(b.clientes, ClienteId)
    && UniqueBy(b.clientes, Telefone)
    && UniqueBy(b.servicos, ServicoId)
    && UniqueBy(b.agendamentos, AgendamentoId)
    && forall c :: c in b.clientes ==> 0 <= c.fidelidadePontos <= 10 && 0 <= c.cortesRealizados
  }

  /** `after` is `before` with the status of the appointment at index `k` set to `st`. */
  ghost predicate StatusSet(before: Book, after: Book, k: int, st: Status) {
    && 0 <= k < |before.agendamentos|
    && after == before.(agendamentos := before.agendamentos[k := before.agendamentos[k].(status := st)])
  }

  /** `after` is `before` followed by one row whose id no row of `before` has. */
  ghost predicate AppendedFresh<T>(before: seq<T>, after: seq<T>, key: T -> nat) {
    && |after| == |before| + 1
    && after[..|before|] == before
    && forall j :: 0 <= j < |before| ==> key(before[j]) != key(after[|before|])
  }

  /** The outcome of a successful self-booking: one new Pendente appointment at `dt`, owned by
      the client with phone `telefone`, who is reused when registered and created otherwise. */
  ghost predicate SelfBooked(before: Book, after: Book, nome: string, telefone: string, servicoId: nat, dt: DateTime)
  {
    && after.servicos == before.servicos
    && AppendedFresh(before.agendamentos, after.agendamentos, AgendamentoId)
    && var novo := after.agendamentos[|before.agendamentos|];
       && novo.dataHora == dt && novo.servicoId == servicoId && novo.status == Pendente
       && if exists k :: 0 <= k < |before.clientes| && before.clientes[k].telefone == telefone then
            && after.clientes == before.clientes
            && exists k :: 0 <= k < |before.clientes| && before.clientes[k].telefone == telefone
                           && before.clientes[k].id == novo.clienteId
          else
            && AppendedFresh(before.clientes, after.clientes, ClienteId)
            && after.clientes[|before.clientes|] == Cliente(novo.clienteId, nome, telefone, None, 0, 0)
  }

  /** Client self-booking: parse, the name/phone rule, the slot-conflict rule, then reuse or
      create the client and add a Pendente appointment. */
  function AgendarCliente(b: Book, nome: string, telefone: string, servicoId: nat, dataHora: Option<DateTime>): (s: Step)
    ensures dataHora.None? ==> s == Refused(InvalidDateTime)
    ensures dataHora.Some? && NameClash(b.clientes, nome, telefone) ==> s == Refused(NameTaken)
    ensures dataHora.Some? && !NameClash(b.clientes, nome, telefone) && HasConflict(b.agendamentos, dataHora.value)
            ==> s == Refused(SlotTaken)
    ensures s.Done? <==>
      dataHora.Some? && !NameClash(b.clientes, nome, telefone) && !HasConflict(b.agendamentos, dataHora.value)
    ensures s.Done? ==> dataHora.Some? && SelfBooked(b, s.after, nome, telefone, servicoId, dataHora.value)
  {
    match dataHora
    case None => Refused(InvalidDateTime)
    case Some(dt) =>
      if NameClash(b.clientes, nome, telefone) then Refused(NameTaken)
      else if HasConflict(b.agendamentos, dt) then Refused(SlotTaken)
      else
        var (clientes, clienteId) :=
          match PhoneIndex(b.clientes, telefone)
          case Some(k) => (b.clientes, b.clientes[k].id)
          case None =>
            var id := NextId(b.clientes, ClienteId);
            (b.clientes + [Cliente(id, nome, telefone, None, 0, 0)], id);
        var novo := Agendamento(NextId(b.agendamentos, AgendamentoId), dt, clienteId, servicoId, Pendente);
        Done(b.(clientes := clientes, agendamentos := b.agendamentos + [novo]))
  }

  /** A client cancels one of their own appointments; only Pendente and Confirmado ones. */
  function CancelarAgendamentoCliente(b: Book, id: nat, clienteLogado: nat): (s: Step)
    ensures s.Done? ==>
      exists k :: StatusSet(b, s.after, k, Cancelado) && b.agendamentos[k].id == id
                  && b.agendamentos[k].clienteId == clienteLogado && ClientMayCancel(b.agendamentos[k].status)
    ensures match AgendamentoIndex(b.agendamentos, id)
      case None => s == Refused(NotFound)
      case Some(k) =>
        && (s == Refused(AccessDenied) <==> b.agendamentos[k].clienteId != clienteLogado)
        && (s.Done? <==> b.agendamentos[k].clienteId == clienteLogado && ClientMayCancel(b.agendamentos[k].status))
        && (s == Refused(NotCancellable) <==>
              b.agendamentos[k].clienteId == clienteLogado && !ClientMayCancel(b.agendamentos[k].status))
    ensures s.Refused? ==> s.reason in {NotFound, AccessDenied, NotCancellable}
  {
    match AgendamentoIndex(b.agendamentos, id)
    case None => Refused(NotFound)
    case Some(k) =>
      var a := b.agendamentos[k];
      if a.clienteId != clienteLogado then Refused(AccessDenied)
      else if ClientMayCancel(a.status) then
        Done(b.(agendamentos := b.agendamentos[k := a.(status := Cancelado)]))
      else Refused(NotCancellable)
  }

  /** Sets the status of the appointment `id` to `st` whatever it was (admin confirm and cancel). */
  function SetStatus(b: Book, id: nat, st: Status): (s: Step)
    ensures s.Refused? <==> forall j :: 0 <= j < |b.agendamentos| ==> b.agendamentos[j].id != id
    ensures s.Refused? ==> s.reason == NotFound
    ensures s.Done? ==> exists k :: StatusSet(b, s.after, k, st) && b.agendamentos[k].id == id
  {
    match AgendamentoIndex(b.agendamentos, id)
    case None => Refused(NotFound)
    case Some(k) => Done(b.(agendamentos := b.agendamentos[k := b.agendamentos[k].(status := st)]))
  }

  /** Admin confirm: the appointment becomes Confirmado, from any status. */
  function ConfirmarAgendamento(b: Book, id: nat): (s: Step)
    ensures s.Refused? <==> forall j :: 0 <= j < |b.agendamentos| ==> b.agendamentos[j].id != id
    ensures s.Done? ==> exists k :: StatusSet(b, s.after, k, Confirmado) && b.agendamentos[k].id == id
  {
    SetStatus(b, id, Confirmado)
  }

  /** Admin cancel: the appointment becomes Cancelado, from any status. */
  function CancelarAgendamentoAdmin(b: Book, id: nat): (s: Step)
    ensures s.Refused? <==> forall j :: 0 <= j < |b.agendamentos| ==> b.agendamentos[j].id != id
    ensures s.Done? ==> exists k :: StatusSet(b, s.after, k, Cancelado) && b.agendamentos[k].id == id
  {
    SetStatus(b, id, Cancelado)
  }

  /** `after` is `before` with appointment `k` Concluido and client `i` credited with one cut
      and one loyalty step; every other row is unchanged. */
  ghost predicate Rewarded(before: Book, after: Book, k: int, i: int) {
    && 0 <= k < |before.agendamentos| && 0 <= i < |before.clientes|
    && after.servicos == before.servicos
    && after.agendamentos == before.agendamentos[k := before.agendamentos[k].(status := Concluido)]
    && |after.clientes| == |before.clientes|
    && (forall j :: 0 <= j < |before.clientes| && j != i ==> after.clientes[j] == before.clientes[j])
    && var c := before.clientes[i];
       after.clientes[i] == c.(cortesRealizados := c.cortesRealizados + 1,
                               fidelidadePontos := NextLoyalty(c.fidelidadePontos))
  }

  /** Admin conclude: a one-shot step that completes the appointment and credits its client. */
  function ConcluirAgendamento(b: Book, id: nat): (s: Step)
    ensures s.Refused? ==> s.reason == NotFound || s.reason == ClientMissing
    ensures match AgendamentoIndex(b.agendamentos, id)
      case None => s == Refused(NotFound)
      case Some(k) =>
        if b.agendamentos[k].status == Concluido then s == Done(b)
        else match ClienteIndex(b.clientes, b.agendamentos[k].clienteId)
          case None => s == Refused(ClientMissing)
          case Some(i) => s.Done? && Rewarded(b, s.after, k, i)
  {
    match AgendamentoIndex(b.agendamentos, id)
    case None => Refused(NotFound)
    case Some(k) =>
      var a := b.agendamentos[k];
      if a.status == Concluido then Done(b)
      else
        match ClienteIndex(b.clientes, a.clienteId)
        case None => Refused(ClientMissing)
        case Some(i) =>
          var c := b.clientes[i];
          var c' := c.(cortesRealizados := c.cortesRealizados + 1,
                       fidelidadePontos := NextLoyalty(c.fidelidadePontos));
          Done(b.(agendamentos := b.agendamentos[k := a.(status := Concluido)],
                  clientes := b.clientes[i := c']))
  }

  /** Admin create: always adds a Confirmado appointment; no conflict check, no check that
      the client or the service exists. */
  function NovoAgendamento(b: Book, clienteId: nat, servicoId: nat, dataHora: Option<DateTime>): (s: Step)
    ensures s.Refused? <==> dataHora.None?
    ensures s.Refused? ==> s.reason == InvalidDateTime
    ensures s.Done? ==>
      && s.after.clientes == b.clientes && s.after.servicos == b.servicos
      && AppendedFresh(b.agendamentos, s.after.agendamentos, AgendamentoId)
      && var novo := s.after.agendamentos[|b.agendamentos|];
         novo.dataHora == dataHora.value && novo.clienteId == clienteId
         && novo.servicoId == servicoId && novo.status == Confirmado
  {
    match dataHora
    case None => Refused(InvalidDateTime)
    case Some(dt) =>
      var novo := Agendamento(NextId(b.agendamentos, AgendamentoId), dt, clienteId, servicoId, Confirmado);
      Done(b.(agendamentos := b.agendamentos + [novo]))
  }

  /** Admin reschedule: moves the appointment to the new timestamp, with no conflict check. */
  function AlterarDataAgendamento(b: Book, id: nat, novaDataHora: Option<DateTime>): (s: Step)
    ensures AgendamentoIndex(b.agendamentos, id).None? ==> s == Refused(NotFound)
    ensures AgendamentoIndex(b.agendamentos, id).Some? && novaDataHora.None? ==> s == Refused(InvalidDateTime)
    ensures AgendamentoIndex(b.agendamentos, id).Some? && novaDataHora.Some? ==> s.Done?
    ensures s.Done? ==>
      exists k :: 0 <= k < |b.agendamentos| && b.agendamentos[k].id == id
                  && s.after == b.(agendamentos := b.agendamentos[k := b.agendamentos[k].(dataHora := novaDataHora.value)])
  {
    match AgendamentoIndex(b.agendamentos, id)
    case None => Refused(NotFound)
    case Some(k) =>
      match novaDataHora
      case None => Refused(InvalidDateTime)
      case Some(dt) => Done(b.(agendamentos := b.agendamentos[k := b.agendamentos[k].(dataHora := dt)]))
  }

  /** Admin registration of a client; refused when the phone is already registered. */
  function NovoCliente(b: Book, nome: string, telefone: string, email: Option<string>): (s: Step)
    ensures s.Refused? <==> exists j :: 0 <= j < |b.clientes| && b.clientes[j].telefone == telefone
    ensures s.Refused? ==> s.reason == PhoneTaken
    ensures s.Done? ==>
      && s.after.servicos == b.servicos && s.after.agendamentos == b.agendamentos
      && AppendedFresh(b.clientes, s.after.clientes, ClienteId)
      && var novo := s.after.clientes[|b.clientes|];
         novo.nome == nome && novo.telefone == telefone && novo.email == email
         && novo.cortesRealizados == 0 && novo.fidelidadePontos == 0
  {
    if PhoneIndex(b.clientes, telefone).Some? then Refused(PhoneTaken)
    else Done(b.(clientes := b.clientes + [Cliente(NextId(b.clientes, ClienteId), nome, telefone, email, 0, 0)]))
  }

  /** Admin adds a service; refused when the price does not parse. Its duration takes the
      column default. */
  function NovoServico(b: Book, nome: string, preco: Option<real>): (s: Step)
    ensures s.Refused? <==> preco.None?
    ensures s.Refused? ==> s.reason == InvalidPrice
    ensures s.Done? ==>
      && s.after.clientes == b.clientes && s.after.agendamentos == b.agendamentos
      && AppendedFresh(b.servicos, s.after.servicos, ServicoId)
      && var novo := s.after.servicos[|b.servicos|];
         novo.nome == nome && novo.preco == preco.value && novo.duracao == DURACAO_PADRAO
  {
    match preco
    case None => Refused(InvalidPrice)
    case Some(p) => Done(b.(servicos := b.servicos + [Servico(NextId(b.servicos, ServicoId), nome, p, DURACAO_PADRAO)]))
  }

  /** Admin deletes a service; refused while any appointment refers to it. */
  function ExcluirServico(b: Book, id: nat): (s: Step)
    ensures s.Refused? ==> s.reason in {NotFound, ServiceInUse}
    ensures (forall j :: 0 <= j < |b.servicos| ==> b.servicos[j].id != id) ==> s == Refused(NotFound)
    ensures s.Refused? <==>
      (forall j :: 0 <= j < |b.servicos| ==> b.servicos[j].id != id)
      || (exists j :: 0 <= j < |b.agendamentos| && b.agendamentos[j].servicoId == id)
    ensures ((exists j :: 0 <= j < |b.servicos| && b.servicos[j].id == id) && ServiceReferenced(b.agendamentos, id))
      ==> s == Refused(ServiceInUse)
    ensures s.Done? ==>
      && (exists j :: 0 <= j < |b.servicos| && b.servicos[j].id == id)
      && s.after.clientes == b.clientes && s.after.agendamentos == b.agendamentos
      && forall x :: x in s.after.servicos <==> x in b.servicos && x.id != id
  {
    if ServicoIndex(b.servicos, id).None? then Refused(NotFound)
    else if ServiceReferenced(b.agendamentos, id) then Refused(ServiceInUse)
    else Done(b.(servicos := ServicosSem(b.servicos, id)))
  }

  /** Admin deletes a client together with all of that client's appointments. */
  function ExcluirCliente(b: Book, id: nat): (s: Step)
    ensures s.Refused? <==> forall j :: 0 <= j < |b.clientes| ==> b.clientes[j].id != id
    ensures s.Refused? ==> s.reason == NotFound
    ensures s.Done? ==>
      && s.after.servicos == b.servicos
      && (forall c :: c in s.after.clientes <==> c in b.clientes && c.id != id)
      && (forall a :: a in s.after.agendamentos <==> a in b.agendamentos && a.clienteId != id)
  {
    if ClienteIndex(b.clientes, id).None? then Refused(NotFound)
    else Done(b.(clientes := ClientesSem(b.clientes, id),
                 agendamentos := AgendamentosSemCliente(b.agendamentos, id)))
  }
}
