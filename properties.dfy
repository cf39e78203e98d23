/** Properties of the appointment book that relate several requests or hold across all of
    them: every handler keeps the integrity constraints, self-booking never double-books,
    the admin paths can, conclude is idempotent, and the loyalty counter cycles through 0..10. */
module Properties {
  import opened Wrappers
  import opened Records
  import opened Queries
  import opened Transitions

  // ----- Row lookups are unaffected by updates that keep primary keys -----

  lemma AgendamentoIndexKeepsAcrossUpdate(ags: seq<Agendamento>, k: nat, a: Agendamento, id: nat)
    requires k < |ags| && a.id == ags[k].id
    ensures AgendamentoIndex(ags[k := a], id) == AgendamentoIndex(ags, id)
  {
    var ags' := ags[k := a];
    assert forall j :: 0 <= j < |ags| ==> ags'[j].id == ags[j].id;
    var r, r' := AgendamentoIndex(ags, id), AgendamentoIndex(ags', id);
    if r.Some? && r'.Some? {
      assert !(r.value < r'.value) && !(r'.value < r.value);
    }
  }

  // ----- Every handler keeps the integrity constraints -----

  lemma AgendarClienteKeepsValid(b: Book, nome: string, telefone: string, servicoId: nat, dataHora: Option<DateTime>)
    requires Valid(b)
    ensures Valid(AgendarCliente(b, nome, telefone, servicoId, dataHora).Then(b))
  {
    var s := AgendarCliente(b, nome, telefone, servicoId, dataHora);
    if s.Done? {
      var after := s.after;
      var novo := after.agendamentos[|b.agendamentos|];
      assert after.agendamentos == b.agendamentos + [novo];
      UniqueByAppend(b.agendamentos, novo, AgendamentoId);
      if !exists k :: 0 <= k < |b.clientes| && b.clientes[k].telefone == telefone {
        var c := after.clientes[|b.clientes|];
        assert after.clientes == b.clientes + [c];
        UniqueByAppend(b.clientes, c, ClienteId);
        UniqueByAppend(b.clientes, c, Telefone);
      }
    }
  }

  lemma SetStatusKeepsValid(b: Book, id: nat, st: Status)
    requires Valid(b)
    ensures Valid(SetStatus(b, id, st).Then(b))
  {
    var s := SetStatus(b, id, st);
    if s.Done? {
      var k :| StatusSet(b, s.after, k, st) && b.agendamentos[k].id == id;
      UniqueByUpdate(b.agendamentos, k, b.agendamentos[k].(status := st), AgendamentoId);
    }
  }

  lemma CancelarAgendamentoClienteKeepsValid(b: Book, id: nat, clienteLogado: nat)
    requires Valid(b)
    ensures Valid(CancelarAgendamentoCliente(b, id, clienteLogado).Then(b))
  {
    var s := CancelarAgendamentoCliente(b, id, clienteLogado);
    if s.Done? {
      var k :| StatusSet(b, s.after, k, Cancelado) && b.agendamentos[k].id == id;
      UniqueByUpdate(b.agendamentos, k, b.agendamentos[k].(status := Cancelado), AgendamentoId);
    }
  }

  lemma ConcluirAgendamentoKeepsValid(b: Book, id: nat)
    requires Valid(b)
    ensures Valid(ConcluirAgendamento(b, id).Then(b))
  {
    var s := ConcluirAgendamento(b, id);
    match AgendamentoIndex(b.agendamentos, id)
    case None =>
    case Some(k) =>
      if b.agendamentos[k].status != Concluido {
        match ClienteIndex(b.clientes, b.agendamentos[k].clienteId)
        case None =>
        case Some(i) =>
          var c := b.clientes[i];
          var c' := s.after.clientes[i];
          assert s.after.clientes == b.clientes[i := c'];
          UniqueByUpdate(b.agendamentos, k, b.agendamentos[k].(status := Concluido), AgendamentoId);
          UniqueByUpdate(b.clientes, i, c', ClienteId);
          UniqueByUpdate(b.clientes, i, c', Telefone);
          assert c in b.clientes;
      }
  }

  lemma NovoAgendamentoKeepsValid(b: Book, clienteId: nat, servicoId: nat, dataHora: Option<DateTime>)
    requires Valid(b)
    ensures Valid(NovoAgendamento(b, clienteId, servicoId, dataHora).Then(b))
  {
    var s := NovoAgendamento(b, clienteId, servicoId, dataHora);
    if s.Done? {
      var novo := s.after.agendamentos[|b.agendamentos|];
      assert s.after.agendamentos == b.agendamentos + [novo];
      UniqueByAppend(b.agendamentos, novo, AgendamentoId);
    }
  }

  lemma AlterarDataAgendamentoKeepsValid(b: Book, id: nat, novaDataHora: Option<DateTime>)
    requires Valid(b)
    ensures Valid(AlterarDataAgendamento(b, id, novaDataHora).Then(b))
  {
    var s := AlterarDataAgendamento(b, id, novaDataHora);
    if s.Done? {
      var k :| 0 <= k < |b.agendamentos| && b.agendamentos[k].id == id
               && s.after == b.(agendamentos := b.agendamentos[k := b.agendamentos[k].(dataHora := novaDataHora.value)]);
      UniqueByUpdate(b.agendamentos, k, b.agendamentos[k].(dataHora := novaDataHora.value), AgendamentoId);
    }
  }

  lemma NovoClienteKeepsValid(b: Book, nome: string, telefone: string, email: Option<string>)
    requires Valid(b)
    ensures Valid(NovoCliente(b, nome, telefone, email).Then(b))
  {
    var s := NovoCliente(b, nome, telefone, email);
    if s.Done? {
      var c := s.after.clientes[|b.clientes|];
      assert s.after.clientes == b.clientes + [c];
      UniqueByAppend(b.clientes, c, ClienteId);
      UniqueByAppend(b.clientes, c, Telefone);
    }
  }

  lemma NovoServicoKeepsValid(b: Book, nome: string, preco: Option<real>)
    requires Valid(b)
    ensures Valid(NovoServico(b, nome, preco).Then(b))
  {
    var s := NovoServico(b, nome, preco);
    if s.Done? {
      var x := s.after.servicos[|b.servicos|];
      assert s.after.servicos == b.servicos + [x];
      UniqueByAppend(b.servicos, x, ServicoId);
    }
  }

  lemma ExcluirServicoKeepsValid(b: Book, id: nat)
    requires Valid(b)
    ensures Valid(ExcluirServico(b, id).Then(b))
  {
    FilterKeepsUnique(b.servicos, (x: Servico) => x.id != id, ServicoId);
  }

  lemma ExcluirClienteKeepsValid(b: Book, id: nat)
    requires Valid(b)
    ensures Valid(ExcluirCliente(b, id).Then(b))
  {
    FilterKeepsUnique(b.clientes, (c: Cliente) => c.id != id, ClienteId);
    FilterKeepsUnique(b.clientes, (c: Cliente) => c.id != id, Telefone);
    FilterKeepsUnique(b.agendamentos, (a: Agendamento) => a.clienteId != id, AgendamentoId);
  }

  // ----- Double booking -----

  /** After a successful self-booking the new appointment is the only one holding its slot. */
  lemma SelfBookingHoldsSlotAlone(b: Book, nome: string, telefone: string, servicoId: nat, dt: DateTime)
    requires AgendarCliente(b, nome, telefone, servicoId, Some(dt)).Done?
    ensures var after := AgendarCliente(b, nome, telefone, servicoId, Some(dt)).after;
      && HasConflict(after.agendamentos, dt)
      && forall j :: (0 <= j < |after.agendamentos| && after.agendamentos[j].dataHora == dt
                      && Occupies(after.agendamentos[j].status)) ==> j == |b.agendamentos|
  {
    var after := AgendarCliente(b, nome, telefone, servicoId, Some(dt)).after;
    var n := |b.agendamentos|;
    assert !HasConflict(b.agendamentos, dt);
    forall j | 0 <= j < n ensures after.agendamentos[j] == b.agendamentos[j] {
      assert after.agendamentos[..n][j] == b.agendamentos[j];
    }
  }

  /** Admin creation skips the conflict rule: a slot held by a Pendente appointment can be
      given a second, Confirmado, appointment. */
  lemma AdminCreateCanDoubleBook()
    ensures
      var dt := DateTime(Date(2024, 5, 10), Time(14, 30));
      var b := Book([Cliente(1, "Ana", "11999990000", None, 0, 0)], [Servico(1, "Corte", 35.0, DURACAO_PADRAO)],
                    [Agendamento(1, dt, 1, 1, Pendente)]);
      var after := NovoAgendamento(b, 1, 1, Some(dt)).Then(b);
      && Valid(b) && HasConflict(b.agendamentos, dt)
      && |after.agendamentos| == 2
      && after.agendamentos[0].dataHora == dt && Occupies(after.agendamentos[0].status)
      && after.agendamentos[1].dataHora == dt && Occupies(after.agendamentos[1].status)
  {
  }

  /** Rescheduling skips the conflict rule too: an appointment can be moved onto a held slot. */
  lemma RescheduleCanDoubleBook()
    ensures
      var dt := DateTime(Date(2024, 5, 10), Time(14, 30));
      var other := DateTime(Date(2024, 5, 10), Time(15, 0));
      var b := Book([Cliente(1, "Ana", "11999990000", None, 0, 0)], [Servico(1, "Corte", 35.0, DURACAO_PADRAO)],
                    [Agendamento(1, dt, 1, 1, Pendente), Agendamento(2, other, 1, 1, Confirmado)]);
      var after := AlterarDataAgendamento(b, 2, Some(dt)).Then(b);
      && Valid(b)
      && after.agendamentos[0].dataHora == dt && Occupies(after.agendamentos[0].status)
      && after.agendamentos[1].dataHora == dt && Occupies(after.agendamentos[1].status)
  {
  }

  /** Admin confirm reopens a cancelled appointment without the conflict rule: once its slot has
      been self-booked again, confirming it double-books the slot. */
  lemma ConfirmCanDoubleBook()
    ensures
      var dt := DateTime(Date(2024, 5, 10), Time(14, 30));
      var b := Book([Cliente(1, "Ana", "11999990000", None, 0, 0), Cliente(2, "Bruno", "11988880000", None, 0, 0)],
                    [Servico(1, "Corte", 35.0, DURACAO_PADRAO)],
                    [Agendamento(1, dt, 1, 1, Cancelado), Agendamento(2, dt, 2, 1, Pendente)]);
      var after := ConfirmarAgendamento(b, 1).Then(b);
      && Valid(b)
      && after.agendamentos[0].dataHora == dt && Occupies(after.agendamentos[0].status)
      && after.agendamentos[1].dataHora == dt && Occupies(after.agendamentos[1].status)
  {
  }

  /** Cancelled appointments never block: cancelling the one appointment holding a slot frees it. */
  lemma AdminCancelFreesSlot(b: Book, k: nat, dt: DateTime)
    requires Valid(b)
    requires k < |b.agendamentos|
    requires forall j :: 0 <= j < |b.agendamentos| && j != k && b.agendamentos[j].dataHora == dt
                         ==> !Occupies(b.agendamentos[j].status)
    ensures !HasConflict(CancelarAgendamentoAdmin(b, b.agendamentos[k].id).Then(b).agendamentos, dt)
  {
    var s := CancelarAgendamentoAdmin(b, b.agendamentos[k].id);
    var m :| StatusSet(b, s.after, m, Cancelado) && b.agendamentos[m].id == b.agendamentos[k].id;
    assert m == k;
  }

  // ----- Conclude and the loyalty counter -----

  /** Concluding twice is the same as concluding once. */
  lemma ConcluirAgendamentoIdempotent(b: Book, id: nat)
    ensures var once := ConcluirAgendamento(b, id).Then(b);
      ConcluirAgendamento(once, id).Then(once) == once
  {
    var s := ConcluirAgendamento(b, id);
    match AgendamentoIndex(b.agendamentos, id)
    case None =>
    case Some(k) =>
      if s.Done? && b.agendamentos[k].status != Concluido {
        var a' := b.agendamentos[k].(status := Concluido);
        AgendamentoIndexKeepsAcrossUpdate(b.agendamentos, k, a', id);
        assert s.after.agendamentos == b.agendamentos[k := a'];
      }
  }

  /** Concluding a not-yet-completed appointment credits its client with one cut and moves
      the loyalty points one step round the cycle 0, 1, ..., 10, 0; nothing else changes. */
  lemma ConcluirCreditsClient(b: Book, id: nat, k: nat, i: nat)
    requires Valid(b)
    requires k < |b.agendamentos| && b.agendamentos[k].id == id && b.agendamentos[k].status != Concluido
    requires i < |b.clientes| && b.clientes[i].id == b.agendamentos[k].clienteId
    ensures var after := ConcluirAgendamento(b, id).Then(b);
      && after.servicos == b.servicos
      && after.agendamentos == b.agendamentos[k := b.agendamentos[k].(status := Concluido)]
      && |after.clientes| == |b.clientes|
      && (forall j :: 0 <= j < |b.clientes| && j != i ==> after.clientes[j] == b.clientes[j])
      && after.clientes[i].id == b.clientes[i].id
      && after.clientes[i].cortesRealizados == b.clientes[i].cortesRealizados + 1
      && after.clientes[i].fidelidadePontos == (b.clientes[i].fidelidadePontos + 1) % PONTOS_BRINDE
  {
    assert AgendamentoIndex(b.agendamentos, id) == Some(k);
    assert ClienteIndex(b.clientes, b.agendamentos[k].clienteId) == Some(i);
    assert b.clientes[i] in b.clientes;
  }

  /** Admin confirm and admin cancel set the status of the appointment with that id and
      leave the rest of the book as it was. */
  lemma SetStatusAt(b: Book, k: nat, st: Status)
    requires Valid(b)
    requires k < |b.agendamentos|
    ensures SetStatus(b, b.agendamentos[k].id, st).Then(b)
            == b.(agendamentos := b.agendamentos[k := b.agendamentos[k].(status := st)])
  {
    assert AgendamentoIndex(b.agendamentos, b.agendamentos[k].id) == Some(k);
  }

  /** The loyalty points after `n` completed appointments of a new client. */
  function LoyaltyAfter(n: nat): int {
    if n == 0 then 0 else NextLoyalty(LoyaltyAfter(n - 1))
  }

  /** The points of a new client after `n` completions are n mod 11, so they wrap to zero
      (and a free cut is announced) exactly on every eleventh completion. */
  lemma {:induction false} LoyaltyCycle(n: nat)
    ensures LoyaltyAfter(n) == n % PONTOS_BRINDE
    ensures n > 0 ==> (LoyaltyAfter(n) == 0 <==> n % PONTOS_BRINDE == 0)
  {
    if n > 0 {
      LoyaltyCycle(n - 1);
    }
  }

  /** An admin cancel followed by conclude credits the client of a completed appointment again. */
  lemma CancelThenConcludeCredits(b1: Book, id: nat, k: nat, i: nat)
    requires Valid(b1)
    requires k < |b1.agendamentos| && b1.agendamentos[k].id == id
    requires i < |b1.clientes| && b1.clientes[i].id == b1.agendamentos[k].clienteId
    ensures var b2 := CancelarAgendamentoAdmin(b1, id).Then(b1);
      var b3 := ConcluirAgendamento(b2, id).Then(b2);
      i < |b3.clientes| && b3.clientes[i].cortesRealizados == b1.clientes[i].cortesRealizados + 1
  {
    var b2 := CancelarAgendamentoAdmin(b1, id).Then(b1);
    SetStatusAt(b1, k, Cancelado);
    SetStatusKeepsValid(b1, id, Cancelado);
    ConcluirCreditsClient(b2, id, k, i);
  }

  /** Conclude is one-shot only while the status stays Concluido: after an admin cancel
      reopens the appointment, concluding it again credits the client a second time. */
  lemma ReopenedAppointmentCreditedTwice(b: Book, id: nat, k: nat, i: nat)
    requires Valid(b)
    requires k < |b.agendamentos| && b.agendamentos[k].id == id && b.agendamentos[k].status != Concluido
    requires i < |b.clientes| && b.clientes[i].id == b.agendamentos[k].clienteId
    ensures var b1 := ConcluirAgendamento(b, id).Then(b);
      var b2 := CancelarAgendamentoAdmin(b1, id).Then(b1);
      var b3 := ConcluirAgendamento(b2, id).Then(b2);
      i < |b3.clientes| && b3.clientes[i].cortesRealizados == b.clientes[i].cortesRealizados + 2
  {
    var b1 := ConcluirAgendamento(b, id).Then(b);
    assert && Valid(b1)
           && k < |b1.agendamentos| && b1.agendamentos[k].id == id
           && i < |b1.clientes| && b1.clientes[i].id == b1.agendamentos[k].clienteId
           && b1.clientes[i].cortesRealizados == b.clientes[i].cortesRealizados + 1
    by {
      ConcluirAgendamentoKeepsValid(b, id);
      ConcluirCreditsClient(b, id, k, i);
    }
    CancelThenConcludeCredits(b1, id, k, i);
  }
}
