/** The database as mutable state: one object holding the three tables, and one method per
    request handler that changes the tables in place. Each method is proved to commit exactly
    what the corresponding function of module Transitions describes, and to keep Valid(). */
module Store {
  import opened Wrappers
  import opened Records
  import opened Queries
  import Transitions
  import opened Properties

  class Database {
    var clientes: seq<Cliente>
    var servicos: seq<Servico>
    var agendamentos: seq<Agendamento>

    function View(): Transitions.Book
      reads this
    {
      Transitions.Book(clientes, servicos, agendamentos)
    }

    ghost predicate Valid()
      reads this
    {
      Transitions.Valid(View())
    }

    /** Empty tables (the seeding done at start-up is not modelled). */
    constructor ()
      ensures Valid() && View() == Transitions.Book([], [], [])
    {
      clientes, servicos, agendamentos := [], [], [];
    }

    method AgendarCliente(nome: string, telefone: string, servicoId: nat, dataHora: Option<DateTime>)
      returns (refusal: Option<Transitions.Error>)
      requires Valid()
      modifies this
      ensures Valid()
      ensures View() == Transitions.AgendarCliente(old(View()), nome, telefone, servicoId, dataHora).Then(old(View()))
      ensures refusal == Transitions.AgendarCliente(old(View()), nome, telefone, servicoId, dataHora).Refusal()
    {
      AgendarClienteKeepsValid(View(), nome, telefone, servicoId, dataHora);
      if dataHora.None? {
        return Some(Transitions.InvalidDateTime);
      }
      var dt := dataHora.value;
      if NameClash(clientes, nome, telefone) {
        return Some(Transitions.NameTaken);
      }
      if HasConflict(agendamentos, dt) {
        return Some(Transitions.SlotTaken);
      }
      var clienteId: nat;
      match PhoneIndex(clientes, telefone) {
        case Some(k) =>
          clienteId := clientes[k].id;
        case None =>
          clienteId := NextId(clientes, ClienteId);
          clientes := clientes + [Cliente(clienteId, nome, telefone, None, 0, 0)];
      }
      agendamentos := agendamentos + [Agendamento(NextId(agendamentos, AgendamentoId), dt, clienteId, servicoId, Pendente)];
      refusal := None;
    }

    method CancelarAgendamentoCliente(id: nat, clienteLogado: nat) returns (refusal: Option<Transitions.Error>)
      requires Valid()
      modifies this
      ensures Valid()
      ensures View() == Transitions.CancelarAgendamentoCliente(old(View()), id, clienteLogado).Then(old(View()))
      ensures refusal == Transitions.CancelarAgendamentoCliente(old(View()), id, clienteLogado).Refusal()
    {
      CancelarAgendamentoClienteKeepsValid(View(), id, clienteLogado);
      var k := AgendamentoIndex(agendamentos, id);
      if k.None? {
        return Some(Transitions.NotFound);
      }
      var a := agendamentos[k.value];
      if a.clienteId != clienteLogado {
        return Some(Transitions.AccessDenied);
      }
      if ClientMayCancel(a.status) {
        agendamentos := agendamentos[k.value := a.(status := Cancelado)];
        refusal := None;
      } else {
        refusal := Some(Transitions.NotCancellable);
      }
    }

    method ConfirmarAgendamento(id: nat) returns (refusal: Option<Transitions.Error>)
      requires Valid()
      modifies this
      ensures Valid()
      ensures View() == Transitions.ConfirmarAgendamento(old(View()), id).Then(old(View()))
      ensures refusal == Transitions.ConfirmarAgendamento(old(View()), id).Refusal()
    {
      SetStatusKeepsValid(View(), id, Confirmado);
      var k := AgendamentoIndex(agendamentos, id);
      if k.None? {
        return Some(Transitions.NotFound);
      }
      agendamentos := agendamentos[k.value := agendamentos[k.value].(status := Confirmado)];
      refusal := None;
    }

    method ConcluirAgendamento(id: nat) returns (refusal: Option<Transitions.Error>)
      requires Valid()
      modifies this
      ensures Valid()
      ensures View() == Transitions.ConcluirAgendamento(old(View()), id).Then(old(View()))
      ensures refusal == Transitions.ConcluirAgendamento(old(View()), id).Refusal()
    {
      ConcluirAgendamentoKeepsValid(View(), id);
      var k := AgendamentoIndex(agendamentos, id);
      if k.None? {
        return Some(Transitions.NotFound);
      }
      var a := agendamentos[k.value];
      if a.status != Concluido {
        var antes := agendamentos;
        agendamentos := agendamentos[k.value := a.(status := Concluido)];
        var i := ClienteIndex(clientes, a.clienteId);
        if i.None? {
          // the failed request is rolled back: the status change is not committed
          agendamentos := antes;
          return Some(Transitions.ClientMissing);
        }
        var c := clientes[i.value];
        clientes := clientes[i.value := c.(cortesRealizados := c.cortesRealizados + 1,
                                           fidelidadePontos := NextLoyalty(c.fidelidadePontos))];
      }
      refusal := None;
    }

    method CancelarAgendamentoAdmin(id: nat) returns (refusal: Option<Transitions.Error>)
      requires Valid()
      modifies this
      ensures Valid()
      ensures View() == Transitions.CancelarAgendamentoAdmin(old(View()), id).Then(old(View()))
      ensures refusal == Transitions.CancelarAgendamentoAdmin(old(View()), id).Refusal()
    {
      SetStatusKeepsValid(View(), id, Cancelado);
      var k := AgendamentoIndex(agendamentos, id);
      if k.None? {
        return Some(Transitions.NotFound);
      }
      agendamentos := agendamentos[k.value := agendamentos[k.value].(status := Cancelado)];
      refusal := None;
    }

    method NovoAgendamento(clienteId: nat, servicoId: nat, dataHora: Option<DateTime>)
      returns (refusal: Option<Transitions.Error>)
      requires Valid()
      modifies this
      ensures Valid()
      ensures View() == Transitions.NovoAgendamento(old(View()), clienteId, servicoId, dataHora).Then(old(View()))
      ensures refusal == Transitions.NovoAgendamento(old(View()), clienteId, servicoId, dataHora).Refusal()
    {
      NovoAgendamentoKeepsValid(View(), clienteId, servicoId, dataHora);
      if dataHora.None? {
        return Some(Transitions.InvalidDateTime);
      }
      agendamentos := agendamentos + [Agendamento(NextId(agendamentos, AgendamentoId), dataHora.value, clienteId, servicoId, Confirmado)];
      refusal := None;
    }

    method AlterarDataAgendamento(id: nat, novaDataHora: Option<DateTime>) returns (refusal: Option<Transitions.Error>)
      requires Valid()
      modifies this
      ensures Valid()
      ensures View() == Transitions.AlterarDataAgendamento(old(View()), id, novaDataHora).Then(old(View()))
      ensures refusal == Transitions.AlterarDataAgendamento(old(View()), id, novaDataHora).Refusal()
    {
      AlterarDataAgendamentoKeepsValid(View(), id, novaDataHora);
      var k := AgendamentoIndex(agendamentos, id);
      if k.None? {
        return Some(Transitions.NotFound);
      }
      if novaDataHora.None? {
        return Some(Transitions.InvalidDateTime);
      }
      agendamentos := agendamentos[k.value := agendamentos[k.value].(dataHora := novaDataHora.value)];
      refusal := None;
    }

    method NovoCliente(nome: string, telefone: string, email: Option<string>) returns (refusal: Option<Transitions.Error>)
      requires Valid()
      modifies this
      ensures Valid()
      ensures View() == Transitions.NovoCliente(old(View()), nome, telefone, email).Then(old(View()))
      ensures refusal == Transitions.NovoCliente(old(View()), nome, telefone, email).Refusal()
    {
      NovoClienteKeepsValid(View(), nome, telefone, email);
      if PhoneIndex(clientes, telefone).Some? {
        return Some(Transitions.PhoneTaken);
      }
      clientes := clientes + [Cliente(NextId(clientes, ClienteId), nome, telefone, email, 0, 0)];
      refusal := None;
    }

    method NovoServico(nome: string, preco: Option<real>) returns (refusal: Option<Transitions.Error>)
      requires Valid()
      modifies this
      ensures Valid()
      ensures View() == Transitions.NovoServico(old(View()), nome, preco).Then(old(View()))
      ensures refusal == Transitions.NovoServico(old(View()), nome, preco).Refusal()
    {
      NovoServicoKeepsValid(View(), nome, preco);
      if preco.None? {
        return Some(Transitions.InvalidPrice);
      }
      servicos := servicos + [Servico(NextId(servicos, ServicoId), nome, preco.value, DURACAO_PADRAO)];
      refusal := None;
    }

    method ExcluirServico(id: nat) returns (refusal: Option<Transitions.Error>)
      requires Valid()
      modifies this
      ensures Valid()
      ensures View() == Transitions.ExcluirServico(old(View()), id).Then(old(View()))
      ensures refusal == Transitions.ExcluirServico(old(View()), id).Refusal()
    {
      ExcluirServicoKeepsValid(View(), id);
      if ServicoIndex(servicos, id).None? {
        return Some(Transitions.NotFound);
      }
      if ServiceReferenced(agendamentos, id) {
        return Some(Transitions.ServiceInUse);
      }
      servicos := ServicosSem(servicos, id);
      refusal := None;
    }

    method ExcluirCliente(id: nat) returns (refusal: Option<Transitions.Error>)
      requires Valid()
      modifies this
      ensures Valid()
      ensures View() == Transitions.ExcluirCliente(old(View()), id).Then(old(View()))
      ensures refusal == Transitions.ExcluirCliente(old(View()), id).Refusal()
    {
      ExcluirClienteKeepsValid(View(), id);
      if ClienteIndex(clientes, id).None? {
        return Some(Transitions.NotFound);
      }
      agendamentos := AgendamentosSemCliente(agendamentos, id);
      clientes := ClientesSem(clientes, id);
      refusal := None;
    }
  }
}
