/** The rows of the barbershop's three tables (clients, services, appointments)
    and the small value computations the handlers make on a single row. */
module Records {
  import opened Wrappers

  /** A calendar day. Timestamps are only compared for equality, never ordered. */
  datatype Date = Date(year: int, month: int, day: int)

  type Hour = h: int | 0 <= h < 24
  type Minute = m: int | 0 <= m < 60

  datatype Time = Time(hour: Hour, minute: Minute)

  /** A parsed form timestamp. The forms have no seconds field, so none is kept. */
  datatype DateTime = DateTime(date: Date, time: Time)

  /** The four labels the status column is ever given. */
  datatype Status = Pendente | Confirmado | Concluido | Cancelado

  /** A client row. `fidelidadePontos` counts completed appointments towards a free cut. */
  datatype Cliente = Cliente(
    id: nat,
    nome: string,
    telefone: string,
    email: Option<string>,
    cortesRealizados: int,
    fidelidadePontos: int)

  /** A service row. The price is a floating-point column, modelled as an exact `real`. */
  datatype Servico = Servico(id: nat, nome: string, preco: real, duracao: int)

  /** An appointment row; the client and service references are not checked by the database. */
  datatype Agendamento = Agendamento(
    id: nat,
    dataHora: DateTime,
    clienteId: nat,
    servicoId: nat,
    status: Status)

  /** Column default for a service's duration, in minutes. */
  const DURACAO_PADRAO := 30

  /** Points at which the loyalty counter wraps back to zero (and a free cut is announced). */
  const PONTOS_BRINDE := 11

  function ClienteId(c: Cliente): nat { c.id }
  function Telefone(c: Cliente): string { c.telefone }
  function ServicoId(s: Servico): nat { s.id }
  function AgendamentoId(a: Agendamento): nat { a.id }

  /** The statuses that hold a time slot: every one except Cancelado. */
  predicate Occupies(s: Status) {
    s.Pendente? || s.Confirmado? || s.Concluido?
  }

  /** The statuses from which a client may still cancel their own appointment. */
  predicate ClientMayCancel(s: Status) {
    s.Pendente? || s.Confirmado?
  }

  /** One step of the loyalty counter on a completed appointment: add one, wrap to zero at 11. */
  function NextLoyalty(p: int): (r: int)
    ensures 0 <= p <= 10 ==> r == (p + 1) % PONTOS_BRINDE
    ensures r == 0 || r == p + 1
  {
    if p + 1 >= PONTOS_BRINDE then 0 else p + 1
  }

  function Digit(d: int): (c: char)
    requires 0 <= d < 10
    ensures '0' <= c <= '9'
  {
    ('0' as int + d) as char
  }

  /** The two-digit, zero-padded "HH:MM" rendering of a time of day. */
  function HoraMinuto(t: Time): (s: string)
    ensures |s| == 5 && s[2] == ':'
    ensures forall k :: 0 <= k < 5 && k != 2 ==> '0' <= s[k] <= '9'
    ensures (s[0] as int - '0' as int) * 10 + (s[1] as int - '0' as int) == t.hour
    ensures (s[3] as int - '0' as int) * 10 + (s[4] as int - '0' as int) == t.minute
  {
    [Digit(t.hour / 10), Digit(t.hour % 10), ':', Digit(t.minute / 10), Digit(t.minute % 10)]
  }

  /** Distinct times render to distinct strings, so the rendered list identifies the slots. */
  lemma HoraMinutoInjective(t: Time, u: Time)
    requires HoraMinuto(t) == HoraMinuto(u)
    ensures t == u
  {
    var s, r := HoraMinuto(t), HoraMinuto(u);
    assert s[0] == r[0] && s[1] == r[1] && s[3] == r[3] && s[4] == r[4];
    assert t.hour / 10 == u.hour / 10 && t.hour % 10 == u.hour % 10;
    assert t.minute / 10 == u.minute / 10 && t.minute % 10 == u.minute % 10;
  }
}
