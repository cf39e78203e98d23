/** The table queries the handlers run: first-row lookups, filters, the next row id,
    the slot-conflict and name/phone checks, and the occupied-slots listing. */
module Queries {
  import opened Wrappers
  import opened Records

  /** Index of the first element satisfying `p`, as a query's first row. */
  function Find<T>(s: seq<T>, p: T -> bool): (r: Option<nat>)
    ensures r.Some? ==> r.value < |s| && p(s[r.value])
    ensures r.Some? ==> forall j :: 0 <= j < r.value ==> !p(s[j])
    ensures r.None? <==> forall j :: 0 <= j < |s| ==> !p(s[j])
  {
    if s == [] then None
    else if p(s[0]) then Some(0)
    else match Find(s[1..], p)
      case None => None
      case Some(k) => Some(k + 1)
  }

  /** The rows of `s` that satisfy `keep`, in table order (a bulk filter or delete). */
  function Filter<T(!new)>(s: seq<T>, keep: T -> bool): (r: seq<T>)
    ensures |r| <= |s|
    ensures forall x :: x in r <==> x in s && keep(x)
    ensures (forall j :: 0 <= j < |s| ==> keep(s[j])) ==> r == s
  {
    if s == [] then []
    else if keep(s[0]) then [s[0]] + Filter(s[1..], keep)
    else Filter(s[1..], keep)
  }

  /** A filter keeps each kept row as often as the table holds it and drops every other row. */
  lemma {:induction false} FilterCounts<T(!new)>(s: seq<T>, keep: T -> bool)
    ensures forall x :: multiset(Filter(s, keep))[x] == if keep(x) then multiset(s)[x] else 0
  {
    if s != [] {
      FilterCounts(s[1..], keep);
      assert s == [s[0]] + s[1..];
    }
  }

  /** No two rows share a key (a primary key or a unique column). */
  ghost predicate UniqueBy<T, K>(s: seq<T>, key: T -> K) {
    forall i, j :: 0 <= i < j < |s| ==> key(s[i]) != key(s[j])
  }

  lemma {:induction false} FilterKeepsUnique<T(!new), K>(s: seq<T>, keep: T -> bool, key: T -> K)
    requires UniqueBy(s, key)
    ensures UniqueBy(Filter(s, keep), key)
  {
    if s != [] {
      assert UniqueBy(s[1..], key);
      FilterKeepsUnique(s[1..], keep, key);
      var rest := Filter(s[1..], keep);
      if keep(s[0]) {
        forall x | x in rest ensures key(x) != key(s[0]) {
          var j :| 0 <= j < |s[1..]| && s[1..][j] == x;
          assert s[j + 1] == x;
        }
        assert Filter(s, keep) == [s[0]] + rest;
      }
    }
  }

  lemma UniqueByAppend<T, K>(s: seq<T>, x: T, key: T -> K)
    requires UniqueBy(s, key)
    requires forall j :: 0 <= j < |s| ==> key(s[j]) != key(x)
    ensures UniqueBy(s + [x], key)
  {
  }

  lemma UniqueByUpdate<T, K>(s: seq<T>, k: nat, x: T, key: T -> K)
    requires k < |s| && key(x) == key(s[k])
    requires UniqueBy(s, key)
    ensures UniqueBy(s[k := x], key)
  {
  }

  /** The id the database gives the next inserted row: one more than the largest id in
      the table, or 1 when the table is empty. */
  function NextId<T>(s: seq<T>, key: T -> nat): (r: nat)
    ensures r >= 1
    ensures forall j :: 0 <= j < |s| ==> key(s[j]) < r
    ensures r == 1 || exists j :: 0 <= j < |s| && key(s[j]) + 1 == r
  {
    if s == [] then 1
    else
      var rest := NextId(s[1..], key);
      if key(s[0]) + 1 >= rest then key(s[0]) + 1
      else
        assert exists j :: 0 <= j < |s[1..]| && key(s[1..][j]) + 1 == rest;
        var j :| 0 <= j < |s[1..]| && key(s[1..][j]) + 1 == rest;
        assert key(s[j + 1]) + 1 == rest;
        rest
  }

  /** The client row with primary key `id`. */
  function ClienteIndex(cs: seq<Cliente>, id: nat): (r: Option<nat>)
    ensures r.Some? ==> r.value < |cs| && cs[r.value].id == id
    ensures r.Some? ==> forall j :: 0 <= j < r.value ==> cs[j].id != id
    ensures r.None? <==> forall j :: 0 <= j < |cs| ==> cs[j].id != id
  {
    Find(cs, (c: Cliente) => c.id == id)
  }

  /** The client row with the given phone number. */
  function PhoneIndex(cs: seq<Cliente>, telefone: string): (r: Option<nat>)
    ensures r.Some? ==> r.value < |cs| && cs[r.value].telefone == telefone
    ensures r.None? <==> forall j :: 0 <= j < |cs| ==> cs[j].telefone != telefone
  {
    Find(cs, (c: Cliente) => c.telefone == telefone)
  }

  /** The service row with primary key `id`. */
  function ServicoIndex(ss: seq<Servico>, id: nat): (r: Option<nat>)
    ensures r.Some? ==> r.value < |ss| && ss[r.value].id == id
    ensures r.None? <==> forall j :: 0 <= j < |ss| ==> ss[j].id != id
  {
    Find(ss, (s: Servico) => s.id == id)
  }

  /** The appointment row with primary key `id`. */
  function AgendamentoIndex(ags: seq<Agendamento>, id: nat): (r: Option<nat>)
    ensures r.Some? ==> r.value < |ags| && ags[r.value].id == id
    ensures r.Some? ==> forall j :: 0 <= j < r.value ==> ags[j].id != id
    ensures r.None? <==> forall j :: 0 <= j < |ags| ==> ags[j].id != id
  {
    Find(ags, (a: Agendamento) => a.id == id)
  }

  /** The slot-conflict query: some appointment at exactly this timestamp holds the slot.
      Cancelled appointments never block. */
  function HasConflict(ags: seq<Agendamento>, dt: DateTime): (r: bool)
    ensures r <==> exists j :: 0 <= j < |ags| && ags[j].dataHora == dt && Occupies(ags[j].status)
  {
    Find(ags, (a: Agendamento) => a.dataHora == dt && Occupies(a.status)).Some?
  }

  /** Whether any appointment refers to the service `id`. */
  function ServiceReferenced(ags: seq<Agendamento>, id: nat): (r: bool)
    ensures r <==> exists j :: 0 <= j < |ags| && ags[j].servicoId == id
  {
    Find(ags, (a: Agendamento) => a.servicoId == id).Some?
  }

  /** The self-booking name rule: a client already carries the typed name, and either no
      client has the typed phone or the phone's client has another name. */
  function NameClash(cs: seq<Cliente>, nome: string, telefone: string): (r: bool)
    ensures UniqueBy(cs, Telefone) ==>
      (r <==> (exists j :: 0 <= j < |cs| && cs[j].nome == nome)
              && forall j :: 0 <= j < |cs| && cs[j].telefone == telefone ==> cs[j].nome != nome)
  {
    Find(cs, (c: Cliente) => c.nome == nome).Some? &&
    match PhoneIndex(cs, telefone)
    case None => true
    case Some(k) => cs[k].nome != nome
  }

  /** The appointments remaining after a client's appointments are bulk-deleted. */
  function AgendamentosSemCliente(ags: seq<Agendamento>, clienteId: nat): (r: seq<Agendamento>)
    ensures forall a :: a in r <==> a in ags && a.clienteId != clienteId
  {
    Filter(ags, (a: Agendamento) => a.clienteId != clienteId)
  }

  /** The client rows remaining after the row with primary key `id` is deleted. */
  function ClientesSem(cs: seq<Cliente>, id: nat): (r: seq<Cliente>)
    ensures forall c :: c in r <==> c in cs && c.id != id
  {
    Filter(cs, (c: Cliente) => c.id != id)
  }

  /** The service rows remaining after the row with primary key `id` is deleted. */
  function ServicosSem(ss: seq<Servico>, id: nat): (r: seq<Servico>)
    ensures forall s :: s in r <==> s in ss && s.id != id
  {
    Filter(ss, (s: Servico) => s.id != id)
  }

  /** An appointment holds a slot on day `d`. */
  predicate OccupiesOn(a: Agendamento, d: Date) {
    a.dataHora.date == d && Occupies(a.status)
  }

  /** The appointments on day `d` that hold their slot, in table order. */
  function OccupyingOn(ags: seq<Agendamento>, d: Date): (r: seq<Agendamento>)
    ensures forall a :: a in r <==> a in ags && OccupiesOn(a, d)
    ensures forall a :: multiset(r)[a] == if OccupiesOn(a, d) then multiset(ags)[a] else 0
  {
    var keep := (a: Agendamento) => OccupiesOn(a, d);
    FilterCounts(ags, keep);
    Filter(ags, keep)
  }

  /** The occupied-slots listing: the "HH:MM" times of the appointments on the chosen day
      that hold their slot, one entry per such appointment; an empty list when the day is
      missing or did not parse. */
  function HorariosOcupados(ags: seq<Agendamento>, data: Option<Date>): (r: seq<string>)
    ensures data.None? ==> r == []
    ensures |r| <= |ags|
    ensures data.Some? ==> |r| == |OccupyingOn(ags, data.value)|
    ensures data.Some? ==> forall k :: 0 <= k < |r| ==> r[k] == HoraMinuto(OccupyingOn(ags, data.value)[k].dataHora.time)
    ensures data.Some? ==> forall h :: h in r <==>
      exists j :: 0 <= j < |ags| && OccupiesOn(ags[j], data.value) && HoraMinuto(ags[j].dataHora.time) == h
  {
    match data
    case None => []
    case Some(d) =>
      var hits := OccupyingOn(ags, d);
      var r := seq(|hits|, k requires 0 <= k < |hits| => HoraMinuto(hits[k].dataHora.time));
      ListedTimes(ags, d, hits, r);
      r
  }

  lemma ListedTimes(ags: seq<Agendamento>, d: Date, hits: seq<Agendamento>, r: seq<string>)
    requires forall a :: a in hits <==> a in ags && OccupiesOn(a, d)
    requires |r| == |hits| && forall k :: 0 <= k < |hits| ==> r[k] == HoraMinuto(hits[k].dataHora.time)
    ensures forall h :: h in r <==>
      exists j :: 0 <= j < |ags| && OccupiesOn(ags[j], d) && HoraMinuto(ags[j].dataHora.time) == h
  {
    forall h | h in r
      ensures exists j :: 0 <= j < |ags| && OccupiesOn(ags[j], d) && HoraMinuto(ags[j].dataHora.time) == h
    {
      var k :| 0 <= k < |r| && r[k] == h;
      assert hits[k] in ags;
      var j :| 0 <= j < |ags| && ags[j] == hits[k];
    }
    forall j | 0 <= j < |ags| && OccupiesOn(ags[j], d)
      ensures HoraMinuto(ags[j].dataHora.time) in r
    {
      assert ags[j] in hits;
      var k :| 0 <= k < |hits| && hits[k] == ags[j];
      assert r[k] == HoraMinuto(ags[j].dataHora.time);
    }
  }

  /** What the booking form shows as taken is exactly what self-booking refuses:
      a timestamp conflicts iff its "HH:MM" is listed as occupied on its day. */
  lemma ConflictIffListedOccupied(ags: seq<Agendamento>, dt: DateTime)
    ensures HasConflict(ags, dt) <==> HoraMinuto(dt.time) in HorariosOcupados(ags, Some(dt.date))
  {
    var listed := HorariosOcupados(ags, Some(dt.date));
    if HoraMinuto(dt.time) in listed {
      var j :| 0 <= j < |ags| && OccupiesOn(ags[j], dt.date) && HoraMinuto(ags[j].dataHora.time) == HoraMinuto(dt.time);
      HoraMinutoInjective(ags[j].dataHora.time, dt.time);
      assert ags[j].dataHora == dt;
    }
  }
}
