/**
 * The registration database behind the person and inscription routes:
 * the tables `pessoas`, `cidades`, `cursos`, `sorteios` and `inscricoes`,
 * and one atomic method per handler that reads and writes them.
 */
module Registry {
  import opened Wrappers
  import opened Js
  import opened Query
  import opened Draws

  datatype Person = Person(
    idPessoa: int,
    nome: string,
    cpf: string,
    email: string,
    telefone: Option<string>,
    codMunicipio: int,
    criadoPor: string,
    criadoEm: nat,
    modificadoEm: nat)

  datatype City = City(codMunicipio: int, nome: string, idEstado: int)

  datatype Course = Course(idCurso: int, nome: string)

  datatype Inscricao = Inscricao(
    idInscricao: int,
    idSorteio: int,
    idPessoa: int,
    idCurso: int,
    dtInscricao: nat,
    criadoPor: string,
    criadoEm: nat,
    modificadoEm: nat)

  /**
   * The POST `/pessoas` body. The guarded fields are `None` when absent or
   * null, which the guard treats alike; `phone`, `city` and `state` reach
   * the driver unguarded, so for them absent and null differ.
   */
  datatype PessoaRequest = PessoaRequest(
    fullName: Option<string>,
    cpf: Option<string>,
    email: Option<string>,
    phone: Field<string>,
    city: Field<string>,
    state: Field<int>,
    idSorteio: Option<int>)

  /** What POST `/pessoas` answers. */
  datatype PessoaOutcome =
    | PessoaFieldsMissing
    | CpfAlreadyInDraw
    | ExistingPerson(idPessoa: int)
    | CityNotFound
    | CreatedPerson(idPessoa: int)
      /** An `undefined` bind value makes `execute` throw inside a callback: nothing answers. */
    | NoResponse
  {
    function Status(): int
      requires !NoResponse?
    {
      match this
      case PessoaFieldsMissing => 400
      case CpfAlreadyInDraw => 409
      case ExistingPerson(_) => 200
      case CityNotFound => 400
      case CreatedPerson(_) => 201
    }
  }

  /** The POST `/inscriptions` body. */
  datatype InscricaoRequest = InscricaoRequest(
    idSorteio: Option<int>,
    idPessoa: Option<int>,
    idCurso: Option<int>,
    criadoPor: Option<string>)

  /** What POST `/inscriptions` answers. */
  datatype InscricaoOutcome = InscricaoIdsMissing | AlreadyRegistered | Registered(idInscricao: int) {
    function Status(): int {
      match this
      case InscricaoIdsMissing => 400
      case AlreadyRegistered => 409
      case Registered(_) => 201
    }
  }

  /** What DELETE `/inscriptions/:id` answers. */
  datatype DeleteOutcome = Deleted | NothingDeleted {
    function Status(): int {
      match this
      case Deleted => 200
      case NothingDeleted => 404
    }
  }

  /** A row of GET `/inscriptions/:id`: the inscription and the names its LEFT JOINs bring. */
  datatype InscricaoView = InscricaoView(
    row: Inscricao,
    nomePessoa: Option<string>,
    nomeCurso: Option<string>,
    descricaoSorteio: Option<string>)

  // ---------------------------------------------------------------------
  // Reference predicates

  /** Some inscription in `draw` belongs to a person whose CPF is `cpf`. */
  ghost predicate CpfInDraw(ins: seq<Inscricao>, ps: seq<Person>, cpf: string, draw: int) {
    exists i, p :: i in ins && p in ps && i.idPessoa == p.idPessoa && p.cpf == cpf && i.idSorteio == draw
  }

  ghost predicate HasCpf(ps: seq<Person>, cpf: string) {
    exists p :: p in ps && p.cpf == cpf
  }

  /** No two persons share a CPF. */
  ghost predicate UniqueCpfs(ps: seq<Person>) {
    forall i, j :: 0 <= i < j < |ps| ==> ps[i].cpf != ps[j].cpf
  }

  ghost predicate PairRegistered(ins: seq<Inscricao>, person: int, draw: int) {
    exists i :: i in ins && i.idPessoa == person && i.idSorteio == draw
  }

  /** At most one inscription per (person, draw). */
  ghost predicate UniquePairs(ins: seq<Inscricao>) {
    forall i, j :: 0 <= i < j < |ins| ==>
      ins[i].idPessoa != ins[j].idPessoa || ins[i].idSorteio != ins[j].idSorteio
  }

  ghost predicate UniquePersonIds(ps: seq<Person>) {
    forall i, j :: 0 <= i < j < |ps| ==> ps[i].idPessoa != ps[j].idPessoa
  }

  ghost predicate UniqueCourseIds(cs: seq<Course>) {
    forall i, j :: 0 <= i < j < |cs| ==> cs[i].idCurso != cs[j].idCurso
  }

  ghost predicate UniqueInscricaoIds(ins: seq<Inscricao>) {
    forall i, j :: 0 <= i < j < |ins| ==> ins[i].idInscricao != ins[j].idInscricao
  }

  // ---------------------------------------------------------------------
  // The queries the handlers send

  /**
   * `SELECT i.IDINSCRICAO FROM inscricoes i JOIN pessoas p ON i.IDPESSOA = p.IDPESSOA
   *  WHERE p.CPF = ? AND i.IDSORTEIO = ?`: one id per joined pair.
   */
  function InscriptionsOfCpf(ins: seq<Inscricao>, ps: seq<Person>, cpf: string, draw: int): (ids: seq<int>)
    ensures forall id :: id in ids ==> exists i :: i in ins && i.idInscricao == id && i.idSorteio == draw
  {
    if |ins| == 0 then []
    else
      var i := ins[0];
      var owners := if i.idSorteio == draw then Filter(ps, (p: Person) => p.idPessoa == i.idPessoa && p.cpf == cpf) else [];
      seq(|owners|, _ => i.idInscricao) + InscriptionsOfCpf(ins[1..], ps, cpf, draw)
  }

  /** The join is non-empty exactly when the CPF is already inscribed in the draw. */
  lemma {:induction false} InscriptionsOfCpfNonEmpty(ins: seq<Inscricao>, ps: seq<Person>, cpf: string, draw: int)
    ensures |InscriptionsOfCpf(ins, ps, cpf, draw)| > 0 <==> CpfInDraw(ins, ps, cpf, draw)
  {
    if |ins| > 0 {
      var i := ins[0];
      InscriptionsOfCpfNonEmpty(ins[1..], ps, cpf, draw);
      if CpfInDraw(ins, ps, cpf, draw) && !CpfInDraw(ins[1..], ps, cpf, draw) {
        var j, p :| j in ins && p in ps && j.idPessoa == p.idPessoa && p.cpf == cpf && j.idSorteio == draw;
        assert j == i by {
          assert ins == [i] + ins[1..];
        }
        assert p in Filter(ps, (p: Person) => p.idPessoa == i.idPessoa && p.cpf == cpf);
      }
      if CpfInDraw(ins[1..], ps, cpf, draw) {
        var j, p :| j in ins[1..] && p in ps && j.idPessoa == p.idPessoa && p.cpf == cpf && j.idSorteio == draw;
        assert j in ins;
      }
      if i.idSorteio == draw {
        var owners := Filter(ps, (p: Person) => p.idPessoa == i.idPessoa && p.cpf == cpf);
        if |owners| > 0 {
          assert owners[0] in owners;
        }
      }
    }
  }

  /** `SELECT IDPESSOA FROM pessoas WHERE CPF = ?`, first row. */
  function PersonIdByCpf(ps: seq<Person>, cpf: string): (r: Option<int>)
    ensures r.None? <==> !HasCpf(ps, cpf)
    ensures r.Some? ==> exists k :: (0 <= k < |ps| && ps[k].cpf == cpf && ps[k].idPessoa == r.value &&
      forall j :: 0 <= j < k ==> ps[j].cpf != cpf)
  {
    match FirstMatch(ps, (p: Person) => p.cpf == cpf)
    case None => None
    case Some(k) => Some(ps[k].idPessoa)
  }

  /** `SELECT CODMUNICIPIO FROM cidades WHERE NOME = ? AND IDESTADO = ?`, first row; a null parameter matches nothing. */
  function CityCode(cs: seq<City>, name: Option<string>, state: Option<int>): (r: Option<int>)
    ensures r.None? <==> (name.None? || state.None? ||
      forall c :: c in cs ==> c.nome != name.value || c.idEstado != state.value)
    ensures r.Some? ==> exists k :: (0 <= k < |cs| && cs[k].nome == name.value && cs[k].idEstado == state.value &&
      cs[k].codMunicipio == r.value &&
      forall j :: 0 <= j < k ==> cs[j].nome != name.value || cs[j].idEstado != state.value)
  {
    if name.None? || state.None? then None
    else
      match FirstMatch(cs, (c: City) => c.nome == name.value && c.idEstado == state.value)
      case None => None
      case Some(k) => Some(cs[k].codMunicipio)
  }

  /** `SELECT IDINSCRICAO FROM inscricoes WHERE IDPESSOA = ? AND IDSORTEIO = ?` */
  function InscriptionsOfPair(ins: seq<Inscricao>, person: int, draw: int): (ids: seq<int>)
    ensures |ids| > 0 <==> PairRegistered(ins, person, draw)
  {
    var rows := Filter(ins, (i: Inscricao) => i.idPessoa == person && i.idSorteio == draw);
    assert PairRegistered(ins, person, draw) ==> |rows| > 0 by {
      if PairRegistered(ins, person, draw) {
        var i :| i in ins && i.idPessoa == person && i.idSorteio == draw;
        assert i in rows;
      }
    }
    seq(|rows|, k requires 0 <= k < |rows| => rows[k].idInscricao)
  }

  /** `DELETE FROM inscricoes WHERE IDINSCRICAO = ?`: the rows that remain. */
  function WithoutInscription(ins: seq<Inscricao>, id: int): (r: seq<Inscricao>)
    ensures |r| <= |ins|
    ensures forall i :: i in r <==> i in ins && i.idInscricao != id
  {
    if |ins| == 0 then []
    else
      assert ins == [ins[0]] + ins[1..];
      (if ins[0].idInscricao != id then [ins[0]] else []) + WithoutInscription(ins[1..], id)
  }

  /** With unique ids, the DELETE removes exactly the one row whose id matches. */
  lemma {:induction false} DeleteRemovesOneRow(ins: seq<Inscricao>, id: int, k: nat)
    requires UniqueInscricaoIds(ins)
    requires k < |ins| && ins[k].idInscricao == id
    ensures WithoutInscription(ins, id) == ins[..k] + ins[k + 1..]
  {
    if k == 0 {
      DeleteHeadRow(ins, id);
    } else {
      TailKeepsIdsUnique(ins);
      DeleteRemovesOneRow(ins[1..], id, k - 1);
      DeleteAfterHead(ins, id, k);
    }
  }

  /** Deleting the id of the first row, when no other row has it. */
  lemma DeleteHeadRow(ins: seq<Inscricao>, id: int)
    requires UniqueInscricaoIds(ins)
    requires |ins| > 0 && ins[0].idInscricao == id
    ensures WithoutInscription(ins, id) == ins[1..]
  {
    var tail := ins[1..];
    forall j | 0 <= j < |tail| ensures tail[j].idInscricao != id {
      assert tail[j] == ins[j + 1];
    }
    WithoutNoMatch(tail, id);
  }

  /** One unfolding of the DELETE past a first row that stays. */
  lemma DeleteAfterHead(ins: seq<Inscricao>, id: int, k: nat)
    requires 0 < k < |ins| && ins[0].idInscricao != id
    requires WithoutInscription(ins[1..], id) == ins[1..][..k - 1] + ins[1..][k..]
    ensures WithoutInscription(ins, id) == ins[..k] + ins[k + 1..]
  {
    var tail := ins[1..];
    assert WithoutInscription(ins, id) == [ins[0]] + (tail[..k - 1] + tail[k..]);
    assert ins[..k] == [ins[0]] + tail[..k - 1];
    assert ins[k + 1..] == tail[k..];
  }

  /** Dropping the first row keeps inscription ids unique. */
  lemma TailKeepsIdsUnique(ins: seq<Inscricao>)
    requires UniqueInscricaoIds(ins) && |ins| > 0
    ensures UniqueInscricaoIds(ins[1..])
  {
    var tail := ins[1..];
    forall a, b | 0 <= a < b < |tail| ensures tail[a].idInscricao != tail[b].idInscricao {
      assert tail[a] == ins[a + 1] && tail[b] == ins[b + 1];
    }
  }

  /** A DELETE that matches nothing leaves the table as it was. */
  lemma {:induction false} WithoutNoMatch(ins: seq<Inscricao>, id: int)
    requires forall j :: 0 <= j < |ins| ==> ins[j].idInscricao != id
    ensures WithoutInscription(ins, id) == ins
  {
    if |ins| > 0 {
      WithoutNoMatch(ins[1..], id);
      assert ins == [ins[0]] + ins[1..];
    }
  }

  /** `LEFT JOIN pessoas p ON i.IDPESSOA = p.IDPESSOA`, giving `p.NOME`. */
  function PersonName(ps: seq<Person>, id: int): (r: Option<string>)
    ensures r.None? <==> forall p :: p in ps ==> p.idPessoa != id
    ensures r.Some? ==> exists p :: p in ps && p.idPessoa == id && p.nome == r.value
    ensures UniquePersonIds(ps) ==> forall p :: p in ps && p.idPessoa == id ==> r == Some(p.nome)
  {
    match FirstMatch(ps, (p: Person) => p.idPessoa == id)
    case None =>
      assert forall p :: p in ps ==> p.idPessoa != id by {
        forall p | p in ps ensures p.idPessoa != id {
          var j :| 0 <= j < |ps| && ps[j] == p;
        }
      }
      None
    case Some(k) =>
      assert UniquePersonIds(ps) ==> forall p :: p in ps && p.idPessoa == id ==> p == ps[k] by {
        if UniquePersonIds(ps) {
          forall p | p in ps && p.idPessoa == id ensures p == ps[k] {
            var j :| 0 <= j < |ps| && ps[j] == p;
          }
        }
      }
      Some(ps[k].nome)
  }

  /** `LEFT JOIN cursos c ON i.IDCURSO = c.IDCURSO`, giving `c.NOME`. */
  function CourseName(cs: seq<Course>, id: int): (r: Option<string>)
    ensures r.None? <==> forall c :: c in cs ==> c.idCurso != id
    ensures r.Some? ==> exists c :: c in cs && c.idCurso == id && c.nome == r.value
    ensures UniqueCourseIds(cs) ==> forall c :: c in cs && c.idCurso == id ==> r == Some(c.nome)
  {
    match FirstMatch(cs, (c: Course) => c.idCurso == id)
    case None =>
      assert forall c :: c in cs ==> c.idCurso != id by {
        forall c | c in cs ensures c.idCurso != id {
          var j :| 0 <= j < |cs| && cs[j] == c;
        }
      }
      None
    case Some(k) =>
      assert UniqueCourseIds(cs) ==> forall c :: c in cs && c.idCurso == id ==> c == cs[k] by {
        if UniqueCourseIds(cs) {
          forall c | c in cs && c.idCurso == id ensures c == cs[k] {
            var j :| 0 <= j < |cs| && cs[j] == c;
          }
        }
      }
      Some(cs[k].nome)
  }

  /** `LEFT JOIN sorteios s ON i.IDSORTEIO = s.IDSORTEIO`, giving `s.DESCRICAO`, itself nullable. */
  function DrawDescription(ds: seq<Draw>, id: int): (r: Option<string>)
    ensures (forall d :: d in ds ==> d.idSorteio != id) ==> r.None?
    ensures r.Some? ==> exists d :: d in ds && d.idSorteio == id && d.descricao == r
    ensures UniqueDrawIds(ds) ==> forall d :: d in ds && d.idSorteio == id ==> r == d.descricao
  {
    match FirstMatch(ds, (d: Draw) => d.idSorteio == id)
    case None => None
    case Some(k) =>
      assert UniqueDrawIds(ds) ==> forall d :: d in ds && d.idSorteio == id ==> d == ds[k] by {
        if UniqueDrawIds(ds) {
          forall d | d in ds && d.idSorteio == id ensures d == ds[k] {
            var j :| 0 <= j < |ds| && ds[j] == d;
          }
        }
      }
      ds[k].descricao
  }

  /** GET `/inscriptions/:id`: the row with that id and the names its LEFT JOINs find, or `None` (404). */
  function FindInscription(ins: seq<Inscricao>, ps: seq<Person>, cs: seq<Course>, ds: seq<Draw>, id: int): (r: Option<InscricaoView>)
    ensures r.None? <==> forall i :: i in ins ==> i.idInscricao != id
    ensures r.Some? ==> r.value.row in ins && r.value.row.idInscricao == id
    ensures r.Some? ==> r.value.nomePessoa == PersonName(ps, r.value.row.idPessoa)
    ensures r.Some? ==> r.value.nomeCurso == CourseName(cs, r.value.row.idCurso)
    ensures r.Some? ==> r.value.descricaoSorteio == DrawDescription(ds, r.value.row.idSorteio)
  {
    match FirstMatch(ins, (i: Inscricao) => i.idInscricao == id)
    case None =>
      assert forall i :: i in ins ==> i.idInscricao != id by {
        forall i | i in ins ensures i.idInscricao != id {
          var k :| 0 <= k < |ins| && ins[k] == i;
        }
      }
      None
    case Some(k) =>
      var row := ins[k];
      Some(InscricaoView(row, PersonName(ps, row.idPessoa), CourseName(cs, row.idCurso), DrawDescription(ds, row.idSorteio)))
  }

  // ---------------------------------------------------------------------
  // The database and its handlers

  /** The city lookup binds `city` and `state`; neither may be `undefined`. */
  predicate CityArgsDefined(req: PessoaRequest) {
    !req.city.Absent? && !req.state.Absent?
  }

  /** The city code the lookup finds for the request. */
  function RequestCity(cs: seq<City>, req: PessoaRequest): Option<int>
    requires CityArgsDefined(req)
  {
    CityCode(cs, req.city.Bound(), req.state.Bound())
  }

  /** The required POST `/pessoas` fields: `fullName`, `cpf`, `email` and `IDSORTEIO`. */
  function PessoaFieldsPresent(req: PessoaRequest): (b: bool)
    // the fields the insert reads are defined ...
    ensures b ==> req.fullName.Some? && req.cpf.Some? && req.email.Some? && req.idSorteio.Some?
    // ... and an empty string or a zero id is refused like a missing field
    ensures req.fullName == Some("") || req.cpf == Some("") || req.email == Some("") || req.idSorteio == Some(0) ==> !b
    // conversely any four truthy values pass, whatever phone, city and state are
    ensures Present(req.fullName) && Present(req.cpf) && Present(req.email) && IdPresent(req.idSorteio) ==> b
  {
    Present(req.fullName) && Present(req.cpf) && Present(req.email) && IdPresent(req.idSorteio)
  }

  /** The required POST `/inscriptions` fields: `IDSORTEIO`, `IDPESSOA` and `IDCURSO`. */
  function InscricaoIdsPresent(req: InscricaoRequest): (b: bool)
    ensures b ==> req.idSorteio.Some? && req.idPessoa.Some? && req.idCurso.Some?
    // a zero id is falsy and refused like a missing one
    ensures req.idSorteio == Some(0) || req.idPessoa == Some(0) || req.idCurso == Some(0) ==> !b
    // conversely any three truthy ids pass, whatever CRIADOPOR is
    ensures IdPresent(req.idSorteio) && IdPresent(req.idPessoa) && IdPresent(req.idCurso) ==> b
  {
    IdPresent(req.idSorteio) && IdPresent(req.idPessoa) && IdPresent(req.idCurso)
  }

  /** The row a successful POST `/pessoas` inserts. */
  function NewPerson(req: PessoaRequest, id: int, codMunicipio: int, now: nat): (p: Person)
    requires PessoaFieldsPresent(req) && !req.phone.Absent?
    ensures p.idPessoa == id && p.codMunicipio == codMunicipio
    ensures p.nome == req.fullName.value && p.cpf == req.cpf.value && p.email == req.email.value
    ensures p.telefone.None? <==> req.phone.JsonNull?
    ensures req.phone.Given? ==> p.telefone == Some(req.phone.value)
    // CRIADOPOR is the submitted email, not a user name
    ensures p.criadoPor == req.email.value
    ensures p.criadoEm == now && p.modificadoEm == now
  {
    Person(id, req.fullName.value, req.cpf.value, req.email.value, req.phone.Bound(), codMunicipio, req.email.value, now, now)
  }

  /** The row a successful POST `/inscriptions` inserts. */
  function NewInscricao(req: InscricaoRequest, id: int, now: nat): (i: Inscricao)
    requires InscricaoIdsPresent(req)
    ensures i.idInscricao == id
    ensures i.idSorteio == req.idSorteio.value && i.idPessoa == req.idPessoa.value && i.idCurso == req.idCurso.value
    ensures Present(req.criadoPor) ==> i.criadoPor == req.criadoPor.value
    ensures !Present(req.criadoPor) ==> i.criadoPor == "Sistema"
    ensures i.dtInscricao == now && i.criadoEm == now && i.modificadoEm == now
  {
    Inscricao(id, req.idSorteio.value, req.idPessoa.value, req.idCurso.value, now, OrElse(req.criadoPor, "Sistema"), now, now)
  }

  class Database {
    var pessoas: seq<Person>
    var cidades: seq<City>
    var cursos: seq<Course>
    var sorteios: seq<Draw>
    var inscricoes: seq<Inscricao>
    /** The AUTO_INCREMENT counters of `pessoas` and `inscricoes`. */
    var nextPessoa: int
    var nextInscricao: int

    /** Primary keys are unique and below their AUTO_INCREMENT counters. */
    ghost predicate Valid()
      reads this
    {
      && UniquePersonIds(pessoas)
      && (forall p :: p in pessoas ==> p.idPessoa < nextPessoa)
      && UniqueInscricaoIds(inscricoes)
      && (forall i :: i in inscricoes ==> i.idInscricao < nextInscricao)
      && UniqueDrawIds(sorteios)
    }

    /** A database holding the given reference data and no persons or inscriptions yet. */
    constructor (cidades: seq<City>, cursos: seq<Course>, sorteios: seq<Draw>)
      requires UniqueDrawIds(sorteios)
      ensures Valid()
      ensures this.cidades == cidades && this.cursos == cursos && this.sorteios == sorteios
      ensures pessoas == [] && inscricoes == []
      ensures nextPessoa == 1 && nextInscricao == 1
    {
      this.cidades := cidades;
      this.cursos := cursos;
      this.sorteios := sorteios;
      pessoas := [];
      inscricoes := [];
      nextPessoa := 1;
      nextInscricao := 1;
    }

    /**
     * POST `/pessoas`: find or create the person with this CPF, refusing a
     * CPF already inscribed in the draw. The CPF is not validated here and
     * is compared as sent.
     */
    method PostPessoa(req: PessoaRequest, now: nat) returns (out: PessoaOutcome)
      requires Valid()
      modifies this
      ensures Valid()
      ensures cidades == old(cidades) && cursos == old(cursos) && sorteios == old(sorteios)
      ensures inscricoes == old(inscricoes) && nextInscricao == old(nextInscricao)
      ensures out == PessoaFieldsMissing <==> !PessoaFieldsPresent(req)
      ensures out == CpfAlreadyInDraw <==>
        PessoaFieldsPresent(req) && CpfInDraw(old(inscricoes), old(pessoas), req.cpf.value, req.idSorteio.value)
      ensures out.ExistingPerson? <==>
        && PessoaFieldsPresent(req)
        && !CpfInDraw(old(inscricoes), old(pessoas), req.cpf.value, req.idSorteio.value)
        && HasCpf(old(pessoas), req.cpf.value)
      ensures out.ExistingPerson? ==> PersonIdByCpf(old(pessoas), req.cpf.value) == Some(out.idPessoa)
      ensures out == CityNotFound <==>
        && PessoaFieldsPresent(req)
        && !CpfInDraw(old(inscricoes), old(pessoas), req.cpf.value, req.idSorteio.value)
        && !HasCpf(old(pessoas), req.cpf.value)
        && CityArgsDefined(req)
        && RequestCity(cidades, req).None?
      ensures out == NoResponse <==>
        && PessoaFieldsPresent(req)
        && !CpfInDraw(old(inscricoes), old(pessoas), req.cpf.value, req.idSorteio.value)
        && !HasCpf(old(pessoas), req.cpf.value)
        && (!CityArgsDefined(req) || (RequestCity(cidades, req).Some? && req.phone.Absent?))
      ensures out.CreatedPerson? ==>
        && PessoaFieldsPresent(req)
        && CityArgsDefined(req) && !req.phone.Absent?
        && RequestCity(cidades, req).Some?
        && out.idPessoa == old(nextPessoa)
        && pessoas == old(pessoas) + [NewPerson(req, out.idPessoa, RequestCity(cidades, req).value, now)]
        && nextPessoa == old(nextPessoa) + 1
      ensures !out.CreatedPerson? ==> pessoas == old(pessoas) && nextPessoa == old(nextPessoa)
      ensures UniqueCpfs(old(pessoas)) ==> UniqueCpfs(pessoas)
    {
      if !PessoaFieldsPresent(req) {
        return PessoaFieldsMissing;
      }
      var cpf, draw := req.cpf.value, req.idSorteio.value;

      var inscribed := InscriptionsOfCpf(inscricoes, pessoas, cpf, draw);
      InscriptionsOfCpfNonEmpty(inscricoes, pessoas, cpf, draw);
      if |inscribed| > 0 {
        return CpfAlreadyInDraw;
      }

      var existing := PersonIdByCpf(pessoas, cpf);
      if existing.Some? {
        return ExistingPerson(existing.value);
      }

      if !CityArgsDefined(req) {
        return NoResponse;
      }
      var codMunicipio := RequestCity(cidades, req);
      if codMunicipio.None? {
        return CityNotFound;
      }

      if req.phone.Absent? {
        return NoResponse;
      }

      var person := NewPerson(req, nextPessoa, codMunicipio.value, now);
      pessoas := pessoas + [person];
      out := CreatedPerson(nextPessoa);
      nextPessoa := nextPessoa + 1;
    }

    /**
     * POST `/inscriptions` (in both route files): register a person for a
     * draw and course, refusing a second inscription of the same pair.
     */
    method PostInscription(req: InscricaoRequest, now: nat) returns (out: InscricaoOutcome)
      requires Valid()
      modifies this
      ensures Valid()
      ensures pessoas == old(pessoas) && cidades == old(cidades) && cursos == old(cursos)
      ensures sorteios == old(sorteios) && nextPessoa == old(nextPessoa)
      ensures out == InscricaoIdsMissing <==> !InscricaoIdsPresent(req)
      ensures out == AlreadyRegistered <==>
        InscricaoIdsPresent(req) && PairRegistered(old(inscricoes), req.idPessoa.value, req.idSorteio.value)
      ensures out.Registered? ==>
        && InscricaoIdsPresent(req)
        && out.idInscricao == old(nextInscricao)
        && inscricoes == old(inscricoes) + [NewInscricao(req, out.idInscricao, now)]
        && nextInscricao == old(nextInscricao) + 1
      ensures !out.Registered? ==> inscricoes == old(inscricoes) && nextInscricao == old(nextInscricao)
      ensures UniquePairs(old(inscricoes)) ==> UniquePairs(inscricoes)
    {
      if !InscricaoIdsPresent(req) {
        return InscricaoIdsMissing;
      }
      var existing := InscriptionsOfPair(inscricoes, req.idPessoa.value, req.idSorteio.value);
      if |existing| > 0 {
        return AlreadyRegistered;
      }
      var row := NewInscricao(req, nextInscricao, now);
      if UniquePairs(inscricoes) {
        RegisterKeepsPairsUnique(inscricoes, row);
      }
      inscricoes := inscricoes + [row];
      out := Registered(nextInscricao);
      nextInscricao := nextInscricao + 1;
    }

    /** DELETE `/inscriptions/:id` (in both route files). */
    method DeleteInscription(id: int) returns (out: DeleteOutcome)
      requires Valid()
      modifies this
      ensures Valid()
      ensures pessoas == old(pessoas) && cidades == old(cidades) && cursos == old(cursos)
      ensures sorteios == old(sorteios) && nextPessoa == old(nextPessoa) && nextInscricao == old(nextInscricao)
      ensures out == Deleted <==> exists k :: 0 <= k < |old(inscricoes)| && old(inscricoes)[k].idInscricao == id
      ensures out == Deleted ==> exists k :: (0 <= k < |old(inscricoes)| && old(inscricoes)[k].idInscricao == id &&
        inscricoes == old(inscricoes)[..k] + old(inscricoes)[k + 1..])
      ensures out == NothingDeleted ==> inscricoes == old(inscricoes)
    {
      var found := FirstMatch(inscricoes, (i: Inscricao) => i.idInscricao == id);
      var remaining := WithoutInscription(inscricoes, id);
      if found.Some? {
        var k := found.value;
        DeleteRemovesOneRow(inscricoes, id, k);
        DeleteKeepsIdsUnique(inscricoes, k);
        assert forall i :: i in remaining ==> i in inscricoes;
        inscricoes := remaining;
        out := Deleted;
      } else {
        WithoutNoMatch(inscricoes, id);
        out := NothingDeleted;
      }
    }

    /** POST `/draws`: insert a draw with the next id and the defaults of `NewDrawRow`. */
    method PostDraw(req: DrawRequest, now: nat) returns (out: DrawOutcome)
      requires Valid()
      modifies this
      ensures Valid()
      ensures pessoas == old(pessoas) && cidades == old(cidades) && cursos == old(cursos)
      ensures inscricoes == old(inscricoes) && nextPessoa == old(nextPessoa) && nextInscricao == old(nextInscricao)
      ensures out == DrawFieldsMissing <==> !DrawFieldsPresent(req)
      ensures out == DrawDateInvalid <==> DrawFieldsPresent(req) && (req.dtInicio.Malformed? || req.dtFim.Malformed?)
      ensures out.DrawCreated? ==>
        && DrawFieldsPresent(req) && req.dtInicio.At? && req.dtFim.At?
        && out.id == NextDrawId(old(sorteios))
        && sorteios == old(sorteios) + [NewDrawRow(req, out.id, now)]
      ensures out.DrawCreated? ==> forall d :: d in old(sorteios) ==> d.idSorteio < out.id
      ensures !out.DrawCreated? ==> sorteios == old(sorteios)
    {
      if !DrawFieldsPresent(req) {
        return DrawFieldsMissing;
      }
      if req.dtInicio.Malformed? || req.dtFim.Malformed? {
        return DrawDateInvalid;
      }
      var id := NextDrawId(sorteios);
      sorteios := sorteios + [NewDrawRow(req, id, now)];
      out := DrawCreated(id);
    }
  }

  /** Removing one row keeps inscription ids unique. */
  lemma DeleteKeepsIdsUnique(ins: seq<Inscricao>, k: nat)
    requires UniqueInscricaoIds(ins) && k < |ins|
    ensures UniqueInscricaoIds(ins[..k] + ins[k + 1..])
  {
    var rest := ins[..k] + ins[k + 1..];
    forall a, b | 0 <= a < b < |rest| ensures rest[a].idInscricao != rest[b].idInscricao {
      var a', b' := if a < k then a else a + 1, if b < k then b else b + 1;
      assert rest[a] == ins[a'] && rest[b] == ins[b'];
    }
  }

  /** Appending an inscription for a pair not yet registered keeps pairs unique. */
  lemma RegisterKeepsPairsUnique(ins: seq<Inscricao>, row: Inscricao)
    requires UniquePairs(ins)
    requires !PairRegistered(ins, row.idPessoa, row.idSorteio)
    ensures UniquePairs(ins + [row])
  {
    var longer := ins + [row];
    forall i, j | 0 <= i < j < |longer|
      ensures longer[i].idPessoa != longer[j].idPessoa || longer[i].idSorteio != longer[j].idSorteio
    {
      if j == |ins| {
        assert longer[i] in ins;
      }
    }
  }

  /** A person just inserted under a CPF nobody had is what the CPF lookup finds afterwards. */
  lemma InsertedPersonIsFound(ps: seq<Person>, p: Person)
    requires !HasCpf(ps, p.cpf)
    ensures PersonIdByCpf(ps + [p], p.cpf) == Some(p.idPessoa)
  {
    var longer := ps + [p];
    assert longer[|ps|] == p;
    assert forall j :: 0 <= j < |ps| ==> longer[j].cpf != p.cpf by {
      forall j | 0 <= j < |ps| ensures longer[j].cpf != p.cpf {
        assert longer[j] == ps[j] && ps[j] in ps;
      }
    }
  }

  /**
   * Posting the same person twice, the second time for a draw in which the
   * CPF is not inscribed, gives back the id of the first answer with
   * `created=false`.
   */
  method PostPessoaTwice(db: Database, req: PessoaRequest, otherDraw: int, now: nat, later: nat)
    returns (first: PessoaOutcome, second: PessoaOutcome)
    requires db.Valid() && PessoaFieldsPresent(req) && otherDraw != 0
    requires !CpfInDraw(db.inscricoes, db.pessoas, req.cpf.value, otherDraw)
    requires forall i :: i in db.inscricoes && i.idSorteio == otherDraw ==> i.idPessoa != db.nextPessoa
    modifies db
    ensures first.CreatedPerson? || first.ExistingPerson? ==> second == ExistingPerson(first.idPessoa)
    ensures db.Valid()
  {
    ghost var ps0 := db.pessoas;
    first := db.PostPessoa(req, now);
    var again := req.(idSorteio := Some(otherDraw));
    if first.CreatedPerson? {
      var p := NewPerson(req, first.idPessoa, RequestCity(db.cidades, req).value, now);
      assert db.pessoas == ps0 + [p];
      InsertedPersonIsFound(ps0, p);
      assert p in db.pessoas;
      assert !CpfInDraw(db.inscricoes, db.pessoas, req.cpf.value, otherDraw);
    }
    second := db.PostPessoa(again, later);
  }

  /** Posting the same inscription twice: the second answer is 409 when the first registered it. */
  method PostInscriptionTwice(db: Database, req: InscricaoRequest, now: nat, later: nat)
    returns (first: InscricaoOutcome, second: InscricaoOutcome)
    requires db.Valid()
    modifies db
    ensures first.Registered? <==> InscricaoIdsPresent(req) && !PairRegistered(old(db.inscricoes), req.idPessoa.value, req.idSorteio.value)
    ensures first.Registered? ==> second == AlreadyRegistered && second.Status() == 409
    ensures db.Valid()
  {
    first := db.PostInscription(req, now);
    if first.Registered? {
      var row := NewInscricao(req, first.idInscricao, now);
      assert row in db.inscricoes;
    }
    second := db.PostInscription(req, later);
  }

  /** A database with the city of Recife (state 26) and one course. */
  method RecifeDatabase() returns (db: Database)
    ensures fresh(db) && db.Valid()
    ensures db.pessoas == [] && db.inscricoes == [] && db.nextPessoa == 1 && db.nextInscricao == 1
    ensures CityCode(db.cidades, Some("Recife"), Some(26)) == Some(2611606)
    ensures CityCode(db.cidades, Some("Atlantis"), Some(26)) == None
  {
    var recife := City(2611606, "Recife", 26);
    db := new Database([recife], [Course(1, "Medicina")], []);
    assert db.cidades[0] == recife;
  }

  /** Ana Silva's request for draw 1. */
  function AnaSilva(): PessoaRequest {
    PessoaRequest(Some("Ana Silva"), Some("52998224725"), Some("ana@x.com"), Given("81999990000"),
                  Given("Recife"), Given(26), Some(1))
  }

  /**
   * Ana Silva is created (201), then found again before she is inscribed
   * (200, `created=false`): a CPF alone is not a conflict.
   */
  method FindOrCreateScenario() returns (created: PessoaOutcome, found: PessoaOutcome)
    ensures created == CreatedPerson(1) && created.Status() == 201
    ensures found == ExistingPerson(1) && found.Status() == 200
  {
    var db := RecifeDatabase();
    created := db.PostPessoa(AnaSilva(), 10);
    assert db.pessoas[0] in db.pessoas;
    found := db.PostPessoa(AnaSilva(), 11);
  }

  /**
   * Once Ana Silva is inscribed in draw 1 (201), both a new person request
   * and a new inscription for draw 1 are refused with 409.
   */
  method DuplicateInDrawScenario() returns (inscribed: InscricaoOutcome, personAgain: PessoaOutcome, inscriptionAgain: InscricaoOutcome)
    ensures inscribed == Registered(1) && inscribed.Status() == 201
    ensures personAgain == CpfAlreadyInDraw && personAgain.Status() == 409
    ensures inscriptionAgain == AlreadyRegistered && inscriptionAgain.Status() == 409
  {
    var db := RecifeDatabase();
    var created := db.PostPessoa(AnaSilva(), 10);
    var ana := db.pessoas[0];
    var enrol := InscricaoRequest(Some(1), Some(1), Some(1), None);
    inscribed := db.PostInscription(enrol, 12);
    assert db.inscricoes[0] in db.inscricoes && ana in db.pessoas;
    personAgain := db.PostPessoa(AnaSilva(), 13);
    assert db.inscricoes[0] in db.inscricoes;
    inscriptionAgain := db.PostInscription(enrol, 14);
  }

  /**
   * A person from a city that is not in `cidades` gets 400 and no row is
   * inserted; leaving the `city` key out altogether gets no answer.
   */
  method UnknownCityScenario() returns (out: PessoaOutcome, noCity: PessoaOutcome, personCount: nat)
    ensures out == CityNotFound && out.Status() == 400
    ensures noCity == NoResponse
    ensures personCount == 0
  {
    var db := RecifeDatabase();
    out := db.PostPessoa(AnaSilva().(city := Given("Atlantis")), 10);
    noCity := db.PostPessoa(AnaSilva().(city := Absent), 11);
    personCount := |db.pessoas|;
  }

  /**
   * Without a `phone` key the INSERT is never answered and nothing is
   * stored; with `"phone": null` the person is created with no phone.
   */
  method MissingPhoneScenario() returns (absent: PessoaOutcome, nulled: PessoaOutcome, stored: Option<string>)
    ensures absent == NoResponse
    ensures nulled == CreatedPerson(1) && nulled.Status() == 201
    ensures stored == None
  {
    var db := RecifeDatabase();
    absent := db.PostPessoa(AnaSilva().(phone := Absent), 10);
    assert db.pessoas == [];
    nulled := db.PostPessoa(AnaSilva().(phone := JsonNull), 11);
    stored := db.pessoas[0].telefone;
  }
}
