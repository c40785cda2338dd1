/**
 * The `sorteios` (draws) table and the pure parts of the draw routes:
 * the defaults POST applies before inserting, the next-id rule, and the
 * default-filling map GET applies to every row.
 */
module Draws {
  import opened Wrappers
  import opened Js
  import opened Query

  /** A `sorteios` row. Timestamps and dates are abstract naturals. */
  datatype Draw = Draw(
    idSorteio: int,
    nome: Option<string>,
    descricao: Option<string>,
    multiplaInscricao: Option<int>,
    ativo: Option<int>,
    qtdBolsas: Option<int>,
    dtInicio: Option<nat>,
    dtFim: Option<nat>,
    url: Option<string>,
    criadoPor: string,
    criadoEm: Option<nat>)

  /** A date field of the POST body: falsy, unparseable (`new Date` gives Invalid Date), or a moment. */
  datatype DateInput = NoDate | Malformed | At(moment: nat)

  /** The POST `/draws` body; `qtdBolsas` is already `parseInt`'s result (`None` is NaN). */
  datatype DrawRequest = DrawRequest(
    nome: Option<string>,
    descricao: Option<string>,
    multiplaInscricao: Value,
    ativo: Value,
    qtdBolsas: Option<int>,
    dtInicio: DateInput,
    dtFim: DateInput,
    url: Option<string>)

  /** What POST `/draws` answers. */
  datatype DrawOutcome = DrawFieldsMissing | DrawDateInvalid | DrawCreated(id: int) {
    function Status(): int {
      match this
      case DrawFieldsMissing => 400
      case DrawDateInvalid => 500
      case DrawCreated(_) => 201
    }
  }

  /** A row of the GET `/draws` answer. */
  datatype DrawView = DrawView(
    id: int,
    name: string,
    description: string,
    multiplaInscricao: bool,
    active: bool,
    totalBolsas: int,
    date: Option<nat>,
    endDate: Option<nat>,
    url: string,
    createdAt: nat)

  const DefaultDrawName := "Sorteio sem nome"
  const DefaultBolsas := 3

  ghost predicate UniqueDrawIds(ds: seq<Draw>) {
    forall i, j :: 0 <= i < j < |ds| ==> ds[i].idSorteio != ds[j].idSorteio
  }

  /** The POST guard: `nome` and both dates must be truthy. */
  function DrawFieldsPresent(req: DrawRequest): (b: bool)
    ensures b ==> req.nome.Some? && req.nome.value != ""
    // a date that is given but malformed passes this check; only a missing one fails it
    ensures req.nome.Some? && req.nome.value != "" ==> (b <==> !req.dtInicio.NoDate? && !req.dtFim.NoDate?)
  {
    Present(req.nome) && !req.dtInicio.NoDate? && !req.dtFim.NoDate?
  }

  /** `COALESCE(MAX(IDSORTEIO), 0)` */
  function MaxDrawId(ds: seq<Draw>): (m: int)
    ensures forall d :: d in ds ==> d.idSorteio <= m
    ensures ds == [] ==> m == 0
    ensures ds != [] ==> exists d :: d in ds && d.idSorteio == m
  {
    if |ds| == 0 then 0
    else if |ds| == 1 then ds[0].idSorteio
    else
      var rest := MaxDrawId(ds[1..]);
      assert forall d :: d in ds ==> d == ds[0] || d in ds[1..];
      if ds[0].idSorteio >= rest then ds[0].idSorteio else rest
  }

  /** `COALESCE(MAX(IDSORTEIO), 0) + 1`: above every id in the table, and 1 on an empty table. */
  function NextDrawId(ds: seq<Draw>): (id: int)
    ensures forall d :: d in ds ==> d.idSorteio < id
    ensures ds == [] ==> id == 1
    ensures ds != [] ==> exists d :: d in ds && id == d.idSorteio + 1
  {
    MaxDrawId(ds) + 1
  }

  /** `parseInt(qtdbolsas) || 3`: NaN and 0 both fall back to three awards. */
  function BolsasOrDefault(parsed: Option<int>): (n: int)
    ensures n != 0
    ensures parsed.Some? && parsed.value != 0 ==> n == parsed.value
    ensures parsed.None? || parsed.value == 0 ==> n == DefaultBolsas
  {
    if parsed.Some? && parsed.value != 0 then parsed.value else DefaultBolsas
  }

  /** The row POST inserts for an accepted request, with id `id`, created at `now`. */
  function NewDrawRow(req: DrawRequest, id: int, now: nat): (d: Draw)
    requires DrawFieldsPresent(req) && req.dtInicio.At? && req.dtFim.At?
    ensures d.idSorteio == id && d.nome == req.nome
    ensures d.descricao.None? <==> !Present(req.descricao)
    ensures Present(req.descricao) ==> d.descricao == req.descricao
    ensures d.url.None? <==> !Present(req.url)
    ensures Present(req.url) ==> d.url == req.url
    ensures d.multiplaInscricao == Some(1) <==> Truthy(req.multiplaInscricao)
    ensures d.multiplaInscricao == Some(0) <==> !Truthy(req.multiplaInscricao)
    ensures d.ativo == Some(1) <==> Truthy(req.ativo)
    ensures d.ativo == Some(0) <==> !Truthy(req.ativo)
    ensures d.qtdBolsas == Some(BolsasOrDefault(req.qtdBolsas)) && d.qtdBolsas.value != 0
    ensures d.dtInicio == Some(req.dtInicio.moment) && d.dtFim == Some(req.dtFim.moment)
    ensures d.criadoPor == "admin" && d.criadoEm == Some(now)
  {
    Draw(
      idSorteio := id,
      nome := req.nome,
      descricao := OrNull(req.descricao),
      multiplaInscricao := Some(AsFlag(req.multiplaInscricao)),
      ativo := Some(AsFlag(req.ativo)),
      qtdBolsas := Some(BolsasOrDefault(req.qtdBolsas)),
      dtInicio := Some(req.dtInicio.moment),
      dtFim := Some(req.dtFim.moment),
      url := OrNull(req.url),
      criadoPor := "admin",
      criadoEm := Some(now))
  }

  /** `Boolean(column)` on a nullable integer column. */
  predicate ColumnFlag(c: Option<int>) {
    c.Some? && c.value != 0
  }

  /** The GET `/draws` per-row map: every text field gets a default, flags become booleans, `now` stands for `new Date()`. */
  function NormalizeDraw(d: Draw, now: nat): (v: DrawView)
    ensures v.id == d.idSorteio
    ensures v.name != ""
    ensures v.name == DefaultDrawName <==> !Present(d.nome) || d.nome.value == DefaultDrawName
    ensures Present(d.nome) ==> v.name == d.nome.value
    ensures v.description == "" <==> !Present(d.descricao)
    ensures Present(d.descricao) ==> v.description == d.descricao.value
    ensures v.url == "" <==> !Present(d.url)
    ensures Present(d.url) ==> v.url == d.url.value
    ensures v.multiplaInscricao == ColumnFlag(d.multiplaInscricao)
    ensures v.active == ColumnFlag(d.ativo)
    ensures v.totalBolsas == d.qtdBolsas.GetOr(0)
    ensures v.date == d.dtInicio && v.endDate == d.dtFim
    ensures v.createdAt == d.criadoEm.GetOr(now)
  {
    DrawView(
      id := d.idSorteio,
      name := OrElse(d.nome, DefaultDrawName),
      description := OrElse(d.descricao, ""),
      multiplaInscricao := ColumnFlag(d.multiplaInscricao),
      active := ColumnFlag(d.ativo),
      totalBolsas := d.qtdBolsas.GetOr(0),
      date := d.dtInicio,
      endDate := d.dtFim,
      url := OrElse(d.url, ""),
      createdAt := d.criadoEm.GetOr(now))
  }

  /** Sort key for `ORDER BY CRIADOEM DESC` as an ascending key; NULL sorts last. */
  function NewestFirst(d: Draw): int {
    match d.criadoEm
    case Some(t) => -(t as int)
    case None => 1
  }

  /** `SELECT ... FROM sorteios ORDER BY CRIADOEM DESC`: the same rows, newest first, rows without a creation time last. */
  function DrawsNewestFirst(ds: seq<Draw>): (r: seq<Draw>)
    ensures multiset(r) == multiset(ds)
    ensures forall i, j :: 0 <= i < j < |r| && r[j].criadoEm.Some? ==>
      r[i].criadoEm.Some? && r[i].criadoEm.value >= r[j].criadoEm.value
  {
    var sorted := SortBy(ds, NewestFirst);
    assert forall i, j :: 0 <= i < j < |sorted| ==> NewestFirst(sorted[i]) <= NewestFirst(sorted[j]);
    sorted
  }

  /** GET `/draws`: the rows in `DrawsNewestFirst` order, each mapped by `NormalizeDraw`. */
  function ListDraws(ds: seq<Draw>, now: nat): (vs: seq<DrawView>)
    ensures |vs| == |ds|
    ensures forall i :: 0 <= i < |vs| ==> vs[i] == NormalizeDraw(DrawsNewestFirst(ds)[i], now)
  {
    var sorted := DrawsNewestFirst(ds);
    assert |sorted| == |multiset(sorted)| == |ds|;
    seq(|sorted|, i requires 0 <= i < |sorted| => NormalizeDraw(sorted[i], now))
  }

  /**
   * A draw created by POST lists with its own name and flags, and with a
   * non-zero award count, however the request spelled them.
   */
  lemma CreatedDrawListing(req: DrawRequest, id: int, now: nat, later: nat)
    requires DrawFieldsPresent(req) && req.dtInicio.At? && req.dtFim.At?
    ensures var v := NormalizeDraw(NewDrawRow(req, id, now), later);
      && v.id == id && v.name == req.nome.value
      && v.multiplaInscricao == Truthy(req.multiplaInscricao)
      && v.active == Truthy(req.ativo)
      && v.totalBolsas == BolsasOrDefault(req.qtdBolsas) && v.totalBolsas != 0
      && v.createdAt == now
  {
  }
}
