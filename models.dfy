/**
 * The `inscriptions` and `winners` tables behind the Inscription and
 * Winner models: an append for each `create`, an in-place update for
 * `markAsWinner`, and the read queries as functions of the tables.
 */
module Models {
  import opened Wrappers
  import opened Js
  import opened Query

  /** An `inscriptions` row. Columns the INSERT does not set start as "not a winner". */
  datatype InscriptionRow = InscriptionRow(
    id: int,
    fullName: Option<string>,
    cpf: Option<string>,
    email: Option<string>,
    phone: Option<string>,
    city: Option<string>,
    state: Option<string>,
    course: Option<string>,
    institution: Option<string>,
    accepted: int,
    createdAt: nat,
    isWinner: int,
    winnerModality: Option<string>,
    winnerInstitution: Option<string>,
    wonAt: Option<nat>)

  /** The `data` argument of `Inscription.create`. */
  datatype InscriptionData = InscriptionData(
    fullName: Option<string>,
    cpf: Option<string>,
    email: Option<string>,
    phone: Option<string>,
    city: Option<string>,
    state: Option<string>,
    course: Option<string>,
    institution: Option<string>,
    accepted: Value)

  /** A `winners` row. */
  datatype WinnerRow = WinnerRow(
    id: int,
    inscriptionId: int,
    modality: Option<string>,
    institution: Option<string>,
    createdAt: nat)

  /** A row of `Winner.getAll`: `w.*` with the inscription's `full_name` and `email`. */
  datatype WinnerListing = WinnerListing(winner: WinnerRow, fullName: Option<string>, email: Option<string>)

  ghost predicate UniqueInscriptionIds(rows: seq<InscriptionRow>) {
    forall i, j :: 0 <= i < j < |rows| ==> rows[i].id != rows[j].id
  }

  ghost predicate UniqueWinnerIds(ws: seq<WinnerRow>) {
    forall i, j :: 0 <= i < j < |ws| ==> ws[i].id != ws[j].id
  }

  /** The row `Inscription.create` inserts. */
  function NewInscriptionRow(data: InscriptionData, id: int, now: nat): (r: InscriptionRow)
    ensures r.accepted == 1 <==> Truthy(data.accepted)
    ensures r.accepted == 0 <==> !Truthy(data.accepted)
    ensures r.isWinner != 1 && r.wonAt.None?
    ensures r.id == id && r.createdAt == now
    ensures r.fullName == data.fullName && r.cpf == data.cpf && r.email == data.email && r.phone == data.phone
    ensures r.city == data.city && r.state == data.state && r.course == data.course && r.institution == data.institution
  {
    InscriptionRow(id, data.fullName, data.cpf, data.email, data.phone, data.city, data.state,
                   data.course, data.institution, AsFlag(data.accepted), now, 0, None, None, None)
  }

  /** `UPDATE inscriptions SET is_winner = 1, winner_modality, winner_institution, won_at WHERE id = ?` */
  function MarkRows(rows: seq<InscriptionRow>, id: int, modality: Option<string>, institution: Option<string>, now: nat)
    : (r: seq<InscriptionRow>)
    ensures |r| == |rows|
    ensures forall k :: 0 <= k < |rows| && rows[k].id != id ==> r[k] == rows[k]
    ensures forall k :: 0 <= k < |rows| && rows[k].id == id ==>
      r[k] == rows[k].(isWinner := 1, winnerModality := modality, winnerInstitution := institution, wonAt := Some(now))
  {
    if |rows| == 0 then []
    else
      var head := if rows[0].id == id
        then rows[0].(isWinner := 1, winnerModality := modality, winnerInstitution := institution, wonAt := Some(now))
        else rows[0];
      [head] + MarkRows(rows[1..], id, modality, institution, now)
  }

  /**
   * There is no already-won guard: marking a row a second time overwrites
   * the first marking entirely, as if the first had never happened.
   */
  lemma {:induction false} MarkTwiceOverwrites(rows: seq<InscriptionRow>, id: int,
                                               m1: Option<string>, i1: Option<string>, t1: nat,
                                               m2: Option<string>, i2: Option<string>, t2: nat)
    ensures MarkRows(MarkRows(rows, id, m1, i1, t1), id, m2, i2, t2) == MarkRows(rows, id, m2, i2, t2)
  {
    if |rows| > 0 {
      MarkTwiceOverwrites(rows[1..], id, m1, i1, t1, m2, i2, t2);
    }
  }

  /** `Inscription.findById`: the first row with that id, or null. */
  function FindById(rows: seq<InscriptionRow>, id: int): (r: Option<InscriptionRow>)
    ensures r.None? <==> forall k :: 0 <= k < |rows| ==> rows[k].id != id
    ensures r.Some? ==> r.value in rows && r.value.id == id
  {
    match FirstMatch(rows, (row: InscriptionRow) => row.id == id)
    case None => None
    case Some(k) => Some(rows[k])
  }

  /** Sort key for `ORDER BY created_at DESC` as an ascending key. */
  function CreatedDesc(row: InscriptionRow): int {
    -(row.createdAt as int)
  }

  /** `Inscription.findAll`: every row, newest first. */
  function FindAll(rows: seq<InscriptionRow>): (r: seq<InscriptionRow>)
    ensures multiset(r) == multiset(rows)
    ensures forall i, j :: 0 <= i < j < |r| ==> r[i].createdAt >= r[j].createdAt
  {
    var sorted := SortBy(rows, CreatedDesc);
    assert forall i, j :: 0 <= i < j < |sorted| ==> CreatedDesc(sorted[i]) <= CreatedDesc(sorted[j]);
    sorted
  }

  /** Sort key for `ORDER BY won_at ASC`; NULL sorts first. */
  function WonAtAsc(row: InscriptionRow): int {
    match row.wonAt
    case Some(t) => t
    case None => -1
  }

  predicate IsWinner(row: InscriptionRow) {
    row.isWinner == 1
  }

  /** `Inscription.getWinners`: exactly the rows with `is_winner = 1`, earliest win first. */
  function GetWinners(rows: seq<InscriptionRow>): (r: seq<InscriptionRow>)
    ensures forall row :: multiset(r)[row] == if IsWinner(row) then multiset(rows)[row] else 0
    ensures forall row :: row in r <==> row in rows && IsWinner(row)
    ensures forall i, j :: 0 <= i < j < |r| ==> WonAtAsc(r[i]) <= WonAtAsc(r[j])
  {
    var winners := Filter(rows, IsWinner);
    var sorted := SortBy(winners, WonAtAsc);
    SameMembers(sorted, winners);
    sorted
  }

  /** A row just marked as winner is listed by `getWinners` with the new modality, institution and time. */
  lemma MarkedRowIsListed(rows: seq<InscriptionRow>, k: nat, modality: Option<string>, institution: Option<string>, now: nat)
    requires k < |rows|
    ensures var marked := MarkRows(rows, rows[k].id, modality, institution, now);
      rows[k].(isWinner := 1, winnerModality := modality, winnerInstitution := institution, wonAt := Some(now))
        in GetWinners(marked)
  {
    var marked := MarkRows(rows, rows[k].id, modality, institution, now);
    assert marked[k] in marked;
  }

  /** The listing that the join produces for a winner and its inscription. */
  function ListingOf(w: WinnerRow, row: InscriptionRow): WinnerListing {
    WinnerListing(w, row.fullName, row.email)
  }

  /** `l` pairs its winner with some inscription of `rows` that the join condition matches. */
  ghost predicate JoinedIn(l: WinnerListing, rows: seq<InscriptionRow>) {
    exists row :: row in rows && row.id == l.winner.inscriptionId && ListingOf(l.winner, row) == l
  }

  lemma SameMembers<T>(a: seq<T>, b: seq<T>)
    requires multiset(a) == multiset(b)
    ensures forall x :: x in a <==> x in b
  {
    forall x ensures x in a <==> x in b {
      assert x in a <==> x in multiset(a);
      assert x in b <==> x in multiset(b);
    }
  }

  /** The listings for one winner: one per inscription the join condition matches. */
  function ListingsOf(w: WinnerRow, rows: seq<InscriptionRow>): (r: seq<WinnerListing>)
    ensures forall l :: l in r ==> l.winner == w && JoinedIn(l, rows)
    ensures forall row :: row in rows && row.id == w.inscriptionId ==> ListingOf(w, row) in r
  {
    if |rows| == 0 then []
    else
      var rest := ListingsOf(w, rows[1..]);
      assert forall row :: row in rows[1..] ==> row in rows;
      if rows[0].id == w.inscriptionId then [ListingOf(w, rows[0])] + rest else rest
  }

  /** `FROM winners w JOIN inscriptions i ON w.inscription_id = i.id`, one listing per matching pair. */
  function JoinWinners(ws: seq<WinnerRow>, rows: seq<InscriptionRow>): (r: seq<WinnerListing>)
    ensures forall l :: l in r ==> (l.winner in ws && JoinedIn(l, rows))
    ensures forall w, row :: w in ws && row in rows && row.id == w.inscriptionId ==> ListingOf(w, row) in r
  {
    if |ws| == 0 then []
    else
      assert ws == [ws[0]] + ws[1..];
      ListingsOf(ws[0], rows) + JoinWinners(ws[1..], rows)
  }

  /** With unique inscription ids a winner is joined to at most one inscription, and to none when no id matches. */
  lemma {:induction false} ListingsOfAtMostOne(w: WinnerRow, rows: seq<InscriptionRow>)
    requires UniqueInscriptionIds(rows)
    ensures |ListingsOf(w, rows)| <= 1
    ensures (forall row :: row in rows ==> row.id != w.inscriptionId) ==> ListingsOf(w, rows) == []
  {
    if |rows| > 0 {
      var rest := rows[1..];
      assert UniqueInscriptionIds(rest) by {
        forall i, j | 0 <= i < j < |rest| ensures rest[i].id != rest[j].id {
          assert rest[i] == rows[i + 1] && rest[j] == rows[j + 1];
        }
      }
      ListingsOfAtMostOne(w, rest);
      if rows[0].id == w.inscriptionId {
        forall row | row in rest ensures row.id != w.inscriptionId {
          var k :| 0 <= k < |rest| && rest[k] == row;
          assert rows[k + 1] == row;
        }
      } else {
        forall row | row in rest ensures row in rows {
          var k :| 0 <= k < |rest| && rest[k] == row;
          assert rows[k + 1] == row;
        }
      }
    }
  }

  /** No element of `s` occurs twice. */
  predicate Distinct<T(==)>(s: seq<T>) {
    forall i, j :: 0 <= i < j < |s| ==> s[i] != s[j]
  }

  /** With unique ids on both tables the join lists every matching pair exactly once. */
  lemma {:induction false} JoinListsPairsOnce(ws: seq<WinnerRow>, rows: seq<InscriptionRow>)
    requires UniqueWinnerIds(ws) && UniqueInscriptionIds(rows)
    ensures Distinct(JoinWinners(ws, rows))
  {
    if |ws| > 0 {
      var rest := ws[1..];
      assert UniqueWinnerIds(rest) by {
        forall i, j | 0 <= i < j < |rest| ensures rest[i].id != rest[j].id {
          assert rest[i] == ws[i + 1] && rest[j] == ws[j + 1];
        }
      }
      JoinListsPairsOnce(rest, rows);
      ListingsOfAtMostOne(ws[0], rows);
      var a := ListingsOf(ws[0], rows);
      var b := JoinWinners(rest, rows);
      var r := JoinWinners(ws, rows);
      assert r == a + b;
      forall i, j | 0 <= i < j < |r| ensures r[i] != r[j] {
        if j < |a| {
          assert false;
        } else if i < |a| {
          assert r[i] == a[i] && r[j] == b[j - |a|];
          assert r[i] in a && r[j] in b;
          assert r[i].winner == ws[0] && r[j].winner in rest;
          var k :| 0 <= k < |rest| && rest[k] == r[j].winner;
          assert ws[k + 1] == rest[k] && ws[0].id != ws[k + 1].id;
        } else {
          assert r[i] == b[i - |a|] && r[j] == b[j - |a|];
          assert Distinct(b);
        }
      }
    }
  }

  /** Sort key for `ORDER BY w.created_at DESC` as an ascending key. */
  function WinnerCreatedDesc(l: WinnerListing): int {
    -(l.winner.createdAt as int)
  }

  /**
   * `Winner.getAll`: the winners that have an inscription, each with that
   * inscription's name and email, newest winner first.
   */
  function GetAllWinners(ws: seq<WinnerRow>, rows: seq<InscriptionRow>): (r: seq<WinnerListing>)
    ensures forall l :: l in r ==> (l.winner in ws && JoinedIn(l, rows))
    ensures forall w, row :: w in ws && row in rows && row.id == w.inscriptionId ==> ListingOf(w, row) in r
    ensures forall i, j :: 0 <= i < j < |r| ==> r[i].winner.createdAt >= r[j].winner.createdAt
    ensures multiset(r) == multiset(JoinWinners(ws, rows))
  {
    var joined := JoinWinners(ws, rows);
    var sorted := SortBy(joined, WinnerCreatedDesc);
    SameMembers(sorted, joined);
    assert forall i, j :: 0 <= i < j < |sorted| ==> WinnerCreatedDesc(sorted[i]) <= WinnerCreatedDesc(sorted[j]);
    sorted
  }

  /** The tables behind the two models, with their AUTO_INCREMENT counters. */
  class Store {
    var inscriptions: seq<InscriptionRow>
    var winners: seq<WinnerRow>
    var nextInscriptionId: int
    var nextWinnerId: int

    ghost predicate Valid()
      reads this
    {
      && UniqueInscriptionIds(inscriptions)
      && (forall row :: row in inscriptions ==> row.id < nextInscriptionId)
      && UniqueWinnerIds(winners)
      && (forall w :: w in winners ==> w.id < nextWinnerId)
    }

    constructor ()
      ensures Valid() && inscriptions == [] && winners == []
      ensures nextInscriptionId == 1 && nextWinnerId == 1
    {
      inscriptions := [];
      winners := [];
      nextInscriptionId := 1;
      nextWinnerId := 1;
    }

    /** `Inscription.create`: append one row and return its id. */
    method CreateInscription(data: InscriptionData, now: nat) returns (id: int)
      requires Valid()
      modifies this
      ensures Valid()
      ensures id == old(nextInscriptionId) && nextInscriptionId == id + 1
      ensures inscriptions == old(inscriptions) + [NewInscriptionRow(data, id, now)]
      ensures winners == old(winners) && nextWinnerId == old(nextWinnerId)
      ensures forall row :: row in old(inscriptions) ==> row.id != id
    {
      id := nextInscriptionId;
      inscriptions := inscriptions + [NewInscriptionRow(data, id, now)];
      nextInscriptionId := nextInscriptionId + 1;
    }

    /** `Inscription.markAsWinner`: true exactly when a row with that id exists; no already-won guard. */
    method MarkAsWinner(id: int, modality: Option<string>, institution: Option<string>, now: nat) returns (updated: bool)
      requires Valid()
      modifies this
      ensures Valid()
      ensures updated <==> exists k :: 0 <= k < |old(inscriptions)| && old(inscriptions)[k].id == id
      ensures inscriptions == MarkRows(old(inscriptions), id, modality, institution, now)
      ensures winners == old(winners) && nextInscriptionId == old(nextInscriptionId) && nextWinnerId == old(nextWinnerId)
    {
      var found := FindById(inscriptions, id);
      var marked := MarkRows(inscriptions, id, modality, institution, now);
      assert forall k :: 0 <= k < |marked| ==> marked[k].id == inscriptions[k].id;
      assert forall row :: row in marked ==> row.id < nextInscriptionId by {
        forall row | row in marked ensures row.id < nextInscriptionId {
          var k :| 0 <= k < |marked| && marked[k] == row;
          assert inscriptions[k] in inscriptions;
        }
      }
      inscriptions := marked;
      updated := found.Some?;
    }

    /** `Winner.create`: append one row, with no duplicate check, and return its id. */
    method CreateWinner(inscriptionId: int, modality: Option<string>, institution: Option<string>, now: nat) returns (id: int)
      requires Valid()
      modifies this
      ensures Valid()
      ensures id == old(nextWinnerId) && nextWinnerId == id + 1
      ensures winners == old(winners) + [WinnerRow(id, inscriptionId, modality, institution, now)]
      ensures inscriptions == old(inscriptions) && nextInscriptionId == old(nextInscriptionId)
    {
      id := nextWinnerId;
      winners := winners + [WinnerRow(id, inscriptionId, modality, institution, now)];
      nextWinnerId := nextWinnerId + 1;
    }
  }

  /**
   * Marking the same inscription twice succeeds both times and keeps only
   * the second modality, institution and time.
   */
  method MarkTwice(store: Store, id: int, m1: Option<string>, i1: Option<string>, t1: nat,
                   m2: Option<string>, i2: Option<string>, t2: nat)
    returns (first: bool, second: bool)
    requires store.Valid()
    modifies store
    ensures store.Valid()
    ensures first == second
    ensures store.inscriptions == MarkRows(old(store.inscriptions), id, m2, i2, t2)
  {
    ghost var before := store.inscriptions;
    first := store.MarkAsWinner(id, m1, i1, t1);
    second := store.MarkAsWinner(id, m2, i2, t2);
    MarkTwiceOverwrites(before, id, m1, i1, t1, m2, i2, t2);
  }

  /** Two `Winner.create` calls for one inscription give two rows, and `getAll` lists both. */
  method DuplicateWinnerScenario() returns (listed: seq<WinnerListing>, first: WinnerRow, second: WinnerRow)
    ensures first != second && first.inscriptionId == second.inscriptionId
    ensures WinnerListing(first, Some("Ana Silva"), Some("ana@x.com")) in listed
    ensures WinnerListing(second, Some("Ana Silva"), Some("ana@x.com")) in listed
  {
    var store := new Store();
    var data := InscriptionData(Some("Ana Silva"), Some("52998224725"), Some("ana@x.com"), None,
                                Some("Recife"), Some("PE"), Some("Medicina"), Some("UFPE"), Bool(true));
    var inscription := store.CreateInscription(data, 10);
    var firstId := store.CreateWinner(inscription, Some("Integral"), Some("UFPE"), 20);
    var secondId := store.CreateWinner(inscription, Some("Parcial"), Some("UFPE"), 30);
    first := store.winners[0];
    second := store.winners[1];
    assert first.id == firstId && second.id == secondId;
    var row := store.inscriptions[0];
    listed := GetAllWinners(store.winners, store.inscriptions);
    assert first in store.winners && second in store.winners && row in store.inscriptions;
    assert ListingOf(first, row) in listed && ListingOf(second, row) in listed;
  }
}
