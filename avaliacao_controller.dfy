/**
 * The rating handlers (src/controllers/avaliacaoController.ts). The caller id is
 * the `req.userId` the authentication gate attached, converted with `Number`;
 * a caller id that is not a number (NaN) differs from every stored owner.
 */
module AvaliacaoController {
  import opened Wrappers
  import opened Http
  import opened NumericId
  import opened Store
  import opened Guards

  const MsgRequired := "Campos obrigatórios: avaliacao, anuncioId"
  const MsgDuplicate := "Você já avaliou este anúncio."
  const MsgBadId := "ID da avaliação inválido."
  const MsgNotFound := "Avaliação não encontrada"
  const MsgDeleted := "Avaliação deletada com sucesso"

  /** The owner of a rating. */
  function RatingOwner(a: Avaliacao): int
  {
    a.usuarioId
  }

  /** The guards of `createAvaliacao`; `avaliacao` is the required field. */
  function CreateRatingGate(userId: Option<string>, avaliacao: JsonField, anuncioId: JsonField): Gate
  {
    CreateGate(userId, avaliacao, anuncioId, MsgRequired)
  }

  /** The guards of `updateAvaliacao` and `deleteAvaliacao`. */
  function RatingGate(avaliacoes: map<int, Avaliacao>, userId: Option<string>, id: string): Gate
  {
    OwnerGate(avaliacoes, RatingOwner, userId, id, MsgBadId, MsgNotFound)
  }

  /** The row `updateAvaliacao` writes: `avaliacao` and `comentario` when present, nothing else. */
  function ApplyPatch(a: Avaliacao, avaliacao: JsonField, comentario: JsonField): (r: Avaliacao)
    ensures r.id == a.id && r.usuarioId == a.usuarioId && r.anuncioId == a.anuncioId
    ensures avaliacao.Undefined? ==> r.avaliacao == a.avaliacao
    ensures comentario.Undefined? ==> r.comentario == a.comentario
    ensures !avaliacao.Undefined? ==> r.avaliacao == Nullable(avaliacao)
    ensures !comentario.Undefined? ==> r.comentario == Nullable(comentario)
  {
    a.(avaliacao := Patch(a.avaliacao, avaliacao), comentario := Patch(a.comentario, comentario))
  }

  /**
   * `createAvaliacao`: the guards, then an insert. A second rating of the same
   * listing by the same user is refused with 409 (the unique index), and the
   * table keeps its single row for that pair.
   */
  method CreateAvaliacao(db: Database, userId: Option<string>, avaliacao: JsonField,
                         comentario: JsonField, anuncioId: JsonField) returns (r: Reply<Avaliacao>)
    requires db.Valid()
    modifies db`avaliacoes, db`nextAvaliacaoId
    ensures db.Valid()
    ensures var g := CreateRatingGate(userId, avaliacao, anuncioId);
            g.Reject? ==> r == Refuse(g) && db.avaliacoes == old(db.avaliacoes)
    ensures CreateRatingGate(userId, avaliacao, anuncioId).Pass? ==>
              var u := ToNumber(userId.value).value;
              var l := ToNumber(anuncioId.text).value;
              if PairTaken(old(db.avaliacoes), u, l) then
                r == Err(409, MsgDuplicate) && db.avaliacoes == old(db.avaliacoes)
              else
                r == Ok(201, Avaliacao(old(db.nextAvaliacaoId), Some(avaliacao.text),
                                       Nullable(comentario), u, l))
                && r.value.id !in old(db.avaliacoes)
                && db.avaliacoes == old(db.avaliacoes)[r.value.id := r.value]
  {
    var g := CreateRatingGate(userId, avaliacao, anuncioId);
    if g.Reject? {
      return Refuse(g);
    }
    var u := ToNumber(userId.value).value;
    var l := ToNumber(anuncioId.text).value;
    if k :| k in db.avaliacoes && db.avaliacoes[k].usuarioId == u && db.avaliacoes[k].anuncioId == l {
      // the insert violates the unique index (P2002)
      return Err(409, MsgDuplicate);
    }
    var row := Avaliacao(db.nextAvaliacaoId, Some(avaliacao.text), Nullable(comentario), u, l);
    db.avaliacoes := db.avaliacoes[row.id := row];
    db.nextAvaliacaoId := db.nextAvaliacaoId + 1;
    r := Ok(201, row);
  }

  /** `updateAvaliacao`: the guards, then the field-by-field patch of the one target row. */
  method UpdateAvaliacao(db: Database, userId: Option<string>, id: string,
                         avaliacao: JsonField, comentario: JsonField) returns (r: Reply<Avaliacao>)
    requires db.Valid()
    modifies db`avaliacoes
    ensures db.Valid()
    ensures var g := RatingGate(old(db.avaliacoes), userId, id);
            g.Reject? ==> r == Refuse(g) && db.avaliacoes == old(db.avaliacoes)
    ensures RatingGate(old(db.avaliacoes), userId, id).Pass? ==>
              var k := ToNumber(id).value;
              r == Ok(200, ApplyPatch(old(db.avaliacoes)[k], avaliacao, comentario))
              && db.avaliacoes == old(db.avaliacoes)[k := r.value]
  {
    var g := RatingGate(db.avaliacoes, userId, id);
    if g.Reject? {
      return Refuse(g);
    }
    var k := ToNumber(id).value;
    var row := ApplyPatch(db.avaliacoes[k], avaliacao, comentario);
    db.avaliacoes := db.avaliacoes[k := row];
    r := Ok(200, row);
  }

  /** `deleteAvaliacao`: the guards, then removal of exactly the target row. */
  method DeleteAvaliacao(db: Database, userId: Option<string>, id: string)
    returns (r: Reply<Deleted<Avaliacao>>)
    requires db.Valid()
    modifies db`avaliacoes
    ensures db.Valid()
    ensures var g := RatingGate(old(db.avaliacoes), userId, id);
            g.Reject? ==> r == Refuse(g) && db.avaliacoes == old(db.avaliacoes)
    ensures RatingGate(old(db.avaliacoes), userId, id).Pass? ==>
              var k := ToNumber(id).value;
              r == Ok(200, Deleted(MsgDeleted, old(db.avaliacoes)[k]))
              && db.avaliacoes == old(db.avaliacoes) - {k}
  {
    var g := RatingGate(db.avaliacoes, userId, id);
    if g.Reject? {
      return Refuse(g);
    }
    var k := ToNumber(id).value;
    var row := db.avaliacoes[k];
    db.avaliacoes := db.avaliacoes - {k};
    r := Ok(200, Deleted(MsgDeleted, row));
  }

  /** `listByAnuncio`: 400 for a non-numeric listing id; else exactly the ratings of that listing. */
  method ListByAnuncio(db: Database, anuncioId: string) returns (r: Reply<seq<Avaliacao>>)
    requires db.Valid()
    ensures ToNumber(anuncioId).None? ==> r == Err(400, MsgBadAnuncioId)
    ensures ToNumber(anuncioId).Some? ==> r.Ok? && r.status == 200
    ensures r.Ok? ==>
              var n := ToNumber(anuncioId).value;
              forall a :: multiset(r.value)[a] == (if a in db.avaliacoes.Values && a.anuncioId == n then 1 else 0)
  {
    var n := ToNumber(anuncioId);
    if n.None? {
      return Err(400, MsgBadAnuncioId);
    }
    db.RowsAreDistinct();
    var rows := SelectRows(db.avaliacoes, (a: Avaliacao) => a.anuncioId == n.value);
    r := Ok(200, rows);
  }
}
