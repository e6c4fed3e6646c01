/**
 * The account handlers (src/controllers/userController.ts): reading, renaming
 * and deleting the caller's own user row. The caller id is the `req.userId`
 * attached by the authentication gate, converted with `Number`.
 */
module UserController {
  import opened Wrappers
  import opened Http
  import opened NumericId
  import opened Store
  import opened Guards

  const MsgNotFound := "Usuário não encontrado."
  const MsgUpdated := "Usuário atualizado com sucesso."
  const MsgDeleted := "Usuário deletado com sucesso."
  /** The 500 message of both `editMe` and `deleteMe`. */
  const MsgFailed := "Erro ao deletar usuário e seus dados."

  /** `getMe`: the guards, 404 for a missing row, else the row without its password hash. */
  method GetMe(db: Database, userId: Option<string>) returns (r: Reply<PublicUser>)
    ensures CallerGate(userId).Reject? ==> r == Refuse(CallerGate(userId))
    ensures CallerGate(userId).Pass? ==>
              var id := ToNumber(userId.value).value;
              if id in db.usuarios then r == Ok(200, Public(db.usuarios[id]))
              else r == Err(404, MsgNotFound)
  {
    var g := CallerGate(userId);
    if g.Reject? {
      return Refuse(g);
    }
    var id := ToNumber(userId.value).value;
    if id !in db.usuarios {
      return Err(404, MsgNotFound);
    }
    r := Ok(200, Public(db.usuarios[id]));
  }

  /**
   * `editMe`: the guards, then `update({ where: { id }, data: { nome } })`: the
   * caller's `nome` is patched and nothing else is written. Updating a missing
   * row fails in the store (P2025) and answers 500.
   */
  method EditMe(db: Database, userId: Option<string>, nome: JsonField) returns (r: Reply<string>)
    requires db.Valid()
    modifies db`usuarios
    ensures db.Valid()
    ensures CallerGate(userId).Reject? ==> r == Refuse(CallerGate(userId)) && db.usuarios == old(db.usuarios)
    ensures CallerGate(userId).Pass? ==>
              var id := ToNumber(userId.value).value;
              if id in old(db.usuarios) then
                r == Ok(200, MsgUpdated)
                && db.usuarios == old(db.usuarios)[id := old(db.usuarios)[id].(nome := Patch(old(db.usuarios)[id].nome, nome))]
              else
                r == Err(500, MsgFailed) && db.usuarios == old(db.usuarios)
  {
    var g := CallerGate(userId);
    if g.Reject? {
      return Refuse(g);
    }
    var id := ToNumber(userId.value).value;
    if id !in db.usuarios {
      return Err(500, MsgFailed);
    }
    var row := db.usuarios[id];
    db.usuarios := db.usuarios[id := row.(nome := Patch(row.nome, nome))];
    r := Ok(200, MsgUpdated);
  }

  /** `avaliacao.deleteMany({ where: { usuarioId: id } })`. */
  function RatingsWithout(m: map<int, Avaliacao>, id: int): (r: map<int, Avaliacao>)
    ensures forall k :: k in r <==> k in m && m[k].usuarioId != id
    ensures forall k :: k in r ==> r[k] == m[k]
  {
    Without(m, (a: Avaliacao) => a.usuarioId == id)
  }

  /** `comentario.deleteMany({ where: { usuarioId: id } })`. */
  function CommentsWithout(m: map<int, Comentario>, id: int): (r: map<int, Comentario>)
    ensures forall k :: k in r <==> k in m && m[k].usuarioId != id
    ensures forall k :: k in r ==> r[k] == m[k]
  {
    Without(m, (c: Comentario) => c.usuarioId == id)
  }

  /** `anuncio.deleteMany({ where: { usuarioId: id } })`: the listings the user owns. */
  function ListingsWithout(m: map<string, Anuncio>, id: int): (r: map<string, Anuncio>)
    ensures forall k :: k in r <==> k in m && !ListingOf(m[k], id)
    ensures forall k :: k in r ==> r[k] == m[k]
  {
    Without(m, (a: Anuncio) => ListingOf(a, id))
  }

  /**
   * `deleteMe`: the guards, then one transaction that deletes the caller's
   * ratings, comments and listings and finally the user row. When the user row
   * is missing the last step fails, the transaction rolls back, and the answer
   * is 500 with every table as it was.
   */
  method DeleteMe(db: Database, userId: Option<string>) returns (r: Reply<string>)
    requires db.Valid()
    modifies db`usuarios, db`anuncios, db`avaliacoes, db`comentarios
    ensures db.Valid()
    ensures CallerGate(userId).Reject? ==>
              r == Refuse(CallerGate(userId))
              && db.usuarios == old(db.usuarios) && db.anuncios == old(db.anuncios)
              && db.avaliacoes == old(db.avaliacoes) && db.comentarios == old(db.comentarios)
    ensures CallerGate(userId).Pass? ==>
              var id := ToNumber(userId.value).value;
              if id in old(db.usuarios) then
                r == Ok(200, MsgDeleted)
                && db.usuarios == old(db.usuarios) - {id}
                && db.avaliacoes == RatingsWithout(old(db.avaliacoes), id)
                && db.comentarios == CommentsWithout(old(db.comentarios), id)
                && db.anuncios == ListingsWithout(old(db.anuncios), id)
              else
                r == Err(500, MsgFailed)
                && db.usuarios == old(db.usuarios) && db.anuncios == old(db.anuncios)
                && db.avaliacoes == old(db.avaliacoes) && db.comentarios == old(db.comentarios)
  {
    var g := CallerGate(userId);
    if g.Reject? {
      return Refuse(g);
    }
    var id := ToNumber(userId.value).value;
    var savedAnuncios, savedAvaliacoes, savedComentarios := db.anuncios, db.avaliacoes, db.comentarios;
    db.avaliacoes := RatingsWithout(db.avaliacoes, id);
    db.comentarios := CommentsWithout(db.comentarios, id);
    db.anuncios := ListingsWithout(db.anuncios, id);
    if id !in db.usuarios {
      // `usuario.delete` fails (P2025): the transaction rolls back
      db.anuncios, db.avaliacoes, db.comentarios := savedAnuncios, savedAvaliacoes, savedComentarios;
      return Err(500, MsgFailed);
    }
    db.usuarios := db.usuarios - {id};
    r := Ok(200, MsgDeleted);
  }
}
