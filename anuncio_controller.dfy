/**
 * The listing handlers (src/controllers/anuncioController.ts). The caller id
 * comes from the route parameters (`req.params.userId`, and `req.params.userID`
 * in `deleteAnuncio`) and is compared as a string with the row's `ownerId`.
 */
module AnuncioController {
  import opened Wrappers
  import opened Http
  import opened Store

  const MsgIdRequired := "O ID do anúncio é obrigatório."
  const MsgUnauthenticated := "Usuário não autenticado."
  const MsgNotFound := "Anúncio não encontrado"
  const MsgForbidden := "Acesso negado. Você não é o dono deste anúncio."
  const MsgDeleted := "Anúncio deletado com sucesso."

  /** The listing fields read from the request body. */
  datatype AnuncioBody = AnuncioBody(titulo: JsonField, autor: JsonField, descricao: JsonField,
                                     tipo: JsonField, condicao: JsonField, preco: JsonField,
                                     publicado: JsonField)

  /** The row `createAnuncio` inserts: the body's fields and the caller as owner. */
  function NewAnuncio(key: string, body: AnuncioBody, owner: string): (a: Anuncio)
    ensures a.id == key && a.ownerId == owner
    ensures a.titulo == Nullable(body.titulo) && a.autor == Nullable(body.autor)
    ensures a.descricao == Nullable(body.descricao) && a.tipo == Nullable(body.tipo)
    ensures a.condicao == Nullable(body.condicao) && a.preco == Nullable(body.preco)
    ensures a.publicado == None
  {
    Anuncio(key, Nullable(body.titulo), Nullable(body.autor), Nullable(body.descricao),
            Nullable(body.tipo), Nullable(body.condicao), Nullable(body.preco), None, owner)
  }

  /**
   * The row `updateAnuncio` writes: each body field that is present replaces the
   * column, each absent one leaves it; `id` and `ownerId` are not in the patch.
   */
  function ApplyPatch(a: Anuncio, body: AnuncioBody): (r: Anuncio)
    ensures r.id == a.id && r.ownerId == a.ownerId
    ensures body.titulo.Undefined? ==> r.titulo == a.titulo
    ensures body.autor.Undefined? ==> r.autor == a.autor
    ensures body.descricao.Undefined? ==> r.descricao == a.descricao
    ensures body.tipo.Undefined? ==> r.tipo == a.tipo
    ensures body.condicao.Undefined? ==> r.condicao == a.condicao
    ensures body.preco.Undefined? ==> r.preco == a.preco
    ensures body.publicado.Undefined? ==> r.publicado == a.publicado
    ensures !body.titulo.Undefined? ==> r.titulo == Nullable(body.titulo)
    ensures !body.autor.Undefined? ==> r.autor == Nullable(body.autor)
    ensures !body.descricao.Undefined? ==> r.descricao == Nullable(body.descricao)
    ensures !body.tipo.Undefined? ==> r.tipo == Nullable(body.tipo)
    ensures !body.condicao.Undefined? ==> r.condicao == Nullable(body.condicao)
    ensures !body.preco.Undefined? ==> r.preco == Nullable(body.preco)
    ensures !body.publicado.Undefined? ==> r.publicado == Nullable(body.publicado)
  {
    a.(titulo := Patch(a.titulo, body.titulo), autor := Patch(a.autor, body.autor),
       descricao := Patch(a.descricao, body.descricao), tipo := Patch(a.tipo, body.tipo),
       condicao := Patch(a.condicao, body.condicao), preco := Patch(a.preco, body.preco),
       publicado := Patch(a.publicado, body.publicado))
  }

  /** Sending the same update twice leaves the row as sending it once. */
  lemma ApplyPatchIdempotent(a: Anuncio, body: AnuncioBody)
    ensures ApplyPatch(ApplyPatch(a, body), body) == ApplyPatch(a, body)
  {
  }

  /** An update whose body names no field writes nothing. */
  lemma EmptyPatchIsIdentity(a: Anuncio)
    ensures ApplyPatch(a, AnuncioBody(Undefined, Undefined, Undefined, Undefined, Undefined,
                                      Undefined, Undefined)) == a
  {
  }

  /**
   * The guard chain shared by `updateAnuncio` and `deleteAnuncio`: 400 without a
   * listing id, 401 without a caller, then the lookup (404), then the ownership
   * comparison (403).
   */
  function OwnerGate(anuncios: map<string, Anuncio>, anuncioID: Option<string>,
                     userId: Option<string>): (g: Gate)
    ensures g == Reject(400, MsgIdRequired) <==> !Truthy(anuncioID)
    ensures g == Reject(401, MsgUnauthenticated) <==> Truthy(anuncioID) && !Truthy(userId)
    ensures g == Reject(404, MsgNotFound) <==>
              Truthy(anuncioID) && Truthy(userId) && anuncioID.value !in anuncios
    ensures g == Reject(403, MsgForbidden) <==>
              Truthy(anuncioID) && Truthy(userId) && anuncioID.value in anuncios
              && anuncios[anuncioID.value].ownerId != userId.value
    ensures g.Pass? <==>
              Truthy(anuncioID) && Truthy(userId) && anuncioID.value in anuncios
              && anuncios[anuncioID.value].ownerId == userId.value
  {
    if !Truthy(anuncioID) then Reject(400, MsgIdRequired)
    else if !Truthy(userId) then Reject(401, MsgUnauthenticated)
    else if anuncioID.value !in anuncios then Reject(404, MsgNotFound)
    else if anuncios[anuncioID.value].ownerId != userId.value then Reject(403, MsgForbidden)
    else Pass
  }

  /** 400 and 401 are decided before the lookup: the table does not matter to them. */
  lemma GuardsBeforeLookup(t1: map<string, Anuncio>, t2: map<string, Anuncio>,
                                              anuncioID: Option<string>, userId: Option<string>)
    requires !Truthy(anuncioID) || !Truthy(userId)
    ensures OwnerGate(t1, anuncioID, userId) == OwnerGate(t2, anuncioID, userId)
  {
  }

  /** 404 is decided before ownership: every caller sees the same answer for a missing row. */
  lemma NotFoundForEveryCaller(t: map<string, Anuncio>, anuncioID: string,
                                                  u1: string, u2: string)
    requires anuncioID != [] && u1 != [] && u2 != [] && anuncioID !in t
    ensures OwnerGate(t, Some(anuncioID), Some(u1)) == OwnerGate(t, Some(anuncioID), Some(u2))
  {
  }

  /** `getAllAnuncios`: every listing, active or not, each once. */
  method GetAllAnuncios(db: Database) returns (r: Reply<seq<Anuncio>>)
    requires db.Valid()
    ensures r.Ok? && r.status == 200
    ensures forall a :: multiset(r.value)[a] == (if a in db.anuncios.Values then 1 else 0)
  {
    db.RowsAreDistinct();
    var rows := SelectRows(db.anuncios, (a: Anuncio) => true);
    r := Ok(200, rows);
  }

  /** `getAnuncioById`: 400 without an id, before any lookup; 404 for a missing row; else the row. */
  method GetAnuncioById(db: Database, anuncioID: Option<string>) returns (r: Reply<Anuncio>)
    ensures !Truthy(anuncioID) ==> r == Err(400, MsgIdRequired)
    ensures Truthy(anuncioID) && anuncioID.value !in db.anuncios ==> r == Err(404, MsgNotFound)
    ensures Truthy(anuncioID) && anuncioID.value in db.anuncios ==>
              r == Ok(200, db.anuncios[anuncioID.value])
  {
    if !Truthy(anuncioID) {
      return Err(400, MsgIdRequired);
    }
    if anuncioID.value !in db.anuncios {
      return Err(404, MsgNotFound);
    }
    r := Ok(200, db.anuncios[anuncioID.value]);
  }

  /**
   * `createAnuncio`: 401 without a caller and no insert; otherwise one new row,
   * owned by the caller, under the id `key` the store generates.
   */
  method CreateAnuncio(db: Database, userId: Option<string>, body: AnuncioBody, key: string)
    returns (r: Reply<Anuncio>)
    requires db.Valid() && key !in db.anuncios
    modifies db`anuncios
    ensures db.Valid()
    ensures !Truthy(userId) ==> r == Err(401, MsgUnauthenticated) && db.anuncios == old(db.anuncios)
    ensures Truthy(userId) ==> r == Ok(201, NewAnuncio(key, body, userId.value))
                               && r.value.ownerId == userId.value
                               && db.anuncios == old(db.anuncios)[key := r.value]
  {
    if !Truthy(userId) {
      return Err(401, MsgUnauthenticated);
    }
    var row := NewAnuncio(key, body, userId.value);
    db.anuncios := db.anuncios[key := row];
    r := Ok(201, row);
  }

  /**
   * `updateAnuncio`: the guard chain, then the patch on the one target row. A
   * rejected request changes nothing; no update changes any listing's owner.
   */
  method UpdateAnuncio(db: Database, anuncioID: Option<string>, userId: Option<string>,
                       body: AnuncioBody) returns (r: Reply<Anuncio>)
    requires db.Valid()
    modifies db`anuncios
    ensures db.Valid()
    ensures var g := OwnerGate(old(db.anuncios), anuncioID, userId);
            g.Reject? ==> r == Refuse(g) && db.anuncios == old(db.anuncios)
    ensures OwnerGate(old(db.anuncios), anuncioID, userId).Pass? ==>
              var k := anuncioID.value;
              r == Ok(200, ApplyPatch(old(db.anuncios)[k], body))
              && db.anuncios == old(db.anuncios)[k := r.value]
    ensures db.anuncios.Keys == old(db.anuncios).Keys
    ensures forall k :: k in db.anuncios ==> db.anuncios[k].ownerId == old(db.anuncios)[k].ownerId
  {
    var g := OwnerGate(db.anuncios, anuncioID, userId);
    if g.Reject? {
      return Refuse(g);
    }
    var k := anuncioID.value;
    var row := ApplyPatch(db.anuncios[k], body);
    db.anuncios := db.anuncios[k := row];
    r := Ok(200, row);
  }

  /**
   * `deleteAnuncio`: the guard chain, then removal of exactly the target row; its
   * ratings and comments are not touched (no cascade).
   */
  method DeleteAnuncio(db: Database, id: Option<string>, userID: Option<string>)
    returns (r: Reply<Deleted<Anuncio>>)
    requires db.Valid()
    modifies db`anuncios
    ensures db.Valid()
    ensures var g := OwnerGate(old(db.anuncios), id, userID);
            g.Reject? ==> r == Refuse(g) && db.anuncios == old(db.anuncios)
    ensures OwnerGate(old(db.anuncios), id, userID).Pass? ==>
              r == Ok(200, Deleted(MsgDeleted, old(db.anuncios)[id.value]))
              && db.anuncios == old(db.anuncios) - {id.value}
  {
    var g := OwnerGate(db.anuncios, id, userID);
    if g.Reject? {
      return Refuse(g);
    }
    var row := db.anuncios[id.value];
    db.anuncios := db.anuncios - {id.value};
    r := Ok(200, Deleted(MsgDeleted, row));
  }
}
