/**
 * The comment handlers (src/controllers/comentarioController.ts): the same
 * ownership-gated protocol as ratings, with the text as the only writable
 * field, and a per-listing listing ordered newest first.
 */
module ComentarioController {
  import opened Wrappers
  import opened Http
  import opened NumericId
  import opened Store
  import opened Guards

  const MsgRequired := "Campos obrigatórios: texto, anuncioId"
  const MsgBadId := "ID do comentário inválido."
  const MsgTextoRequired := "Campo obrigatório: texto"
  const MsgNotFound := "Comentário não encontrado"
  const MsgDeleted := "Comentário deletado com sucesso"

  /** The author of a comment. */
  function CommentOwner(c: Comentario): int
  {
    c.usuarioId
  }

  /** The guards of `createComentario`; `texto` is the required field. */
  function CreateCommentGate(userId: Option<string>, texto: JsonField, anuncioId: JsonField): Gate
  {
    CreateGate(userId, texto, anuncioId, MsgRequired)
  }

  /** The guards of `deleteComentario`. */
  function CommentGate(comentarios: map<int, Comentario>, userId: Option<string>, id: string): Gate
  {
    OwnerGate(comentarios, CommentOwner, userId, id, MsgBadId, MsgNotFound)
  }

  /**
   * The guards of `updateComentario`: those of `deleteComentario`, with a 400 for
   * a missing `texto` between the id check and the lookup.
   */
  function UpdateGate(comentarios: map<int, Comentario>, userId: Option<string>, id: string,
                      texto: JsonField): (g: Gate)
    ensures g == Reject(400, MsgTextoRequired) <==> texto.Undefined? && Truthy(userId) && ToNumber(id).Some?
    ensures !(texto.Undefined? && Truthy(userId) && ToNumber(id).Some?) ==> g == CommentGate(comentarios, userId, id)
    ensures g.Pass? ==> !texto.Undefined? && CommentGate(comentarios, userId, id).Pass?
  {
    if Truthy(userId) && ToNumber(id).Some? && texto.Undefined? then Reject(400, MsgTextoRequired)
    else CommentGate(comentarios, userId, id)
  }

  /** A missing `texto` is refused whatever the table holds: it is checked before the lookup. */
  lemma TextoCheckedBeforeLookup(t1: map<int, Comentario>, t2: map<int, Comentario>,
                                                    userId: Option<string>, id: string)
    ensures UpdateGate(t1, userId, id, Undefined) == UpdateGate(t2, userId, id, Undefined)
  {
  }

  /** Newest first: `criadoEm` never increases along the sequence. */
  ghost predicate NewestFirst(s: seq<Comentario>)
  {
    forall i, j :: 0 <= i < j < |s| ==> s[i].criadoEm >= s[j].criadoEm
  }

  /** A newest-first sequence stays so with an element in front no older than its head. */
  lemma ConsNewestFirst(x: Comentario, t: seq<Comentario>)
    requires NewestFirst(t)
    requires t != [] ==> x.criadoEm >= t[0].criadoEm
    ensures NewestFirst([x] + t)
  {
    var u := [x] + t;
    forall i, j | 0 <= i < j < |u|
      ensures u[i].criadoEm >= u[j].criadoEm
    {
      if i == 0 {
        assert u[j] == t[j - 1];
        assert t[0].criadoEm >= t[j - 1].criadoEm || j == 1;
      } else {
        assert u[i] == t[i - 1] && u[j] == t[j - 1];
      }
    }
  }

  /** Places `c` into a newest-first sequence; the result starts with `c` or with the old head. */
  function Insert(c: Comentario, s: seq<Comentario>): (r: seq<Comentario>)
    requires NewestFirst(s)
    ensures NewestFirst(r)
    ensures multiset(r) == multiset(s) + multiset{c}
    ensures r[0] == c || (s != [] && r[0] == s[0])
  {
    if s == [] || c.criadoEm >= s[0].criadoEm then
      ConsNewestFirst(c, s);
      [c] + s
    else
      assert s == [s[0]] + s[1..];
      assert NewestFirst(s[1..]) by {
        forall i, j | 0 <= i < j < |s[1..]|
          ensures s[1..][i].criadoEm >= s[1..][j].criadoEm
        {
          assert s[1..][i] == s[i + 1] && s[1..][j] == s[j + 1];
        }
      }
      var rest := Insert(c, s[1..]);
      assert rest[0] == c || rest[0] == s[1];
      ConsNewestFirst(s[0], rest);
      [s[0]] + rest
  }

  /** `orderBy: { criadoEm: 'desc' }`: the same comments, newest first. */
  function SortNewestFirst(s: seq<Comentario>): (r: seq<Comentario>)
    ensures NewestFirst(r)
    ensures multiset(r) == multiset(s)
  {
    if s == [] then []
    else
      assert s == [s[0]] + s[1..];
      Insert(s[0], SortNewestFirst(s[1..]))
  }

  /**
   * `createComentario`: the guards, then an insert carrying the caller's numeric
   * id, the numeric listing id and the creation time `now`.
   */
  method CreateComentario(db: Database, userId: Option<string>, texto: JsonField, anuncioId: JsonField,
                          now: int) returns (r: Reply<Comentario>)
    requires db.Valid()
    modifies db`comentarios, db`nextComentarioId
    ensures db.Valid()
    ensures var g := CreateCommentGate(userId, texto, anuncioId);
            g.Reject? ==> r == Refuse(g) && db.comentarios == old(db.comentarios)
    ensures CreateCommentGate(userId, texto, anuncioId).Pass? ==>
              r == Ok(201, Comentario(old(db.nextComentarioId), Some(texto.text),
                                      ToNumber(userId.value).value, ToNumber(anuncioId.text).value, now))
              && r.value.id !in old(db.comentarios)
              && db.comentarios == old(db.comentarios)[r.value.id := r.value]
  {
    var g := CreateCommentGate(userId, texto, anuncioId);
    if g.Reject? {
      return Refuse(g);
    }
    var row := Comentario(db.nextComentarioId, Some(texto.text), ToNumber(userId.value).value,
                          ToNumber(anuncioId.text).value, now);
    db.comentarios := db.comentarios[row.id := row];
    db.nextComentarioId := db.nextComentarioId + 1;
    r := Ok(201, row);
  }

  /** `updateComentario`: the guards, then `texto` is the only column written. */
  method UpdateComentario(db: Database, userId: Option<string>, id: string, texto: JsonField)
    returns (r: Reply<Comentario>)
    requires db.Valid()
    modifies db`comentarios
    ensures db.Valid()
    ensures var g := UpdateGate(old(db.comentarios), userId, id, texto);
            g.Reject? ==> r == Refuse(g) && db.comentarios == old(db.comentarios)
    ensures UpdateGate(old(db.comentarios), userId, id, texto).Pass? ==>
              var k := ToNumber(id).value;
              r == Ok(200, old(db.comentarios)[k].(texto := Nullable(texto)))
              && db.comentarios == old(db.comentarios)[k := r.value]
  {
    var g := UpdateGate(db.comentarios, userId, id, texto);
    if g.Reject? {
      return Refuse(g);
    }
    var k := ToNumber(id).value;
    var row := db.comentarios[k].(texto := Nullable(texto));
    db.comentarios := db.comentarios[k := row];
    r := Ok(200, row);
  }

  /** `deleteComentario`: the guards, then removal of exactly the target row. */
  method DeleteComentario(db: Database, userId: Option<string>, id: string)
    returns (r: Reply<Deleted<Comentario>>)
    requires db.Valid()
    modifies db`comentarios
    ensures db.Valid()
    ensures var g := CommentGate(old(db.comentarios), userId, id);
            g.Reject? ==> r == Refuse(g) && db.comentarios == old(db.comentarios)
    ensures CommentGate(old(db.comentarios), userId, id).Pass? ==>
              var k := ToNumber(id).value;
              r == Ok(200, Deleted(MsgDeleted, old(db.comentarios)[k]))
              && db.comentarios == old(db.comentarios) - {k}
  {
    var g := CommentGate(db.comentarios, userId, id);
    if g.Reject? {
      return Refuse(g);
    }
    var k := ToNumber(id).value;
    var row := db.comentarios[k];
    db.comentarios := db.comentarios - {k};
    r := Ok(200, Deleted(MsgDeleted, row));
  }

  /**
   * `listByAnuncio`: 400 for a non-numeric listing id; else exactly the comments
   * of that listing, each once, newest first.
   */
  method ListByAnuncio(db: Database, anuncioId: string) returns (r: Reply<seq<Comentario>>)
    requires db.Valid()
    ensures ToNumber(anuncioId).None? ==> r == Err(400, MsgBadAnuncioId)
    ensures ToNumber(anuncioId).Some? ==> r.Ok? && r.status == 200
    ensures r.Ok? ==> NewestFirst(r.value)
    ensures r.Ok? ==>
              var n := ToNumber(anuncioId).value;
              forall c :: multiset(r.value)[c] == (if c in db.comentarios.Values && c.anuncioId == n then 1 else 0)
  {
    var n := ToNumber(anuncioId);
    if n.None? {
      return Err(400, MsgBadAnuncioId);
    }
    db.RowsAreDistinct();
    var rows := SelectRows(db.comentarios, (c: Comentario) => c.anuncioId == n.value);
    r := Ok(200, SortNewestFirst(rows));
  }
}
