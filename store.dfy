/**
 * The relational store behind the controllers, as four in-memory tables keyed
 * by primary key, plus the queries the controllers issue against them
 * (`findMany` with a `where` filter, `deleteMany`). Users, ratings and comments
 * have autoincrement integer ids; listings are keyed by the string id the
 * listing controller passes straight to the store.
 */
module Store {
  import opened Wrappers
  import opened NumericId

  /** A `usuario` row; `senha` holds the password hash. */
  datatype Usuario = Usuario(id: int, nome: Option<string>, email: string, senha: string,
                             criadoEm: int, atualizadoEm: int)

  /** The fields of a user that responses may show: everything but `senha`. */
  datatype PublicUser = PublicUser(id: int, nome: Option<string>, email: string,
                                   criadoEm: int, atualizadoEm: int)

  /** An `anuncio` row; `ownerId` is the owner as the listing controller writes it. */
  datatype Anuncio = Anuncio(id: string, titulo: Option<string>, autor: Option<string>,
                             descricao: Option<string>, tipo: Option<string>,
                             condicao: Option<string>, preco: Option<string>,
                             publicado: Option<string>, ownerId: string)

  /** An `avaliacao` row: the rating level, an optional comment, who rated which listing. */
  datatype Avaliacao = Avaliacao(id: int, avaliacao: Option<string>, comentario: Option<string>,
                                 usuarioId: int, anuncioId: int)

  /** A `comentario` row. */
  datatype Comentario = Comentario(id: int, texto: Option<string>, usuarioId: int,
                                   anuncioId: int, criadoEm: int)

  function Public(u: Usuario): (p: PublicUser)
    ensures p.id == u.id && p.nome == u.nome && p.email == u.email
    ensures p.criadoEm == u.criadoEm && p.atualizadoEm == u.atualizadoEm
  {
    PublicUser(u.id, u.nome, u.email, u.criadoEm, u.atualizadoEm)
  }

  /** Whether the listing belongs to the user with numeric id `id` (the `usuarioId` filter). */
  predicate ListingOf(a: Anuncio, id: int): (b: bool)
    ensures a.ownerId == IntToDecimal(id) ==> b
  {
    ToNumberRoundTrip(id);
    ToNumber(a.ownerId) == Some(id)
  }

  /** The unique index on `usuario.email`. */
  ghost predicate UniqueEmails(m: map<int, Usuario>)
  {
    forall a, b :: a in m && b in m && m[a].email == m[b].email ==> a == b
  }

  /** The unique index on `avaliacao(usuarioId, anuncioId)`. */
  ghost predicate UniquePairs(m: map<int, Avaliacao>)
  {
    forall a, b ::
      (a in m && b in m && m[a].usuarioId == m[b].usuarioId && m[a].anuncioId == m[b].anuncioId) ==> a == b
  }

  /** Whether some rating by user `u` on listing `l` is stored. */
  predicate PairTaken(m: map<int, Avaliacao>, u: int, l: int)
  {
    exists k :: k in m && m[k].usuarioId == u && m[k].anuncioId == l
  }

  /** Whether some user is registered with `email`. */
  predicate EmailTaken(m: map<int, Usuario>, email: string)
  {
    exists k :: k in m && m[k].email == email
  }

  /** Distinct keys hold distinct rows. */
  ghost predicate Injective<K, V>(m: map<K, V>)
  {
    forall a, b :: a in m && b in m && m[a] == m[b] ==> a == b
  }

  /** The unique index makes the rating of a (user, listing) pair a single row. */
  lemma OneRowPerPair(m: map<int, Avaliacao>, u: int, l: int)
    requires UniquePairs(m) && PairTaken(m, u, l)
    ensures |set k | k in m && m[k].usuarioId == u && m[k].anuncioId == l| == 1
  {
    var k0 :| k0 in m && m[k0].usuarioId == u && m[k0].anuncioId == l;
    var rows := set k | k in m && m[k].usuarioId == u && m[k].anuncioId == l;
    forall k | k in rows
      ensures k == k0
    {
    }
    assert rows == {k0};
  }

  /** `deleteMany({ where })`: the rows `doomed` selects go, the others stay as they were. */
  function Without<K(!new), V>(m: map<K, V>, doomed: V -> bool): (r: map<K, V>)
    ensures forall k :: k in r <==> k in m && !doomed(m[k])
    ensures forall k :: k in r ==> r[k] == m[k]
  {
    map k | k in m && !doomed(m[k]) :: m[k]
  }

  /**
   * `findMany({ where })`: every row `keep` selects, each exactly once, in the
   * (unspecified) order the store returns them.
   */
  method SelectRows<K, V(==)>(m: map<K, V>, keep: V -> bool) returns (rows: seq<V>)
    requires Injective(m)
    ensures forall v :: multiset(rows)[v] == if v in m.Values && keep(v) then 1 else 0
  {
    rows := [];
    var pending := m.Keys;
    while pending != {}
      invariant pending <= m.Keys
      invariant forall v :: multiset(rows)[v] == if v in (m - pending).Values && keep(v) then 1 else 0
      decreases pending
    {
      var k :| k in pending;
      ghost var before := m - pending;
      pending := pending - {k};
      assert (m - pending) == before[k := m[k]];
      assert m[k] !in before.Values by {
        forall j | j in before
          ensures before[j] != m[k]
        {
          assert before[j] == m[j] && j != k;
        }
      }
      AddedValue(before, k, m[k]);
      if keep(m[k]) {
        rows := rows + [m[k]];
      }
    }
    assert m - pending == m;
  }

  /** Adding a fresh key adds its value to the map's values. */
  lemma AddedValue<K, V>(m: map<K, V>, k: K, v: V)
    requires k !in m
    ensures m[k := v].Values == m.Values + {v}
  {
    var n := m[k := v];
    forall x | x in n.Values
      ensures x in m.Values + {v}
    {
      var j :| j in n && n[j] == x;
      if j != k {
        assert m[j] == x;
      }
    }
    forall x | x in m.Values
      ensures x in n.Values
    {
      var j :| j in m && m[j] == x;
      assert n[j] == x;
    }
    assert v == n[k];
  }

  /** The store: four tables and the next value of each autoincrement id. */
  class Database {
    var usuarios: map<int, Usuario>
    var anuncios: map<string, Anuncio>
    var avaliacoes: map<int, Avaliacao>
    var comentarios: map<int, Comentario>
    var nextUsuarioId: int
    var nextAvaliacaoId: int
    var nextComentarioId: int

    /** Primary keys match the rows' ids, ids are below their counters, unique indexes hold. */
    ghost predicate Valid()
      reads this
    {
      && (forall k :: k in usuarios ==> usuarios[k].id == k && k < nextUsuarioId)
      && (forall k :: k in anuncios ==> anuncios[k].id == k)
      && (forall k :: k in avaliacoes ==> avaliacoes[k].id == k && k < nextAvaliacaoId)
      && (forall k :: k in comentarios ==> comentarios[k].id == k && k < nextComentarioId)
      && UniqueEmails(usuarios)
      && UniquePairs(avaliacoes)
    }

    constructor ()
      ensures Valid()
      ensures usuarios == map[] && anuncios == map[] && avaliacoes == map[] && comentarios == map[]
    {
      usuarios, anuncios, avaliacoes, comentarios := map[], map[], map[], map[];
      nextUsuarioId, nextAvaliacaoId, nextComentarioId := 1, 1, 1;
    }

    /** Rows carry their own key, so no two keys of a table hold the same row. */
    lemma RowsAreDistinct()
      requires Valid()
      ensures Injective(usuarios) && Injective(anuncios)
      ensures Injective(avaliacoes) && Injective(comentarios)
    {
      forall a, b | a in avaliacoes && b in avaliacoes && avaliacoes[a] == avaliacoes[b]
        ensures a == b
      {
        assert avaliacoes[a].id == a && avaliacoes[b].id == b;
      }
      forall a, b | a in comentarios && b in comentarios && comentarios[a] == comentarios[b]
        ensures a == b
      {
        assert comentarios[a].id == a && comentarios[b].id == b;
      }
      forall a, b | a in usuarios && b in usuarios && usuarios[a] == usuarios[b]
        ensures a == b
      {
        assert usuarios[a].id == a && usuarios[b].id == b;
      }
      forall a, b | a in anuncios && b in anuncios && anuncios[a] == anuncios[b]
        ensures a == b
      {
        assert anuncios[a].id == a && anuncios[b].id == b;
      }
    }

    /** `usuario.findUnique({ where: { email } })`. */
    method FindUserByEmail(email: string) returns (u: Option<Usuario>)
      requires Valid()
      ensures u.None? <==> !EmailTaken(usuarios, email)
      ensures u.Some? ==> u.value.id in usuarios && usuarios[u.value.id] == u.value
                          && u.value.email == email
    {
      if k :| k in usuarios && usuarios[k].email == email {
        u := Some(usuarios[k]);
      } else {
        u := None;
      }
    }
  }
}
