/**
 * The guard chains the rating, comment and account handlers share. Each of those
 * handlers reads the caller from `req.userId`, converts ids with `Number`, and
 * lets only the owner of a row change it; they differ only in the table and in
 * the wording of some messages, which are parameters here.
 */
module Guards {
  import opened Wrappers
  import opened Http
  import opened NumericId

  const MsgUnauthenticated := "Usuário não autenticado."
  const MsgBadUserId := "ID do usuário inválido."
  const MsgBadAnuncioId := "ID do anúncio inválido."
  const MsgForbidden := "Acesso negado."

  /** 401 without a caller, then 400 for a caller id that is not a number. */
  function CallerGate(userId: Option<string>): (g: Gate)
    ensures g.Pass? <==> Truthy(userId) && ToNumber(userId.value).Some?
    ensures g == Reject(401, MsgUnauthenticated) <==> !Truthy(userId)
    ensures g == Reject(400, MsgBadUserId) <==> Truthy(userId) && ToNumber(userId.value).None?
  {
    if !Truthy(userId) then Reject(401, MsgUnauthenticated)
    else if ToNumber(userId.value).None? then Reject(400, MsgBadUserId)
    else Pass
  }

  /**
   * The guards of a create on a listing: the caller guards, then 400 with
   * `msgRequired` when the required field or `anuncioId` is missing, then 400
   * for an `anuncioId` that is not a number.
   */
  function CreateGate(userId: Option<string>, required: JsonField, anuncioId: JsonField,
                      msgRequired: string): (g: Gate)
    ensures g.Pass? <==> CallerGate(userId).Pass? && FieldTruthy(required) && FieldTruthy(anuncioId)
                         && ToNumber(anuncioId.text).Some?
    ensures CallerGate(userId).Reject? ==> g == CallerGate(userId)
    ensures CallerGate(userId).Pass? && !(FieldTruthy(required) && FieldTruthy(anuncioId)) ==>
              g == Reject(400, msgRequired)
    ensures (CallerGate(userId).Pass? && FieldTruthy(required) && FieldTruthy(anuncioId)
             && ToNumber(anuncioId.text).None?) ==> g == Reject(400, MsgBadAnuncioId)
  {
    var caller := CallerGate(userId);
    if caller.Reject? then caller
    else if !FieldTruthy(required) || !FieldTruthy(anuncioId) then Reject(400, msgRequired)
    else if ToNumber(anuncioId.text).None? then Reject(400, MsgBadAnuncioId)
    else Pass
  }

  /**
   * The guards of an update or delete of the row with id `Number(id)`: 401
   * without a caller, 400 with `msgBadId` for an id that is not a number (before
   * any lookup), 404 with `msgNotFound` for a missing row, 403 unless the row's
   * owner equals `Number(caller)`. A caller that is not a number gets no 400 of
   * its own: its NaN differs from every owner.
   */
  function OwnerGate<R>(rows: map<int, R>, ownerOf: R -> int, userId: Option<string>, id: string,
                        msgBadId: string, msgNotFound: string): (g: Gate)
    ensures g.Pass? <==> Truthy(userId) && ToNumber(id).Some? && ToNumber(id).value in rows
                         && ToNumber(userId.value) == Some(ownerOf(rows[ToNumber(id).value]))
    ensures g == Reject(401, MsgUnauthenticated) <==> !Truthy(userId)
    ensures g == Reject(400, msgBadId) <==> Truthy(userId) && ToNumber(id).None?
    ensures g == Reject(404, msgNotFound) <==> Truthy(userId) && ToNumber(id).Some? && ToNumber(id).value !in rows
    ensures g == Reject(403, MsgForbidden) <==>
              Truthy(userId) && ToNumber(id).Some? && ToNumber(id).value in rows
              && ToNumber(userId.value) != Some(ownerOf(rows[ToNumber(id).value]))
  {
    if !Truthy(userId) then Reject(401, MsgUnauthenticated)
    else
      var idNum := ToNumber(id);
      if idNum.None? then Reject(400, msgBadId)
      else if idNum.value !in rows then Reject(404, msgNotFound)
      else if Some(ownerOf(rows[idNum.value])) != ToNumber(userId.value) then Reject(403, MsgForbidden)
      else Pass
  }

  /** A caller id that `Number` reads as NaN never passes an ownership check. */
  lemma NonNumericCallerNeverOwns<R>(rows: map<int, R>, ownerOf: R -> int, userId: string, id: string,
                                     msgBadId: string, msgNotFound: string)
    requires ToNumber(userId).None?
    ensures !OwnerGate(rows, ownerOf, Some(userId), id, msgBadId, msgNotFound).Pass?
  {
  }

  /** A missing row answers 404 to every caller: the lookup comes before the ownership test. */
  lemma NotFoundForEveryCaller<R>(rows: map<int, R>, ownerOf: R -> int, u1: string, u2: string, id: string,
                                  msgBadId: string, msgNotFound: string)
    requires u1 != [] && u2 != [] && ToNumber(id).Some? && ToNumber(id).value !in rows
    ensures OwnerGate(rows, ownerOf, Some(u1), id, msgBadId, msgNotFound)
            == OwnerGate(rows, ownerOf, Some(u2), id, msgBadId, msgNotFound)
            == Reject(404, msgNotFound)
  {
  }
}
