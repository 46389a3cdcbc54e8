/**
 * The nested dream-quality endpoints of backend/dreams/nested_views.py:
 * PUT attaches one of the requester's qualities to one of their dreams,
 * DELETE detaches it. Both run over the abstract store of
 * QualityBookkeeping, and the link change fires the same `m2m_changed`
 * handler the database would.
 */
module DreamQualityViews {
  import opened Options
  import opened QualityBookkeeping

  /** The HTTP outcomes of the two endpoints. */
  datatype Response =
    | BadRequest(error: string)   // 400
    | NotFound                    // 404 from get_object_or_404
    | Ok(quality: QualityRow)     // 200 with the serialized quality
    | NoContent                   // 204

  /** `get_dream`: the dream exists and belongs to the requester. */
  predicate OwnsDream(st: Store, user: UserId, d: DreamId) {
    d in st.dreams && st.dreams[d].owner == user
  }

  /** `get_quality`: the quality exists and belongs to the requester. */
  predicate OwnsQuality(st: Store, user: UserId, q: QualityId) {
    q in st.qualities && st.qualities[q].owner == user
  }

  /** The lookups and their 400/404 answers, shared by both endpoints; `None` means both rows were found. */
  function Lookup(st: Store, user: UserId, dreamPk: Option<DreamId>, pk: Option<QualityId>): (r: Option<Response>)
    ensures r.None? <==> dreamPk.Some? && pk.Some? && OwnsDream(st, user, dreamPk.value) && OwnsQuality(st, user, pk.value)
    ensures dreamPk.None? ==> r == Some(BadRequest("Dream ID is required"))
    ensures dreamPk.Some? && pk.None? ==> r == Some(BadRequest("Quality ID is required"))
    ensures r.Some? && dreamPk.Some? && pk.Some? ==> r == Some(NotFound)
  {
    if dreamPk.None? then Some(BadRequest("Dream ID is required"))
    else if pk.None? then Some(BadRequest("Quality ID is required"))
    else if !OwnsDream(st, user, dreamPk.value) then Some(NotFound)
    else if !OwnsQuality(st, user, pk.value) then Some(NotFound)
    else None
  }

  /**
   * PUT: if the quality is not yet on the dream, link it (firing
   * `pre_add`, a no-op, and `post_add` with `{q}`), then run
   * `update_frequency` once more; answer with the quality row.
   */
  function Update(st: Store, user: UserId, dreamPk: Option<DreamId>, pk: Option<QualityId>): (r: (Store, Response))
  {
    match Lookup(st, user, dreamPk, pk)
    case Some(err) => (st, err)
    case None =>
      var d, q := dreamPk.value, pk.value;
      if q !in st.dreams[d].qualities then
        var linked := Attach(st, d, {q});
        var signalled := OnQualitiesChanged(OnQualitiesChanged(linked, user, PreAdd, Some({q})), user, PostAdd, Some({q}));
        var st3 := Recompute(signalled, {q});
        (st3, Ok(st3.qualities[q]))
      else
        (st, Ok(st.qualities[q]))
  }

  /**
   * DELETE: if the quality is on the dream, unlink it (firing `post_remove`
   * with `{q}`), count the dreams still carrying it, delete it at zero and
   * store the count otherwise; answer 204 either way.
   */
  function Destroy(st: Store, user: UserId, dreamPk: Option<DreamId>, pk: Option<QualityId>): (r: (Store, Response))
  {
    match Lookup(st, user, dreamPk, pk)
    case Some(err) => (st, err)
    case None =>
      var d, q := dreamPk.value, pk.value;
      if q in st.dreams[d].qualities then
        var unlinked := Detach(st, d, {q});
        var signalled := OnQualitiesChanged(OnQualitiesChanged(unlinked, user, PreRemove, Some({q})), user, PostRemove, Some({q}));
        var n := Count(signalled, q);
        if n == 0 then (DeleteQualities(signalled, {q}), NoContent)
        else (Recompute(signalled, {q}), NoContent)
      else
        (st, NoContent)
  }

  // ---------------------------------------------------------------------------
  // Properties of the endpoints
  // ---------------------------------------------------------------------------

  /** A missing id, or a dream or quality the requester does not own, changes nothing. */
  lemma {:induction false} RejectedRequestsChangeNothing(st: Store, user: UserId, dreamPk: Option<DreamId>, pk: Option<QualityId>)
    ensures Lookup(st, user, dreamPk, pk).Some? ==>
      Update(st, user, dreamPk, pk) == (st, Lookup(st, user, dreamPk, pk).value) &&
      Destroy(st, user, dreamPk, pk) == (st, Lookup(st, user, dreamPk, pk).value)
    ensures dreamPk.None? || pk.None? ==>
      Update(st, user, dreamPk, pk).1.BadRequest? && Destroy(st, user, dreamPk, pk).1.BadRequest?
    ensures dreamPk.Some? && pk.Some? && !(OwnsDream(st, user, dreamPk.value) && OwnsQuality(st, user, pk.value)) ==>
      Update(st, user, dreamPk, pk) == (st, NotFound) && Destroy(st, user, dreamPk, pk) == (st, NotFound)
  {
  }

  /**
   * A successful PUT leaves the quality on the dream, with its stored
   * frequency equal to the number of dreams carrying it, changes no other
   * dream and deletes no quality.
   */
  lemma {:induction false} UpdateEffect(st: Store, user: UserId, d: DreamId, q: QualityId)
    requires OwnsDream(st, user, d) && OwnsQuality(st, user, q)
    ensures var (r, resp) := Update(st, user, Some(d), Some(q));
      r.dreams.Keys == st.dreams.Keys &&
      r.dreams[d] == DreamRow(user, st.dreams[d].qualities + {q}) &&
      (forall e :: e in st.dreams && e != d ==> r.dreams[e] == st.dreams[e]) &&
      r.qualities.Keys == st.qualities.Keys &&
      (q !in st.dreams[d].qualities ==> r.qualities[q].frequency == Count(r, q) && resp == Ok(r.qualities[q])) &&
      (forall p :: p in r.qualities && p != q ==> r.qualities[p] == st.qualities[p])
  {
    if q !in st.dreams[d].qualities {
      var linked := Attach(st, d, {q});
      PostAddEffect(linked, user, {q});
    } else {
      assert st.dreams[d].qualities + {q} == st.dreams[d].qualities;
    }
  }

  /** Repeating a successful PUT changes nothing. */
  lemma {:induction false} UpdateIdempotent(st: Store, user: UserId, dreamPk: Option<DreamId>, pk: Option<QualityId>)
    ensures var r := Update(st, user, dreamPk, pk).0;
      Update(r, user, dreamPk, pk).0 == r
  {
    if Lookup(st, user, dreamPk, pk).None? {
      UpdateEffect(st, user, dreamPk.value, pk.value);
    }
  }

  /** DELETE of a quality that is not on the dream changes nothing and answers 204. */
  lemma {:induction false} DestroyAbsent(st: Store, user: UserId, d: DreamId, q: QualityId)
    requires OwnsDream(st, user, d) && OwnsQuality(st, user, q)
    requires q !in st.dreams[d].qualities
    ensures Destroy(st, user, Some(d), Some(q)) == (st, NoContent)
  {
  }

  /**
   * A successful DELETE takes the quality off the dream only, deletes the
   * quality exactly when no dream carries it any more, and otherwise stores
   * the remaining count; the other qualities are untouched.
   */
  lemma {:induction false} DestroyEffect(st: Store, user: UserId, d: DreamId, q: QualityId)
    requires OwnsDream(st, user, d) && OwnsQuality(st, user, q)
    requires q in st.dreams[d].qualities
    ensures var (r, resp) := Destroy(st, user, Some(d), Some(q));
      var remaining := Count(Detach(st, d, {q}), q);
      resp == NoContent &&
      r.dreams.Keys == st.dreams.Keys &&
      r.dreams[d] == DreamRow(user, st.dreams[d].qualities - {q}) &&
      (forall e :: e in st.dreams && e != d ==> r.dreams[e] == st.dreams[e]) &&
      (q in r.qualities <==> remaining > 0) &&
      (q in r.qualities ==> r.qualities[q].frequency == remaining) &&
      (forall p :: p != q ==> (p in r.qualities <==> p in st.qualities)) &&
      (forall p :: p in r.qualities && p != q ==> r.qualities[p] == st.qualities[p])
  {
    var unlinked := Detach(st, d, {q});
    PostRemoveEffect(unlinked, user, {q});
    var signalled := OnQualitiesChanged(unlinked, user, PostRemove, Some({q}));
    if Count(signalled, q) == 0 {
      DeleteUncarried(signalled, {q});
    }
  }

  /** Both endpoints keep a consistent store consistent. */
  lemma {:induction false} EndpointsKeepConsistent(st: Store, user: UserId, dreamPk: Option<DreamId>, pk: Option<QualityId>)
    requires Consistent(st)
    ensures Consistent(Update(st, user, dreamPk, pk).0)
    ensures Consistent(Destroy(st, user, dreamPk, pk).0)
  {
    if Lookup(st, user, dreamPk, pk).None? {
      var d, q := dreamPk.value, pk.value;
      if q !in st.dreams[d].qualities {
        AttachKeepsConsistent(st, d, {q});
      } else {
        var unlinked := Detach(st, d, {q});
        DetachKeepsConsistent(st, d, {q});
        var signalled := OnQualitiesChanged(unlinked, user, PostRemove, Some({q}));
        if Count(signalled, q) == 0 {
          DeleteUncarried(signalled, {q});
        }
      }
    }
  }
}
