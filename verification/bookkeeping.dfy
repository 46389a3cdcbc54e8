/**
 * Quality frequency bookkeeping over an abstract store: the `m2m_changed`
 * and `post_delete` handlers of backend/dreams/signals.py and
 * `Quality.update_frequency` of backend/dreams/models.py.
 *
 * The database is two maps: dream rows (owner and the set of attached
 * qualities) and quality rows (owner, name, stored frequency). A quality's
 * true frequency is the number of dreams that carry it; the handlers copy
 * that number into the stored field and prune qualities left at zero.
 */
module QualityBookkeeping {
  import opened Options

  type UserId = int
  type DreamId = int
  type QualityId = int

  datatype QualityRow = QualityRow(owner: UserId, name: string, frequency: nat)
  datatype DreamRow = DreamRow(owner: UserId, qualities: set<QualityId>)
  datatype Store = Store(dreams: map<DreamId, DreamRow>, qualities: map<QualityId, QualityRow>)

  /** The dreams carrying quality `q` (over all users, as the count query does). */
  function Carriers(st: Store, q: QualityId): set<DreamId> {
    set d | d in st.dreams && q in st.dreams[d].qualities
  }

  /** `Dream.objects.filter(qualities=q).count()`. */
  function Count(st: Store, q: QualityId): nat {
    |Carriers(st, q)|
  }

  /** The qualities owned by user `u`. */
  function OwnedBy(st: Store, u: UserId): set<QualityId> {
    set q | q in st.qualities && st.qualities[q].owner == u
  }

  /** Every stored frequency equals the number of dreams carrying the quality. */
  ghost predicate Consistent(st: Store) {
    forall q :: q in st.qualities ==> st.qualities[q].frequency == Count(st, q)
  }

  /** Every link of a dream points at an existing quality of the dream's owner. */
  ghost predicate Linked(st: Store) {
    forall d, q :: d in st.dreams && q in st.dreams[d].qualities ==>
      q in st.qualities && st.qualities[q].owner == st.dreams[d].owner
  }

  /**
   * `update_frequency` run over the existing qualities among `qs`: each gets
   * the count of its carriers; names, owners, other rows and the dreams are
   * left alone, and no row appears or disappears.
   */
  function Recompute(st: Store, qs: set<QualityId>): (r: Store)
    ensures r.dreams == st.dreams
    ensures r.qualities.Keys == st.qualities.Keys
    ensures forall q :: q in r.qualities && q in qs ==>
      r.qualities[q].frequency == Count(r, q) &&
      r.qualities[q].owner == st.qualities[q].owner && r.qualities[q].name == st.qualities[q].name
    ensures forall q :: q in r.qualities && q !in qs ==> r.qualities[q] == st.qualities[q]
  {
    Store(st.dreams,
      map q | q in st.qualities ::
        if q in qs then st.qualities[q].(frequency := Count(st, q)) else st.qualities[q])
  }

  /**
   * Deleting quality rows. The database cascades the deletion to the
   * dream-quality links, so the deleted ids also leave every dream's set.
   */
  function DeleteQualities(st: Store, qs: set<QualityId>): (r: Store)
    ensures r.qualities.Keys == st.qualities.Keys - qs
    ensures forall q :: q in r.qualities ==> r.qualities[q] == st.qualities[q]
    ensures r.dreams.Keys == st.dreams.Keys
    ensures forall d :: d in r.dreams ==>
      r.dreams[d].owner == st.dreams[d].owner && r.dreams[d].qualities == st.dreams[d].qualities - qs
  {
    Store(
      map d | d in st.dreams :: st.dreams[d].(qualities := st.dreams[d].qualities - qs),
      map q | q in st.qualities && q !in qs :: st.qualities[q])
  }

  /** The cascade touches no dream when no dream carries a deleted quality. */
  lemma {:induction false} DeleteUncarried(st: Store, qs: set<QualityId>)
    requires forall q :: q in qs ==> Count(st, q) == 0
    ensures DeleteQualities(st, qs).dreams == st.dreams
    ensures forall q :: q !in qs ==> Count(DeleteQualities(st, qs), q) == Count(st, q)
  {
    var r := DeleteQualities(st, qs);
    forall d | d in st.dreams
      ensures r.dreams[d] == st.dreams[d]
    {
      forall q | q in qs
        ensures q !in st.dreams[d].qualities
      {
        assert Carriers(st, q) == {};
        assert d !in Carriers(st, q);
      }
      assert st.dreams[d].qualities - qs == st.dreams[d].qualities;
    }
  }

  /** The rows among `qs` whose STORED frequency is zero. */
  function Zeros(st: Store, qs: set<QualityId>): (r: set<QualityId>)
    ensures forall q :: q in r <==> q in qs && q in st.qualities && st.qualities[q].frequency == 0
  {
    set q | q in qs && q in st.qualities && st.qualities[q].frequency == 0
  }

  /** The `action` argument of Django's `m2m_changed`. */
  datatype M2MAction = PreAdd | PostAdd | PreRemove | PostRemove | PreClear | PostClear

  /** Python truthiness of `pk_set`: present and non-empty. */
  predicate Truthy(pkSet: Option<set<QualityId>>) {
    pkSet.Some? && pkSet.value != {}
  }

  /**
   * `update_quality_frequencies_and_cleanup`, fired with the store as it is
   * after the link change. `owner` is `instance.user`, the dream's owner.
   * `post_clear` recomputes the owner's qualities; `post_add`/`post_remove`
   * recompute the `pk_set` qualities; `post_remove` then deletes those of
   * them left at stored frequency zero.
   */
  function OnQualitiesChanged(st: Store, owner: UserId, action: M2MAction, pkSet: Option<set<QualityId>>): (r: Store)
    ensures action in {PreAdd, PreRemove, PreClear} ==> r == st
    ensures action == PostClear ==> r == Recompute(st, OwnedBy(st, owner))
    ensures action in {PostAdd, PostRemove} && !Truthy(pkSet) ==> r == st
    ensures action == PostAdd && Truthy(pkSet) ==> r == Recompute(st, pkSet.value)
    ensures action == PostRemove && Truthy(pkSet) ==>
      var mid := Recompute(st, pkSet.value);
      r == DeleteQualities(mid, Zeros(mid, pkSet.value))
  {
    var st1 :=
      if action == PostClear then Recompute(st, OwnedBy(st, owner))
      else if (action == PostAdd || action == PostRemove) && Truthy(pkSet) then Recompute(st, pkSet.value)
      else st;
    if action == PostRemove && Truthy(pkSet) then DeleteQualities(st1, Zeros(st1, pkSet.value)) else st1
  }

  /**
   * `cleanup_qualities_after_dream_deletion`, fired once the dream row (and
   * with it its links) is gone: recompute every quality of the owner, then
   * delete the owner's qualities left at zero.
   */
  function OnDreamDeleted(st: Store, owner: UserId): (r: Store)
    ensures var mid := Recompute(st, OwnedBy(st, owner));
      r == DeleteQualities(mid, Zeros(mid, OwnedBy(st, owner)))
  {
    var mine := OwnedBy(st, owner);
    var mid := Recompute(st, mine);
    DeleteQualities(mid, Zeros(mid, mine))
  }

  // ---------------------------------------------------------------------------
  // What the handlers promise
  // ---------------------------------------------------------------------------

  /** `post_add` deletes nothing, sets each `pk_set` quality to its carrier count and leaves other rows alone. */
  lemma {:induction false} PostAddEffect(st: Store, owner: UserId, pk: set<QualityId>)
    ensures var r := OnQualitiesChanged(st, owner, PostAdd, Some(pk));
      r.dreams == st.dreams && r.qualities.Keys == st.qualities.Keys &&
      (forall q :: q in r.qualities && q in pk ==> r.qualities[q].frequency == Count(st, q)) &&
      (forall q :: q in r.qualities && q !in pk ==> r.qualities[q] == st.qualities[q])
  {
  }

  /**
   * `post_remove` deletes exactly the `pk_set` qualities no dream carries any
   * more; the survivors among them get their carrier count, which is
   * positive, and the dreams keep their links.
   */
  lemma {:induction false} PostRemoveEffect(st: Store, owner: UserId, pk: set<QualityId>)
    requires pk != {}
    ensures var r := OnQualitiesChanged(st, owner, PostRemove, Some(pk));
      r.dreams == st.dreams &&
      (forall q :: q in r.qualities <==> q in st.qualities && (q in pk ==> Count(st, q) > 0)) &&
      (forall q :: q in r.qualities && q in pk ==> r.qualities[q].frequency == Count(st, q) > 0) &&
      (forall q :: q in r.qualities && q !in pk ==> r.qualities[q] == st.qualities[q])
  {
    var mid := Recompute(st, pk);
    var zeros := Zeros(mid, pk);
    assert forall q :: q in zeros ==> Count(mid, q) == 0;
    DeleteUncarried(mid, zeros);
  }

  /** `post_clear` recomputes every quality of the owner and deletes nothing. */
  lemma {:induction false} PostClearEffect(st: Store, owner: UserId, pkSet: Option<set<QualityId>>)
    ensures var r := OnQualitiesChanged(st, owner, PostClear, pkSet);
      r.dreams == st.dreams && r.qualities.Keys == st.qualities.Keys &&
      (forall q :: q in r.qualities && st.qualities[q].owner == owner ==> r.qualities[q].frequency == Count(st, q)) &&
      (forall q :: q in r.qualities && st.qualities[q].owner != owner ==> r.qualities[q] == st.qualities[q])
  {
  }

  /**
   * After a dream deletion the owner's qualities that some dream still
   * carries survive with their carrier count, those no dream carries are
   * gone, and other users' qualities are untouched.
   */
  lemma {:induction false} DreamDeletedEffect(st: Store, owner: UserId)
    ensures var r := OnDreamDeleted(st, owner);
      r.dreams == st.dreams &&
      (forall q :: q in r.qualities <==> q in st.qualities && (st.qualities[q].owner == owner ==> Count(st, q) > 0)) &&
      (forall q :: q in r.qualities && st.qualities[q].owner == owner ==> r.qualities[q].frequency == Count(st, q) > 0) &&
      (forall q :: q in r.qualities && st.qualities[q].owner != owner ==> r.qualities[q] == st.qualities[q])
  {
    var mine := OwnedBy(st, owner);
    var mid := Recompute(st, mine);
    var zeros := Zeros(mid, mine);
    assert forall q :: q in zeros ==> Count(mid, q) == 0;
    DeleteUncarried(mid, zeros);
  }

  // ---------------------------------------------------------------------------
  // Link changes followed by their signal keep the store consistent
  // ---------------------------------------------------------------------------

  /** `dream.qualities.add(*qs)` at the database level. */
  function Attach(st: Store, d: DreamId, qs: set<QualityId>): (r: Store)
    requires d in st.dreams
    ensures r.qualities == st.qualities && r.dreams.Keys == st.dreams.Keys
    ensures r.dreams[d] == DreamRow(st.dreams[d].owner, st.dreams[d].qualities + qs)
    ensures forall e :: e in st.dreams && e != d ==> r.dreams[e] == st.dreams[e]
  {
    Store(st.dreams[d := st.dreams[d].(qualities := st.dreams[d].qualities + qs)], st.qualities)
  }

  /** `dream.qualities.remove(*qs)` at the database level. */
  function Detach(st: Store, d: DreamId, qs: set<QualityId>): (r: Store)
    requires d in st.dreams
    ensures r.qualities == st.qualities && r.dreams.Keys == st.dreams.Keys
    ensures r.dreams[d] == DreamRow(st.dreams[d].owner, st.dreams[d].qualities - qs)
    ensures forall e :: e in st.dreams && e != d ==> r.dreams[e] == st.dreams[e]
  {
    Store(st.dreams[d := st.dreams[d].(qualities := st.dreams[d].qualities - qs)], st.qualities)
  }

  /** Changing only the links to `qs` leaves every other quality's carriers as they were. */
  lemma {:induction false} CarriersOutside(st: Store, st1: Store, qs: set<QualityId>)
    requires st1.dreams.Keys == st.dreams.Keys
    requires forall e :: e in st.dreams ==> st1.dreams[e].qualities - qs == st.dreams[e].qualities - qs
    ensures forall q :: q !in qs ==> Carriers(st1, q) == Carriers(st, q)
  {
    forall q | q !in qs
      ensures Carriers(st1, q) == Carriers(st, q)
    {
      forall e | e in st.dreams
        ensures q in st1.dreams[e].qualities <==> q in st.dreams[e].qualities
      {
        assert q in st1.dreams[e].qualities <==> q in st1.dreams[e].qualities - qs;
        assert q in st.dreams[e].qualities <==> q in st.dreams[e].qualities - qs;
      }
    }
  }

  /** A consistent store stays consistent across an add and its `post_add` signal. */
  lemma {:induction false} AttachKeepsConsistent(st: Store, d: DreamId, qs: set<QualityId>)
    requires d in st.dreams && Consistent(st)
    ensures var st1 := Attach(st, d, qs);
      Consistent(OnQualitiesChanged(st1, st.dreams[d].owner, PostAdd, Some(qs)))
  {
    var st1 := Attach(st, d, qs);
    CarriersOutside(st, st1, qs);
    PostAddEffect(st1, st.dreams[d].owner, qs);
  }

  /**
   * A consistent store stays consistent across a remove and its
   * `post_remove` signal, and no removed quality survives at zero.
   */
  lemma {:induction false} DetachKeepsConsistent(st: Store, d: DreamId, qs: set<QualityId>)
    requires d in st.dreams && Consistent(st)
    ensures var r := OnQualitiesChanged(Detach(st, d, qs), st.dreams[d].owner, PostRemove, Some(qs));
      Consistent(r) && forall q :: q in qs && q in r.qualities ==> r.qualities[q].frequency > 0
  {
    var st1 := Detach(st, d, qs);
    CarriersOutside(st, st1, qs);
    if qs != {} {
      PostRemoveEffect(st1, st.dreams[d].owner, qs);
    }
  }

  /** `dream.qualities.clear()` at the database level. */
  function Clear(st: Store, d: DreamId): (r: Store)
    requires d in st.dreams
    ensures r == Detach(st, d, st.dreams[d].qualities)
    ensures r.dreams[d].qualities == {}
  {
    Detach(st, d, st.dreams[d].qualities)
  }

  /**
   * When every link of the dream points at its owner's qualities, a clear
   * and its `post_clear` signal keep the store consistent.
   */
  lemma {:induction false} ClearKeepsConsistent(st: Store, d: DreamId)
    requires d in st.dreams && Consistent(st) && Linked(st)
    ensures Consistent(OnQualitiesChanged(Clear(st, d), st.dreams[d].owner, PostClear, None))
  {
    var owner := st.dreams[d].owner;
    var qs := st.dreams[d].qualities;
    var st1 := Clear(st, d);
    CarriersOutside(st, st1, qs);
    PostClearEffect(st1, owner, None);
    assert forall q :: q in qs ==> st1.qualities[q].owner == owner;
  }

  /** The dream row removed; its links go with it. */
  function RemoveDream(st: Store, d: DreamId): (r: Store)
    ensures r.qualities == st.qualities && r.dreams.Keys == st.dreams.Keys - {d}
    ensures forall e :: e in r.dreams ==> r.dreams[e] == st.dreams[e]
  {
    Store(st.dreams - {d}, st.qualities)
  }

  /**
   * Deleting a dream whose links point at its owner's qualities, followed by
   * the `post_delete` signal, keeps the store consistent and leaves none of
   * the owner's qualities at zero.
   */
  lemma {:induction false} DreamDeletionKeepsConsistent(st: Store, d: DreamId)
    requires d in st.dreams && Consistent(st) && Linked(st)
    ensures var r := OnDreamDeleted(RemoveDream(st, d), st.dreams[d].owner);
      Consistent(r) &&
      forall q :: q in r.qualities && r.qualities[q].owner == st.dreams[d].owner ==> r.qualities[q].frequency > 0
  {
    var owner := st.dreams[d].owner;
    var qs := st.dreams[d].qualities;
    var st1 := RemoveDream(st, d);
    forall q | q !in qs
      ensures Carriers(st1, q) == Carriers(st, q)
    {
    }
    DreamDeletedEffect(st1, owner);
    assert forall q :: q in qs ==> st1.qualities[q].owner == owner;
  }
}
