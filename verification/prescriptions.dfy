/** The prescription gate: PENDING -> APPROVED | REJECTED, the rejection
    reason rule and the five-image cap (prescriptions/models.py,
    prescriptions/services.py). */
module Prescriptions {
  import opened Wrappers
  import opened Errors
  import opened Tables

  datatype Status = Pending | Approved | Rejected

  const MaxImages: nat := 5

  datatype Prescription = Prescription(
    userId: nat,
    orderId: Option<nat>,
    status: Status,
    rejectionReason: Option<string>,
    reviewedBy: Option<nat>,
    reviewedAt: Option<nat>,
    images: seq<string>,          // the uploaded files, oldest first
    createdAt: nat)

  /** `_ensure_pending`. */
  function EnsurePending(p: Prescription): (r: Result<Prescription, Error>)
    ensures r.Ok? <==> p.status == Pending
    ensures r.Ok? ==> r.value == p
    ensures r.Fail? ==> r.error == NotPending
  {
    if p.status != Pending then Fail(NotPending) else Ok(p)
  }

  /** `Prescription.approve`. */
  function Approve(p: Prescription, operator: nat, now: nat): (r: Result<Prescription, Error>)
    ensures r.Ok? <==> p.status == Pending
    ensures r.Fail? ==> r.error == NotPending
    ensures r.Ok? ==> r.value.status == Approved && r.value.reviewedBy == Some(operator)
                      && r.value.reviewedAt == Some(now) && r.value.rejectionReason.None?
                      && r.value.images == p.images && r.value.orderId == p.orderId && r.value.userId == p.userId
  {
    var q :- EnsurePending(p);
    Ok(q.(status := Approved, reviewedBy := Some(operator), reviewedAt := Some(now), rejectionReason := None))
  }

  /** `Prescription.reject`: the status is checked before the reason. */
  function Reject(p: Prescription, operator: nat, reason: Option<string>, now: nat): (r: Result<Prescription, Error>)
    ensures p.status != Pending ==> r == Fail(NotPending)
    ensures p.status == Pending && !Truthy(reason) ==> r == Fail(MissingReason)
    ensures r.Ok? <==> p.status == Pending && Truthy(reason)
    ensures r.Ok? ==> r.value.status == Rejected && r.value.reviewedBy == Some(operator)
                      && r.value.reviewedAt == Some(now) && r.value.rejectionReason == reason
                      && r.value.images == p.images && r.value.orderId == p.orderId && r.value.userId == p.userId
  {
    var q :- EnsurePending(p);
    if !Truthy(reason) then Fail(MissingReason)
    else Ok(q.(status := Rejected, reviewedBy := Some(operator), reviewedAt := Some(now), rejectionReason := reason))
  }

  /** `Prescription.clean`: a rejection must carry a reason. */
  predicate Clean(p: Prescription) {
    p.status == Rejected ==> Truthy(p.rejectionReason)
  }

  /** Decisions are final, and every decision leaves a clean record. */
  lemma DecisionsAreFinalAndClean(p: Prescription, operator: nat, reason: Option<string>, now: nat)
    ensures p.status != Pending ==> Approve(p, operator, now).Fail? && Reject(p, operator, reason, now).Fail?
    ensures Approve(p, operator, now).Ok? ==> Clean(Approve(p, operator, now).value)
    ensures Reject(p, operator, reason, now).Ok? ==> Clean(Reject(p, operator, reason, now).value)
  {
  }

  /** `PrescriptionImage.save`: refused once five images exist. */
  function AddImage(p: Prescription, image: string): (r: Result<Prescription, Error>)
    ensures r.Ok? <==> |p.images| < MaxImages
    ensures r.Ok? ==> r.value == p.(images := p.images + [image])
    ensures r.Fail? ==> r.error == ImageLimitReached
  {
    if |p.images| >= MaxImages then Fail(ImageLimitReached) else Ok(p.(images := p.images + [image]))
  }

  /** However many uploads are attempted, at most five images are kept. */
  lemma {:induction false} ImagesStayCapped(p: Prescription, uploads: seq<string>)
    requires |p.images| <= MaxImages
    ensures |AddImages(p, uploads).images| <= MaxImages
    decreases |uploads|
  {
    if uploads != [] {
      var next := AddImage(p, uploads[0]);
      if next.Ok? {
        ImagesStayCapped(next.value, uploads[1..]);
      } else {
        ImagesStayCapped(p, uploads[1..]);
      }
    }
  }

  /** Uploads one after another, each refused upload leaving the record as
      it was. */
  function AddImages(p: Prescription, uploads: seq<string>): Prescription
    decreases |uploads|
  {
    if uploads == [] then p
    else
      match AddImage(p, uploads[0])
      case Ok(q) => AddImages(q, uploads[1..])
      case Fail(_) => AddImages(p, uploads[1..])
  }

  type Prescriptions = Table<Prescription>

  /** `create_prescription`: between one and five images, then a pending
      prescription holding exactly those images. */
  function CreatePrescription(t: Prescriptions, userId: nat, orderId: Option<nat>, images: seq<string>, now: nat)
    : (r: Result<(Prescriptions, nat), Error>)
    ensures images == [] ==> r == Fail(NoImages)
    ensures |images| > MaxImages ==> r == Fail(TooManyImages)
    ensures r.Ok? <==> 1 <= |images| <= MaxImages
    ensures r.Ok? ==> var (t', k) := r.value;
                      k !in t.rows && k in t'.rows && t'.rows == t.rows[k := t'.rows[k]]
                      && t'.rows[k].status == Pending && t'.rows[k].images == images
                      && t'.rows[k].userId == userId && t'.rows[k].orderId == orderId
                      && t'.rows[k].reviewedBy.None? && Clean(t'.rows[k])
  {
    if images == [] then Fail(NoImages)
    else if |images| > MaxImages then Fail(TooManyImages)
    else
      var (t1, k) := Insert(t, Prescription(userId, orderId, Pending, None, None, None, [], now));
      var p := AddImages(t1.rows[k], images);
      AddAllWithinCap(t1.rows[k], images);
      Ok((Put(t1, k, p), k))
  }

  /** Adding at most five images to an empty prescription keeps them all. */
  lemma {:induction false} AddAllWithinCap(p: Prescription, uploads: seq<string>)
    requires |p.images| + |uploads| <= MaxImages
    ensures AddImages(p, uploads) == p.(images := p.images + uploads)
    decreases |uploads|
  {
    if uploads != [] {
      AddAllWithinCap(p.(images := p.images + [uploads[0]]), uploads[1..]);
      assert p.images + [uploads[0]] + uploads[1..] == p.images + uploads;
    } else {
      assert p.images + uploads == p.images;
    }
  }

  /** `approve_prescription` of prescriptions/services.py. */
  function ApproveService(p: Prescription, operator: nat, now: nat): (r: Result<Prescription, Error>)
    ensures r == Approve(p, operator, now)
  {
    if p.status != Pending then Fail(NotPending)
    else Ok(p.(status := Approved, reviewedBy := Some(operator), reviewedAt := Some(now), rejectionReason := None))
  }

  /** `reject_prescription` of prescriptions/services.py. */
  function RejectService(p: Prescription, operator: nat, reason: Option<string>, now: nat): (r: Result<Prescription, Error>)
    ensures r == Reject(p, operator, reason, now)
  {
    if p.status != Pending then Fail(NotPending)
    else if !Truthy(reason) then Fail(MissingReason)
    else Ok(p.(status := Rejected, reviewedBy := Some(operator), reviewedAt := Some(now), rejectionReason := reason))
  }
}
