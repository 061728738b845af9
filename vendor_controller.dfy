/**
 * The request handlers: each reads the caller's identity, calls the Vendor
 * model and chooses the HTTP status and the JSON envelope. Responses are
 * values; the store changes only on the success paths of create, update and
 * delete.
 */
module VendorController {
  import opened Wrappers
  import opened InMemoryDb
  import VendorModel

  /**
   * The identity a verified bearer token carries (`req.user`): the user id
   * and organisation id, each absent when the token has no such claim.
   */
  datatype Identity = Identity(id: Option<int>, orgId: Option<int>)

  /** `req.user?.id`: absent when there is no identity. */
  function UserIdOf(user: Option<Identity>): Option<int>
  {
    match user
    case None => None
    case Some(u) => u.id
  }

  /** `req.user?.org_id`: absent when there is no identity. */
  function OrgIdOf(user: Option<Identity>): Option<int>
  {
    match user
    case None => None
    case Some(u) => u.orgId
  }

  /** JavaScript truthiness of a text field: undefined, null and "" are falsy. */
  predicate Provided(t: Text) {
    t.Some? && t.value != ""
  }

  /** The `data` member of a success envelope. */
  datatype Data = Vendors(vendors: seq<Vendor>) | One(vendor: Vendor) | EmptyObject

  /**
   * The JSON body: `{success: true, count?, message?, data}` or
   * `{success: false, message}`; `notice` is the optional `message` key of a
   * success envelope.
   */
  datatype Envelope =
    | Success(count: Option<int>, notice: Option<string>, data: Data)
    | Failure(message: string)

  datatype Response = Response(status: int, body: Envelope)

  const NotFound := "Vendor not found"
  const MissingFields := "Please provide name and category for the vendor"
  const UpdateNotFound := "Vendor not found or you do not have permission to update it"
  const DeleteNotFound := "Vendor not found or you do not have permission to delete it"
  const DeleteDone := "Vendor deleted successfully"

  /** GET /: 200 with the caller's scoped, newest-first listing and its length as `count`. */
  method GetAllVendors(db: Store, user: Option<Identity>) returns (resp: Response)
    ensures resp.status == 200 && resp.body.Success? && resp.body.notice.None? && resp.body.data.Vendors?
    ensures resp.body.count == Some(|resp.body.data.vendors|)
    ensures resp.body.data.vendors == VendorModel.GetAll(db, UserIdOf(user), OrgIdOf(user))
    ensures user.None? ==> multiset(resp.body.data.vendors) == multiset(db.vendors)
  {
    var vendors := VendorModel.GetAll(db, UserIdOf(user), OrgIdOf(user));
    resp := Response(200, Success(Some(|vendors|), None, Vendors(vendors)));
  }

  /** GET /:id: 404 exactly when the scoped lookup fails, else 200 with the record. */
  method GetVendorById(db: Store, user: Option<Identity>, id: int) returns (resp: Response)
    ensures resp.status == 404 <==> VendorModel.GetById(db, id, UserIdOf(user), OrgIdOf(user)).None?
    ensures resp.status == 404 ==> resp.body == Failure(NotFound)
    ensures resp.status != 404 ==>
              resp == Response(200, Success(None, None, One(VendorModel.GetById(db, id, UserIdOf(user), OrgIdOf(user)).value)))
    ensures resp.status == 200 ==> resp.body.data.vendor in db.vendors && resp.body.data.vendor.id == id
    ensures user.None? ==> (resp.status == 200 <==> exists i :: 0 <= i < |db.vendors| && db.vendors[i].id == id)
  {
    var vendor := VendorModel.GetById(db, id, UserIdOf(user), OrgIdOf(user));
    if vendor.None? {
      return Response(404, Failure(NotFound));
    }
    resp := Response(200, Success(None, None, One(vendor.value)));
  }

  /**
   * POST /: 400 and no change when name or category is falsy; otherwise 201
   * with the new record, whose owner and organisation come from the
   * identity (null without one).
   */
  method CreateVendor(db: Store, user: Option<Identity>, body: VendorModel.VendorFields, now: int)
    returns (resp: Response)
    modifies db
    ensures old(db.Valid()) ==> db.Valid()
    ensures !Provided(body.name) || !Provided(body.category) ==>
              resp == Response(400, Failure(MissingFields)) && db.vendors == old(db.vendors)
    ensures Provided(body.name) && Provided(body.category) ==>
              resp.status == 201 && resp.body.Success? && resp.body.data.One?
              && var v := resp.body.data.vendor;
                 resp == Response(201, Success(None, None, One(v)))
                 && db.vendors == old(db.vendors) + [v]
                 && v.id == NextId(old(db.vendors)) && v.createdAt == now
                 && v.name == body.name && v.category == body.category && v.contactEmail == body.contactEmail
                 && v.phoneNumber == body.phoneNumber && v.address == body.address
                 && v.userId == VendorModel.OrNull(UserIdOf(user)) && v.orgId == VendorModel.OrNull(OrgIdOf(user))
                 && (user.None? ==> v.userId.None? && v.orgId.None?)
  {
    if !Provided(body.name) || !Provided(body.category) {
      return Response(400, Failure(MissingFields));
    }
    var data := VendorData(body.name, body.category, body.contactEmail, body.phoneNumber, body.address,
                           UserIdOf(user), OrgIdOf(user));
    var v := VendorModel.Create(db, data, now);
    resp := Response(201, Success(None, None, One(v)));
  }

  /**
   * PUT /:id: 404 and no change when the scoped lookup fails; otherwise 200
   * with the record whose five mutable fields now hold the payload's values.
   */
  method UpdateVendor(db: Store, user: Option<Identity>, id: int, body: VendorModel.VendorFields)
    returns (resp: Response)
    modifies db
    ensures old(db.Valid()) ==> db.Valid()
    ensures resp.status == 404 <==> old(VendorModel.GetById(db, id, UserIdOf(user), OrgIdOf(user))).None?
    ensures resp.status == 404 ==> resp.body == Failure(UpdateNotFound) && db.vendors == old(db.vendors)
    ensures resp.status != 404 ==>
              var before := old(VendorModel.GetById(db, id, UserIdOf(user), OrgIdOf(user))).value;
              var after := before.(name := body.name, category := body.category, contactEmail := body.contactEmail,
                                   phoneNumber := body.phoneNumber, address := body.address);
              var i := FindIndex(old(db.vendors), id);
              resp == Response(200, Success(None, None, One(after)))
              && 0 <= i && db.vendors == old(db.vendors)[i := after]
  {
    var userId, orgId := UserIdOf(user), OrgIdOf(user);
    var existing := VendorModel.GetById(db, id, userId, orgId);
    if existing.None? {
      return Response(404, Failure(UpdateNotFound));
    }
    var updated := VendorModel.Update(db, id, body, userId, orgId);
    assert updated.Some?;
    resp := Response(200, Success(None, None, One(updated.value)));
  }

  /**
   * DELETE /:id: 404 and no change when the scoped lookup fails; otherwise
   * 200 with an empty data object, one record fewer, and no record left with
   * that id, so any later lookup of it fails.
   */
  method DeleteVendor(db: Store, user: Option<Identity>, id: int) returns (resp: Response)
    modifies db
    ensures old(db.Valid()) ==> db.Valid()
    ensures resp.status == 404 <==> old(VendorModel.GetById(db, id, UserIdOf(user), OrgIdOf(user))).None?
    ensures resp.status == 404 ==> resp.body == Failure(DeleteNotFound) && db.vendors == old(db.vendors)
    ensures resp.status != 404 ==>
              var i := FindIndex(old(db.vendors), id);
              resp == Response(200, Success(None, Some(DeleteDone), EmptyObject))
              && SplicedOut(old(db.vendors), i, db.vendors)
    ensures resp.status != 404 && old(db.Valid()) ==>
              forall u, o :: VendorModel.GetById(db, id, u, o).None?
  {
    var userId, orgId := UserIdOf(user), OrgIdOf(user);
    var existing := VendorModel.GetById(db, id, userId, orgId);
    if existing.None? {
      return Response(404, Failure(DeleteNotFound));
    }
    var _ := VendorModel.Delete(db, id, userId, orgId);
    resp := Response(200, Success(None, Some(DeleteDone), EmptyObject));
  }

  /**
   * PUT is idempotent: sending the same update twice answers the second
   * time exactly as the first, whether the first found the record or not.
   */
  method UpdateTwice(db: Store, user: Option<Identity>, id: int, body: VendorModel.VendorFields)
    returns (first: Response, second: Response)
    modifies db
    ensures second == first
  {
    ghost var before := db.vendors;
    first := UpdateVendor(db, user, id, body);
    if first.status != 404 {
      assert forall k :: 0 <= k < |db.vendors| ==> db.vendors[k].id == before[k].id;
      FindIndexSameIds(before, db.vendors, id);
    }
    second := UpdateVendor(db, user, id, body);
  }

  /** Deleting the same id twice: once the first call succeeds, the second responds 404. */
  method DeleteTwice(db: Store, user: Option<Identity>, id: int) returns (first: Response, second: Response)
    modifies db
    ensures old(db.Valid()) && first.status == 200 ==> second == Response(404, Failure(DeleteNotFound))
  {
    first := DeleteVendor(db, user, id);
    second := DeleteVendor(db, user, id);
  }
}
