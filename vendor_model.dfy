/**
 * The Vendor model: tenant scoping (by owning user and organisation) on top
 * of the store, the newest-first listing, and the authorise-then-act
 * create / update / delete.
 */
module VendorModel {
  import opened Wrappers
  import opened InMemoryDb

  /** JavaScript truthiness of an optional id: undefined, null and 0 are falsy. */
  predicate Truthy(x: Option<int>) {
    x.Some? && x.value != 0
  }

  /** `x || null`: a falsy id collapses to null. */
  function OrNull(x: Option<int>): Option<int> {
    if Truthy(x) then x else None
  }

  /**
   * The tenancy test: the owner must equal `userId` when `userId` is truthy,
   * and the organisation must equal `orgId` when `orgId` is truthy.
   */
  predicate InScope(v: Vendor, userId: Option<int>, orgId: Option<int>) {
    (!Truthy(userId) || v.userId == userId) && (!Truthy(orgId) || v.orgId == orgId)
  }

  /** `vendors.filter(...)` with the tenancy test, keeping store order. */
  function Scoped(s: seq<Vendor>, userId: Option<int>, orgId: Option<int>): (r: seq<Vendor>)
    ensures forall i :: 0 <= i < |r| ==> InScope(r[i], userId, orgId)
    ensures forall x :: multiset(r)[x] == if InScope(x, userId, orgId) then multiset(s)[x] else 0
  {
    if s == [] then []
    else
      assert s == [s[0]] + s[1..];
      (if InScope(s[0], userId, orgId) then [s[0]] else []) + Scoped(s[1..], userId, orgId)
  }

  /** With no truthy filter value the tenancy filter keeps every record. */
  lemma {:induction false} ScopedWithoutFilter(s: seq<Vendor>, userId: Option<int>, orgId: Option<int>)
    requires !Truthy(userId) && !Truthy(orgId)
    ensures Scoped(s, userId, orgId) == s
  {
    if s != [] {
      ScopedWithoutFilter(s[1..], userId, orgId);
      assert s == [s[0]] + s[1..];
    }
  }

  /** Ordered by creation time, most recent first. */
  predicate NewestFirst(s: seq<Vendor>) {
    forall i, j :: 0 <= i < j < |s| ==> s[i].createdAt >= s[j].createdAt
  }

  /** The records created at instant `t`, in their order in `s`. */
  function CreatedAt(s: seq<Vendor>, t: int): seq<Vendor> {
    if s == [] then []
    else (if s[0].createdAt == t then [s[0]] else []) + CreatedAt(s[1..], t)
  }

  /**
   * Filtering keeps store order within each instant: the records of instant
   * `t` that pass the filter are the store's records of instant `t`, in
   * store order, less the ones that fail it.
   */
  lemma {:induction false} ScopedKeepsCreatedAt(s: seq<Vendor>, userId: Option<int>, orgId: Option<int>, t: int)
    ensures CreatedAt(Scoped(s, userId, orgId), t) == Scoped(CreatedAt(s, t), userId, orgId)
  {
    if s != [] {
      var v, rest := s[0], s[1..];
      var kept, stamped := Scoped(rest, userId, orgId), CreatedAt(rest, t);
      ScopedKeepsCreatedAt(rest, userId, orgId, t);
      assert Scoped(s, userId, orgId) == (if InScope(v, userId, orgId) then [v] else []) + kept;
      assert CreatedAt(s, t) == (if v.createdAt == t then [v] else []) + stamped;
      if InScope(v, userId, orgId) {
        CreatedAtCons(v, kept, t);
      } else {
        assert [] + kept == kept;
      }
      if v.createdAt == t {
        ScopedCons(v, stamped, userId, orgId);
      } else {
        assert [] + stamped == stamped;
      }
    }
  }

  /** One step of the filter on a sequence that starts with `v`. */
  lemma ScopedCons(v: Vendor, s: seq<Vendor>, userId: Option<int>, orgId: Option<int>)
    ensures Scoped([v] + s, userId, orgId) == (if InScope(v, userId, orgId) then [v] else []) + Scoped(s, userId, orgId)
  {
    assert ([v] + s)[1..] == s;
  }

  /** One step of `CreatedAt` on a sequence that starts with `v`. */
  lemma CreatedAtCons(v: Vendor, s: seq<Vendor>, t: int)
    ensures CreatedAt([v] + s, t) == (if v.createdAt == t then [v] else []) + CreatedAt(s, t)
  {
    assert ([v] + s)[1..] == s;
  }

  /** Puts `v` in front of the first record of `s` that is not more recent than `v`. */
  function InsertNewestFirst(v: Vendor, s: seq<Vendor>): (r: seq<Vendor>)
    ensures multiset(r) == multiset(s) + multiset{v}
  {
    if s == [] || s[0].createdAt <= v.createdAt then [v] + s
    else
      assert s == [s[0]] + s[1..];
      [s[0]] + InsertNewestFirst(v, s[1..])
  }

  /**
   * `vendors.sort((a, b) => b.created_at - a.created_at)` with the stable
   * sort the language guarantees: an insertion sort that keeps records of
   * equal creation time in their given order.
   */
  function SortNewestFirst(s: seq<Vendor>): (r: seq<Vendor>)
    ensures multiset(r) == multiset(s)
  {
    if s == [] then []
    else
      assert s == [s[0]] + s[1..];
      InsertNewestFirst(s[0], SortNewestFirst(s[1..]))
  }

  /** Inserting `v` into records no more recent than `b` gives records no more recent than `b`. */
  lemma {:induction false} InsertStaysBelow(v: Vendor, s: seq<Vendor>, b: int)
    requires v.createdAt <= b
    requires forall k :: 0 <= k < |s| ==> s[k].createdAt <= b
    ensures forall k :: 0 <= k < |InsertNewestFirst(v, s)| ==> InsertNewestFirst(v, s)[k].createdAt <= b
  {
    if !(s == [] || s[0].createdAt <= v.createdAt) {
      InsertStaysBelow(v, s[1..], b);
    }
  }

  lemma {:induction false} InsertKeepsNewestFirst(v: Vendor, s: seq<Vendor>)
    requires NewestFirst(s)
    ensures NewestFirst(InsertNewestFirst(v, s))
  {
    if s == [] || s[0].createdAt <= v.createdAt {
      var r := [v] + s;
      forall i, j | 0 <= i < j < |r| ensures r[i].createdAt >= r[j].createdAt {
        assert r[j] == s[j - 1];
        if i > 0 {
          assert r[i] == s[i - 1];
        } else if j > 1 {
          assert s[0].createdAt >= s[j - 1].createdAt;
        }
      }
    } else {
      var tail := InsertNewestFirst(v, s[1..]);
      InsertKeepsNewestFirst(v, s[1..]);
      InsertStaysBelow(v, s[1..], s[0].createdAt);
      var r := [s[0]] + tail;
      forall i, j | 0 <= i < j < |r| ensures r[i].createdAt >= r[j].createdAt {
        assert r[j] == tail[j - 1];
        if i > 0 {
          assert r[i] == tail[i - 1];
        }
      }
    }
  }

  lemma {:induction false} SortIsNewestFirst(s: seq<Vendor>)
    ensures NewestFirst(SortNewestFirst(s))
  {
    if s != [] {
      SortIsNewestFirst(s[1..]);
      InsertKeepsNewestFirst(s[0], SortNewestFirst(s[1..]));
    }
  }

  lemma {:induction false} InsertKeepsCreatedAt(v: Vendor, s: seq<Vendor>, t: int)
    ensures CreatedAt(InsertNewestFirst(v, s), t) == (if v.createdAt == t then [v] else []) + CreatedAt(s, t)
  {
    if s == [] || s[0].createdAt <= v.createdAt {
      assert ([v] + s)[1..] == s;
    } else {
      InsertKeepsCreatedAt(v, s[1..], t);
      var r := [s[0]] + InsertNewestFirst(v, s[1..]);
      assert r[1..] == InsertNewestFirst(v, s[1..]);
    }
  }

  /** Stability: for every instant, the records created then keep their relative order. */
  lemma {:induction false} SortKeepsCreatedAt(s: seq<Vendor>, t: int)
    ensures CreatedAt(SortNewestFirst(s), t) == CreatedAt(s, t)
  {
    if s != [] {
      SortKeepsCreatedAt(s[1..], t);
      InsertKeepsCreatedAt(s[0], SortNewestFirst(s[1..]), t);
    }
  }

  lemma SortIsStable(s: seq<Vendor>)
    ensures forall t :: CreatedAt(SortNewestFirst(s), t) == CreatedAt(s, t)
  {
    forall t ensures CreatedAt(SortNewestFirst(s), t) == CreatedAt(s, t) {
      SortKeepsCreatedAt(s, t);
    }
  }

  /**
   * getAll: the stored records, filtered by tenancy when `userId` or `orgId`
   * is truthy, most recent first, records of equal creation time in store
   * order.
   */
  function GetAll(db: Store, userId: Option<int>, orgId: Option<int>): (r: seq<Vendor>)
    reads db
    ensures forall i :: 0 <= i < |r| ==> InScope(r[i], userId, orgId)
    ensures forall x :: multiset(r)[x] == if InScope(x, userId, orgId) then multiset(db.vendors)[x] else 0
    ensures !Truthy(userId) && !Truthy(orgId) ==> multiset(r) == multiset(db.vendors)
    ensures NewestFirst(r)
    ensures forall t :: CreatedAt(r, t) == Scoped(CreatedAt(db.vendors, t), userId, orgId)
    ensures !Truthy(userId) && !Truthy(orgId) ==> forall t :: CreatedAt(r, t) == CreatedAt(db.vendors, t)
  {
    var vendors := db.GetAllVendors();
    var filtered := if Truthy(userId) || Truthy(orgId) then Scoped(vendors, userId, orgId) else vendors;
    assert filtered == Scoped(vendors, userId, orgId) by {
      if !(Truthy(userId) || Truthy(orgId)) {
        ScopedWithoutFilter(vendors, userId, orgId);
      }
    }
    SortIsNewestFirst(filtered);
    SortIsStable(filtered);
    forall t ensures CreatedAt(filtered, t) == Scoped(CreatedAt(vendors, t), userId, orgId) {
      ScopedKeepsCreatedAt(vendors, userId, orgId, t);
      if !(Truthy(userId) || Truthy(orgId)) {
        ScopedWithoutFilter(CreatedAt(vendors, t), userId, orgId);
      }
    }
    SortNewestFirst(filtered)
  }

  /**
   * getById: the stored record with `id` when it passes the tenancy test;
   * None when the id is absent or the record belongs to another tenant.
   */
  function GetById(db: Store, id: int, userId: Option<int>, orgId: Option<int>): (r: Option<Vendor>)
    reads db
    ensures r.Some? ==> r.value in db.vendors && r.value.id == id && InScope(r.value, userId, orgId)
    ensures IdsDistinct(db.vendors) ==>
              (r.None? <==> forall v :: v in db.vendors && v.id == id ==> !InScope(v, userId, orgId))
    ensures !Truthy(userId) && !Truthy(orgId) ==> r == db.GetVendorById(id)
  {
    var vendor := db.GetVendorById(id);
    if vendor.None? then None
    else if Truthy(userId) && vendor.value.userId != userId then None
    else if Truthy(orgId) && vendor.value.orgId != orgId then None
    else vendor
  }

  /** The five mutable keys of a vendor, as read from a request body; None is undefined or null. */
  datatype VendorFields = VendorFields(
    name: Text,
    category: Text,
    contactEmail: Text,
    phoneNumber: Text,
    address: Text)

  /** The object update hands to the store: all five mutable keys present, even when undefined. */
  function UpdatePatch(f: VendorFields): Patch {
    Patch(None, Some(f.name), Some(f.category), Some(f.contactEmail), Some(f.phoneNumber),
          Some(f.address), None, None, None)
  }

  /**
   * Applying the update object replaces all five mutable keys, an undefined
   * one included, and keeps id, owner, organisation and creation time.
   */
  lemma UpdatePatchOverwrites(v: Vendor, f: VendorFields)
    ensures Merge(v, UpdatePatch(f), v.id)
            == v.(name := f.name, category := f.category, contactEmail := f.contactEmail,
                  phoneNumber := f.phoneNumber, address := f.address)
  {
  }

  /**
   * create: stores the five fields and the owner / organisation (null when
   * falsy) as a new record created at `now`.
   */
  method Create(db: Store, data: VendorData, now: int) returns (v: Vendor)
    modifies db
    ensures old(db.Valid()) ==> db.Valid()
    ensures db.vendors == old(db.vendors) + [v]
    ensures v.id == NextId(old(db.vendors)) && v.createdAt == now
    ensures v.name == data.name && v.category == data.category && v.contactEmail == data.contactEmail
    ensures v.phoneNumber == data.phoneNumber && v.address == data.address
    ensures v.userId == OrNull(data.userId) && v.orgId == OrNull(data.orgId)
  {
    v := db.AddVendor(VendorData(data.name, data.category, data.contactEmail, data.phoneNumber,
                                 data.address, OrNull(data.userId), OrNull(data.orgId)), now);
  }

  /**
   * update: None and no change when the scoped lookup fails; otherwise the
   * record's five mutable fields all take the payload's values (absent ones
   * included), and its id, owner, organisation and creation time stay.
   */
  method Update(db: Store, id: int, fields: VendorFields, userId: Option<int>, orgId: Option<int>)
    returns (r: Option<Vendor>)
    modifies db
    ensures old(db.Valid()) ==> db.Valid()
    ensures old(GetById(db, id, userId, orgId)).None? ==> r.None? && db.vendors == old(db.vendors)
    ensures old(GetById(db, id, userId, orgId)).Some? ==>
              var before := old(GetById(db, id, userId, orgId)).value;
              var i := FindIndex(old(db.vendors), id);
              r == Some(before.(name := fields.name, category := fields.category,
                                contactEmail := fields.contactEmail, phoneNumber := fields.phoneNumber,
                                address := fields.address))
              && 0 <= i && db.vendors == old(db.vendors)[i := r.value]
  {
    var existing := GetById(db, id, userId, orgId);
    if existing.None? {
      return None;
    }
    r := db.UpdateVendor(id, UpdatePatch(fields));
  }

  /**
   * delete: None and no change when the scoped lookup fails; otherwise the
   * record is spliced out and returned, and no record with `id` remains.
   */
  method Delete(db: Store, id: int, userId: Option<int>, orgId: Option<int>) returns (r: Option<Vendor>)
    modifies db
    ensures old(db.Valid()) ==> db.Valid()
    ensures old(GetById(db, id, userId, orgId)).None? ==> r.None? && db.vendors == old(db.vendors)
    ensures old(GetById(db, id, userId, orgId)).Some? ==>
              var i := FindIndex(old(db.vendors), id);
              r == old(GetById(db, id, userId, orgId))
              && SplicedOut(old(db.vendors), i, db.vendors)
    ensures old(GetById(db, id, userId, orgId)).Some? && old(db.Valid()) ==> db.GetVendorById(id).None?
  {
    var existing := GetById(db, id, userId, orgId);
    if existing.None? {
      return None;
    }
    r := db.DeleteVendor(id);
  }
}
