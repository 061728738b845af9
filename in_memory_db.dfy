/**
 * The process-wide vendor store: one sequence of vendor records that the
 * mutators change in place (push, index assignment, splice), seeded with
 * four records.
 */
module InMemoryDb {
  import opened Wrappers

  /** A text field of a record; None stands for a key that is missing, undefined or null. */
  type Text = Option<string>

  /**
   * A stored vendor record. `createdAt` is the creation instant in
   * milliseconds since the epoch; `userId` / `orgId` are the owning user and
   * organisation, None when the record has no such key or holds null.
   */
  datatype Vendor = Vendor(
    id: int,
    name: Text,
    category: Text,
    contactEmail: Text,
    phoneNumber: Text,
    address: Text,
    createdAt: int,
    userId: Option<int>,
    orgId: Option<int>)

  /** The object handed to addVendor: every key of a new record except id and created_at. */
  datatype VendorData = VendorData(
    name: Text,
    category: Text,
    contactEmail: Text,
    phoneNumber: Text,
    address: Text,
    userId: Option<int>,
    orgId: Option<int>)

  /**
   * The object handed to updateVendor. Each component is None when the key is
   * not in the object and Some(value) when it is, so a key present with an
   * undefined value is Some(None).
   */
  datatype Patch = Patch(
    id: Option<int>,
    name: Option<Text>,
    category: Option<Text>,
    contactEmail: Option<Text>,
    phoneNumber: Option<Text>,
    address: Option<Text>,
    createdAt: Option<int>,
    userId: Option<Option<int>>,
    orgId: Option<Option<int>>)

  /** No two records share an id. */
  predicate IdsDistinct(s: seq<Vendor>) {
    forall i, j :: 0 <= i < j < |s| ==> s[i].id != s[j].id
  }

  /** Every id is a positive integer. */
  predicate IdsPositive(s: seq<Vendor>) {
    forall i :: 0 <= i < |s| ==> s[i].id >= 1
  }

  /** `Math.max(...vendors.map(v => v.id))` on a non-empty store. */
  function MaxId(s: seq<Vendor>): (m: int)
    requires |s| > 0
    ensures forall i :: 0 <= i < |s| ==> s[i].id <= m
    ensures exists i :: 0 <= i < |s| && s[i].id == m
  {
    if |s| == 1 then s[0].id
    else
      var rest := MaxId(s[1..]);
      if s[0].id >= rest then s[0].id else rest
  }

  /** getNextId: one more than the largest id present, or 1 for an empty store. */
  function NextId(s: seq<Vendor>): (r: int)
    ensures |s| == 0 ==> r == 1
    ensures forall i :: 0 <= i < |s| ==> s[i].id < r
    ensures |s| > 0 ==> exists i :: 0 <= i < |s| && s[i].id == r - 1
    ensures IdsPositive(s) ==> r >= 1
  {
    (if |s| > 0 then MaxId(s) else 0) + 1
  }

  /** `vendors.findIndex(v => v.id === id)`: the first index holding `id`, or -1. */
  function FindIndex(s: seq<Vendor>, id: int): (r: int)
    ensures -1 <= r < |s|
    ensures r >= 0 ==> s[r].id == id && forall j :: 0 <= j < r ==> s[j].id != id
    ensures r == -1 <==> forall j :: 0 <= j < |s| ==> s[j].id != id
  {
    if |s| == 0 then -1
    else if s[0].id == id then 0
    else
      var k := FindIndex(s[1..], id);
      if k == -1 then -1 else k + 1
  }

  /** `FindIndex` sees only ids: records replaced by ones with the same ids leave it unchanged. */
  lemma {:induction false} FindIndexSameIds(s: seq<Vendor>, t: seq<Vendor>, id: int)
    requires |s| == |t| && forall k :: 0 <= k < |s| ==> s[k].id == t[k].id
    ensures FindIndex(t, id) == FindIndex(s, id)
  {
    if |s| > 0 {
      FindIndexSameIds(s[1..], t[1..], id);
    }
  }

  /** `{ ...v, ...p, id: id }`: keys present in the patch win, and the id is forced to `id`. */
  function Merge(v: Vendor, p: Patch, id: int): Vendor {
    Vendor(
      id,
      p.name.GetOr(v.name),
      p.category.GetOr(v.category),
      p.contactEmail.GetOr(v.contactEmail),
      p.phoneNumber.GetOr(v.phoneNumber),
      p.address.GetOr(v.address),
      p.createdAt.GetOr(v.createdAt),
      p.userId.GetOr(v.userId),
      p.orgId.GetOr(v.orgId))
  }

  /** Spreading the same object twice is the same as spreading it once. */
  lemma MergeTwice(v: Vendor, p: Patch, id: int)
    ensures Merge(Merge(v, p, id), p, id) == Merge(v, p, id)
  {
  }

  /** The four seed records (ids 1 to 4); they carry no user_id / org_id. */
  const Seed: seq<Vendor> := [
    Vendor(1, Some("ABC Supplies"), Some("Office Supplies"), Some("info@abcsupplies.com"),
           Some("123-456-7890"), Some("123 Main St, City, Country"), 1750507200000, None, None),
    Vendor(2, Some("XYZ Technologies"), Some("IT Services"), Some("contact@xyztech.com"),
           Some("987-654-3210"), Some("456 Tech Ave, City, Country"), 1750509000000, None, None),
    Vendor(3, Some("Global Logistics"), Some("Shipping"), Some("support@globallogistics.com"),
           Some("555-789-1234"), Some("789 Shipping Lane, Port City, Country"), 1750510800000, None, None),
    Vendor(4, Some("Quick Print Solutions"), Some("Office Supplies"), Some("orders@quickprint.com"),
           Some("444-333-2222"), Some("101 Print Blvd, Downtown, Country"), 1750515000000, None, None)
  ]

  /**
   * `t` is `s` with the record at index `i` spliced out: one record fewer,
   * the others in their order.
   */
  predicate SplicedOut(s: seq<Vendor>, i: int, t: seq<Vendor>) {
    0 <= i < |s| && |t| == |s| - 1
    && forall k {:trigger t[k]} :: 0 <= k < |t| ==> t[k] == if k < i then s[k] else s[k + 1]
  }

  /** `SplicedOut` is exactly the slice form `s[..i] + s[i + 1..]`. */
  lemma SplicedOutIsSlice(s: seq<Vendor>, i: int, t: seq<Vendor>)
    requires 0 <= i < |s|
    ensures SplicedOut(s, i, t) <==> t == s[..i] + s[i + 1..]
  {
  }

  /**
   * Splicing index `i` out keeps ids positive and distinct, and with
   * distinct ids no remaining record carries the removed record's id.
   */
  lemma RemoveKeepsIds(s: seq<Vendor>, i: int, t: seq<Vendor>)
    requires 0 <= i < |s| && t == s[..i] + s[i + 1..]
    ensures IdsPositive(s) ==> IdsPositive(t)
    ensures IdsDistinct(s) ==> IdsDistinct(t)
    ensures IdsDistinct(s) ==> forall k :: 0 <= k < |t| ==> t[k].id != s[i].id
  {
    SplicedOutIsSlice(s, i, t);
  }

  /** The seed holds ids 1, 2, 3 and 4 in that order, so it satisfies the store invariant. */
  lemma SeedIds()
    ensures |Seed| == 4
    ensures Seed[0].id == 1 && Seed[1].id == 2 && Seed[2].id == 3 && Seed[3].id == 4
    ensures IdsDistinct(Seed) && IdsPositive(Seed)
    ensures FindIndex(Seed, 4) == 3
  {
  }

  /** When every id is below a positive bound `m`, the next id is at most `m`. */
  lemma NextIdAtMost(t: seq<Vendor>, m: int)
    requires m >= 1
    requires forall k :: 0 <= k < |t| ==> t[k].id < m
    ensures NextId(t) <= m
  {
    if |t| > 0 {
      var w :| 0 <= w < |t| && t[w].id == NextId(t) - 1;
    }
  }

  /** The records left after splicing out index `i` all have ids below `s[i].id` when it was the largest. */
  lemma RemovedMaxBounds(s: seq<Vendor>, i: int, t: seq<Vendor>)
    requires IdsDistinct(s)
    requires 0 <= i < |s| && t == s[..i] + s[i + 1..]
    requires forall k :: 0 <= k < |s| ==> s[k].id <= s[i].id
    ensures forall k :: 0 <= k < |t| ==> t[k].id < s[i].id
  {
    RemoveKeepsIds(s, i, t);
    SplicedOutIsSlice(s, i, t);
  }

  /**
   * Removing the record with the largest id lowers the next id to at most
   * that id. It is exactly that id, so the freed id is handed out again,
   * when and only when the id is 1 or the id just below it is present.
   */
  lemma {:induction false} NextIdAfterRemovingMax(s: seq<Vendor>, i: int)
    requires IdsDistinct(s) && IdsPositive(s)
    requires 0 <= i < |s| && s[i].id == NextId(s) - 1
    ensures NextId(s[..i] + s[i + 1..]) <= s[i].id
    ensures NextId(s[..i] + s[i + 1..]) == s[i].id <==>
              s[i].id == 1 || exists j :: 0 <= j < |s| && s[j].id == s[i].id - 1
  {
    var t := s[..i] + s[i + 1..];
    RemovedMaxBounds(s, i, t);
    NextIdAtMost(t, s[i].id);
    assert SplicedOut(s, i, t) by { SplicedOutIsSlice(s, i, t); }
    if j :| 0 <= j < |s| && s[j].id == s[i].id - 1 {
      var k := if j < i then j else j - 1;
      assert t[k] == s[j];
    }
    if NextId(t) == s[i].id && |t| > 0 {
      var w :| 0 <= w < |t| && t[w].id == NextId(t) - 1;
      var j := if w < i then w else w + 1;
      assert s[j] == t[w];
    }
  }

  /** The store: the `vendors` array of the in-memory database object. */
  class Store {
    var vendors: seq<Vendor>

    /** The store's invariant: ids are pairwise distinct positive integers. */
    ghost predicate Valid()
      reads this
    {
      IdsDistinct(vendors) && IdsPositive(vendors)
    }

    /** The state at process start: the seed records. */
    constructor ()
      ensures vendors == Seed
      ensures Valid()
    {
      vendors := Seed;
      SeedIds();
    }

    /** getAllVendors: a snapshot of the records in store order (a value, unaffected by later mutation). */
    function GetAllVendors(): seq<Vendor>
      reads this
    {
      vendors
    }

    /** getVendorById: the first record carrying `id`, or None when no record does. */
    function GetVendorById(id: int): (r: Option<Vendor>)
      reads this
      ensures r.Some? <==> exists i :: 0 <= i < |vendors| && vendors[i].id == id
      ensures r.Some? ==> r.value.id == id
      ensures r.Some? ==> exists i :: 0 <= i < |vendors| && vendors[i] == r.value
                                      && forall j :: 0 <= j < i ==> vendors[j].id != id
    {
      var i := FindIndex(vendors, id);
      if i == -1 then None else Some(vendors[i])
    }

    /**
     * addVendor: appends a record with the next id, the given keys and the
     * creation time `now`, and returns it.
     */
    method AddVendor(data: VendorData, now: int) returns (v: Vendor)
      modifies this
      ensures old(Valid()) ==> Valid()
      ensures v == Vendor(NextId(old(vendors)), data.name, data.category, data.contactEmail,
                          data.phoneNumber, data.address, now, data.userId, data.orgId)
      ensures vendors == old(vendors) + [v]
    {
      v := Vendor(NextId(vendors), data.name, data.category, data.contactEmail,
                  data.phoneNumber, data.address, now, data.userId, data.orgId);
      vendors := vendors + [v];
    }

    /**
     * updateVendor: when `id` is absent, returns None and changes nothing;
     * otherwise replaces the record at its index by the shallow merge with
     * the id kept, and returns the merged record.
     */
    method UpdateVendor(id: int, patch: Patch) returns (r: Option<Vendor>)
      modifies this
      ensures old(Valid()) ==> Valid()
      ensures r.None? <==> forall j :: 0 <= j < |old(vendors)| ==> old(vendors)[j].id != id
      ensures r.None? ==> vendors == old(vendors)
      ensures r.Some? ==> r.value.id == id && |vendors| == |old(vendors)|
      ensures r.Some? ==>
                var i := FindIndex(old(vendors), id);
                0 <= i && r.value == Merge(old(vendors)[i], patch, id) && vendors == old(vendors)[i := r.value]
    {
      var index := FindIndex(vendors, id);
      if index == -1 {
        return None;
      }
      var updated := Merge(vendors[index], patch, id);
      vendors := vendors[index := updated];
      assert forall k :: 0 <= k < |vendors| ==> vendors[k].id == old(vendors)[k].id;
      return Some(updated);
    }

    /**
     * deleteVendor: when `id` is absent, returns None and changes nothing;
     * otherwise splices the record out and returns it.
     */
    method DeleteVendor(id: int) returns (r: Option<Vendor>)
      modifies this
      ensures old(Valid()) ==> Valid()
      ensures r.None? <==> forall j :: 0 <= j < |old(vendors)| ==> old(vendors)[j].id != id
      ensures r.None? ==> vendors == old(vendors)
      ensures r.Some? ==>
                var i := FindIndex(old(vendors), id);
                0 <= i && r.value == old(vendors)[i] && SplicedOut(old(vendors), i, vendors)
      ensures r.Some? ==> |vendors| == |old(vendors)| - 1
      ensures old(Valid()) ==> forall k :: 0 <= k < |vendors| ==> vendors[k].id != id
    {
      var index := FindIndex(vendors, id);
      if index == -1 {
        return None;
      }
      var rest := vendors[..index] + vendors[index + 1..];
      RemoveKeepsIds(vendors, index, rest);
      SplicedOutIsSlice(vendors, index, rest);
      r := Some(vendors[index]);
      vendors := rest;
    }
  }

  /** The seed with its last record spliced out has next id 4. */
  lemma SeedWithoutFour(t: seq<Vendor>)
    requires SplicedOut(Seed, 3, t)
    ensures NextId(t) == 4
  {
    SeedIds();
    assert t[0].id == 1 && t[1].id == 2 && t[2].id == 3;
  }

  /**
   * From the seed state, deleting vendor 4 (the largest id) and then adding
   * a vendor hands out id 4 again.
   */
  method ReuseOfFreedId(data: VendorData, now: int) returns (deleted: Option<Vendor>, added: Vendor)
    ensures deleted.Some? && deleted.value.id == 4
    ensures added.id == 4
  {
    SeedIds();
    var db := new Store();
    deleted := db.DeleteVendor(4);
    SeedWithoutFour(db.vendors);
    added := db.AddVendor(data, now);
  }

  /**
   * On any store satisfying the invariant, deleting the record with the
   * largest id and then adding a record hands out an id no larger than the
   * freed one, and the freed id itself exactly when it is 1 or the id just
   * below it is present.
   */
  method ReuseOfLargestId(db: Store, data: VendorData, now: int) returns (deleted: Option<Vendor>, added: Vendor)
    requires db.Valid() && |db.vendors| > 0
    modifies db
    ensures deleted.Some? && deleted.value.id == NextId(old(db.vendors)) - 1
    ensures added.id <= deleted.value.id
    ensures added.id == deleted.value.id <==>
              deleted.value.id == 1
              || exists j :: 0 <= j < |old(db.vendors)| && old(db.vendors)[j].id == deleted.value.id - 1
  {
    ghost var s := db.vendors;
    var largest := NextId(db.vendors) - 1;
    ghost var i := FindIndex(s, largest);
    deleted := db.DeleteVendor(largest);
    SplicedOutIsSlice(s, i, db.vendors);
    NextIdAfterRemovingMax(s, i);
    added := db.AddVendor(data, now);
  }
}
