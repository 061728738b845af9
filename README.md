# Vendor CRUD service: a Dafny model of its data-access slice

The service keeps vendor records in one process-wide in-memory array and serves
five HTTP operations for them: list, get one, create, update and delete. The
model has three layers, one Dafny module each.

- `InMemoryDb` (`in_memory_db.dfy`) is the store. It is a class `Store` whose
  field `vendors: seq<Vendor>` is changed in place by `AddVendor` (push),
  `UpdateVendor` (index assignment) and `DeleteVendor` (splice). The
  constructor seeds the four records with ids 1 to 4. The next id is the
  largest id present plus one, or 1 for an empty store. So after the largest
  id is deleted, that id can be handed out again; `NextIdAfterRemovingMax` and
  `ReuseOfFreedId` prove this. The store invariant `Valid()` says ids are
  pairwise distinct positive integers. Every mutator keeps it.
- `VendorModel` (`vendor_model.dfy`) adds tenant scoping. `GetAll` filters by
  owning user and organisation, each only when its argument is truthy
  (undefined, null and 0 are falsy). It then sorts newest first with a
  stable sort. `GetById` is the scoped lookup, and it returns None on every
  failure. `Create`, `Update` and `Delete` check access through `GetById`
  before they act. `Update` always passes all five mutable keys to the store.
  A key the caller left out therefore overwrites the stored value with
  "absent" instead of keeping it.
- `VendorController` (`vendor_controller.dfy`) holds the request handlers.
  Each one takes the caller's optional identity (user id, org id), the
  already-parsed id and the request body. It returns a `Response` value: the
  HTTP status plus the `{success, count?, message?, data}` or
  `{success: false, message}` envelope, with the source's own message texts.

`wrappers.dfy` defines `Option`. In it, None stands for JavaScript's `null` or
`undefined`.

## Behaviour worth noting

- Ids are not monotonic across the store's lifetime. They are recomputed from
  the largest id present (src/config/inMemoryDb.js:43-47), so a freed largest
  id is reused. `NextIdAfterRemovingMax` and `ReuseOfLargestId` say exactly
  when.
- An update does not keep omitted mutable fields. The model layer builds an
  object with all five keys (src/models/vendor.js:79-85), and the store's
  spread (src/config/inMemoryDb.js:71-75) copies `undefined` over the old
  values. `UpdatePatchOverwrites` states this.

## Model

| member | source | states |
|---|---|---|
| `InMemoryDb.MaxId` | src/config/inMemoryDb.js:44-45 | On a non-empty store, the result is at least every id and equals the id of some record. |
| `InMemoryDb.NextId` | src/config/inMemoryDb.js:43-47 | 1 on an empty store. Otherwise strictly greater than every id present and exactly one more than some present id, that is, max + 1. At least 1 when all ids are positive. |
| `InMemoryDb.FindIndex` | src/config/inMemoryDb.js:68 | Returns the first index whose record has the id, or -1 exactly when no record has it. |
| `InMemoryDb.NextIdAfterRemovingMax` | src/config/inMemoryDb.js:43-88 | With distinct positive ids, removing the largest-id record gives a next id no larger than the removed id. The next id equals the removed id, so the id is reused, if and only if the id is 1 or the id just below it is present. |
| `InMemoryDb.ReuseOfLargestId` | src/config/inMemoryDb.js:43-88 | On any store satisfying the invariant, deleting the largest id and then adding a record hands out an id no larger than the freed one. It is the freed id exactly when that id is 1 or the id just below it is present. |
| `InMemoryDb.SplicedOutIsSlice` | src/config/inMemoryDb.js:86 | The index-wise description of the store after a delete is equivalent to `s[..i] + s[i + 1..]`, the result of `splice(index, 1)`. |
| `InMemoryDb.Merge` | src/config/inMemoryDb.js:71-75 | Definition of the shallow spread `{...v, ...p, id}`: keys present in the patch win, and the id is forced. |
| `InMemoryDb.MergeTwice` | src/config/inMemoryDb.js:71-75 | Applying the same update twice gives the same record as applying it once. |
| `InMemoryDb.ReuseOfFreedId` | src/config/inMemoryDb.js:3-88 | From the seed state, deleting vendor 4 and then adding a vendor gives the new record id 4. |
| `InMemoryDb.SeedIds` | src/config/inMemoryDb.js:3-40 | The seed holds ids 1, 2, 3, 4 in that order, pairwise distinct and positive, so id 4 sits at index 3. |
| `InMemoryDb.SeedWithoutFour` | src/config/inMemoryDb.js:43-47 | The seed with its last record spliced out has next id 4. |
| `InMemoryDb.RemoveKeepsIds` | src/config/inMemoryDb.js:85-86 | Removing one index keeps ids positive and pairwise distinct. With distinct ids, no remaining record has the removed record's id. |
| `InMemoryDb.Store.constructor` | src/config/inMemoryDb.js:3-40 | The initial state is the four seed records, and it satisfies the invariant: ids distinct and positive. |
| `InMemoryDb.Store.GetAllVendors` | src/config/inMemoryDb.js:49-51 | Definition: the stored records in store order, as a value, so later changes to the store do not affect it. |
| `InMemoryDb.Store.GetVendorById` | src/config/inMemoryDb.js:53-55 | Some exactly when a record has the id. Then it is the first such record in store order, and it carries that id. |
| `InMemoryDb.Store.AddVendor` | src/config/inMemoryDb.js:57-65 | Appends exactly one record and leaves every earlier record unchanged. The new record has id `NextId` of the old store, the given keys and `created_at` = the clock value. Keeps the invariant. |
| `InMemoryDb.Store.UpdateVendor` | src/config/inMemoryDb.js:67-79 | Absent id: None, store unchanged. Present id: only that index is replaced, by the shallow merge with the requested id. Length is unchanged, the result carries the id, and the invariant is kept. |
| `InMemoryDb.Store.DeleteVendor` | src/config/inMemoryDb.js:81-88 | Absent id: None, store unchanged. Present id: returns the first record with the id, and the store becomes the old one with that index spliced out: records before it stay in place and later ones move down by one. Length drops by 1, and under the invariant no remaining record has the id. |
| `VendorModel.Truthy` | src/models/vendor.js:14 | Definition of JavaScript truthiness for an optional id: undefined, null and 0 are falsy. |
| `VendorModel.OrNull` | src/models/vendor.js:61-62 | Definition of the `or null` default on an optional id: a falsy value becomes null, a truthy one is kept. |
| `VendorModel.InScope` | src/models/vendor.js:16-19 | Definition of the tenancy test: owner equals a truthy `userId`, organisation equals a truthy `orgId`. |
| `VendorModel.Scoped` | src/models/vendor.js:14-21 | Every kept record passes the user/org test. Each passing record is kept as many times as it is stored, and failing ones are dropped. |
| `VendorModel.ScopedWithoutFilter` | src/models/vendor.js:14-21 | With neither filter value truthy, the filter keeps the whole sequence. |
| `VendorModel.ScopedKeepsCreatedAt` | src/models/vendor.js:15-20 | The filter keeps store order: for each instant, the filtered records of that instant are the store's records of that instant, in store order, filtered. |
| `VendorModel.InsertNewestFirst` | src/models/vendor.js:24 | Inserting adds exactly the one record: its multiset is the old one plus that record. |
| `VendorModel.SortNewestFirst` | src/models/vendor.js:24 | The sort is a permutation of its input (same multiset). |
| `VendorModel.InsertKeepsNewestFirst` | src/models/vendor.js:24 | Inserting into a newest-first sequence keeps it newest first. |
| `VendorModel.SortIsNewestFirst` | src/models/vendor.js:24 | The sort output is ordered by `created_at`, non-increasing. |
| `VendorModel.InsertKeepsCreatedAt` | src/models/vendor.js:24 | For each instant, the inserted record goes before the records of that instant and leaves their order alone. |
| `VendorModel.SortKeepsCreatedAt` | src/models/vendor.js:24 | Stability: for each instant, the records created at that instant appear in their input order. |
| `VendorModel.SortIsStable` | src/models/vendor.js:24 | The stability statement above, for all instants at once. |
| `VendorModel.GetAll` | src/models/vendor.js:8-30 | Every returned record passes the truthy user/org filters, and every stored record that passes is returned, with its multiplicity. With no truthy filter the result is a permutation of the store. Output is newest first. For each instant, the records of that instant are the store's records of that instant, in store order, filtered; with no truthy filter they are exactly the store's. |
| `VendorModel.GetById` | src/models/vendor.js:33-49 | A result is a stored record with the id that passes the filters. With distinct ids, None exactly when no record with the id passes: id absent, truthy `userId` differs, or truthy `orgId` differs. Unscoped, it is the plain store lookup. |
| `VendorModel.UpdatePatch` | src/models/vendor.js:79-85 | Definition of the object the update hands to the store: all five mutable keys present, undefined ones included. |
| `VendorModel.UpdatePatchOverwrites` | src/models/vendor.js:79-85 | Applying that object through the spread sets all five mutable fields to the payload's values, undefined ones included. It keeps id, owner, organisation and `created_at`. |
| `VendorModel.Create` | src/models/vendor.js:52-69 | The store grows by one record: the five given fields, the next id, the clock's `created_at`, and `user_id`/`org_id` = the supplied value, or null when it is falsy (lines 61-62). Keeps the invariant. |
| `VendorModel.Update` | src/models/vendor.js:72-91 | When the scoped lookup fails: None, store unchanged. Otherwise the record at its index has all five mutable fields set to the payload values, absent ones included. id, owner, organisation and `created_at` are preserved, and nothing else changes. |
| `VendorModel.Delete` | src/models/vendor.js:94-107 | When the scoped lookup fails: None, store unchanged. Otherwise it returns that record and removes exactly its index. Under the invariant the id is then absent from the store. |
| `VendorController.UserIdOf` | src/controllers/vendorController.js:9 | Definition of `req.user?.id`: absent when there is no identity. |
| `VendorController.OrgIdOf` | src/controllers/vendorController.js:10 | Definition of `req.user?.org_id`: absent when there is no identity. |
| `VendorController.Provided` | src/controllers/vendorController.js:64 | Definition of truthiness for a body text field: undefined, null and "" are falsy. |
| `VendorController.GetAllVendors` | src/controllers/vendorController.js:6-25 | Status 200, `count` equals the length of `data`, and `data` is the caller-scoped `GetAll`. With no identity it is a permutation of the whole store. |
| `VendorController.GetVendorById` | src/controllers/vendorController.js:28-56 | 404 with "Vendor not found" exactly when the scoped lookup fails. Otherwise 200 with the stored record carrying the id. With no identity: 200 exactly when the id is present. |
| `VendorController.CreateVendor` | src/controllers/vendorController.js:59-91 | Falsy name or category: 400 with the fixed message, store unchanged. Otherwise 201 with exactly `{success: true, data}`, `data` being the appended record: the body's fields, and owner/org from the identity, absent when there is no identity. |
| `VendorController.UpdateVendor` | src/controllers/vendorController.js:94-127 | 404 exactly when the scoped lookup fails, store unchanged. Otherwise 200 with the record whose five mutable fields hold the body's values and whose other fields are kept, written at its index. |
| `VendorController.DeleteVendor` | src/controllers/vendorController.js:130-164 | 404 exactly when the scoped lookup fails, store unchanged. Otherwise 200, "Vendor deleted successfully", `data: {}`, and that index spliced out. No later scoped lookup of the id succeeds, for any identity. |
| `VendorController.UpdateTwice` | src/controllers/vendorController.js:94-127 | PUT is idempotent: the same update sent twice gets the same response both times, whether or not the record was found. |
| `VendorController.DeleteTwice` | src/controllers/vendorController.js:139-156 | When a first delete of an id succeeds, deleting it again responds 404. |

## Left out

- Token decoding (`src/middleware/auth.js`, `jwt.verify`) is not modelled. Its effect is the handlers' `Option<Identity>` input: a missing, invalid or expired token is None. The other claims (email, name, role) are not modelled.
- Dates are not parsed. `created_at` is an integer (milliseconds since the epoch), and the clock is the `now` parameter of the creating calls. The seed's ISO strings are converted to such integers.
- `parseInt(req.params.id)` is not modelled: the id arrives as an integer. A non-numeric id (NaN) matches no record and yields 404 in the source. The model has no NaN.
- Text fields are `Option<string>`: undefined and null are both None. So the model does not show where JSON output would drop `undefined` keys but print `null`. Non-string JSON values in a body are not modelled.
- Ids are unbounded integers. The source's JavaScript numbers (doubles), and the argument-count limit of `Math.max(...ids)`, are not modelled.
- The sorting algorithm of the JavaScript engine is not modelled. `SortNewestFirst` is an insertion sort proved to have the stable-sort contract that `Array.prototype.sort` guarantees. The sort is pure on a copy, so the in-place reordering of that copy is not modelled.
- `async`/`await`, `console.error` logging and the `catch` → 500 branches are not modelled. The in-memory store never throws, so every call is handled as synchronous.
- `src/server.js`, `src/routes/vendorRoutes.js`, `src/config/db.js`, `src/config/setupDb.js`, `src/config/seedDb.js` and `src/models/user.js` are not part of this model. They hold Express bootstrap, CORS, routing, the root descriptor route, the PostgreSQL pool and SQL, and token signing. The active request path does not use any of it.
