# Attendance, device and audit sync handlers — a Dafny model

This project models the four request handlers at the core of a multi-tenant attendance backend. Field devices
register with an activation code. They then batch-upload attendance events and audit entries. Administrators
issue activation codes, list a tenant's devices and deactivate devices.

- `common.dfy` (`Common`): optional values, results, HTTP errors, Python truthiness of optional strings, the
  `"a#b"` composite keys, and `split('-')[0]` as `TenantOf`.
- `models.dfy` (`Models`): the request and response models and the records the handlers persist. The device
  token is an abstract `(tenant_id, device_id)` pair.
- `store.dfy` (`RecordStore`): the record store as a class `Store`. It holds activation codes by code, devices
  by id (plus their store order), attendance records, and the log of audit batch writes. The store queries
  the handlers rely on are defined here: the duplicate-attendance query with its ±30 000 ms window
  (`DuplicateWindow`), devices of a tenant, and the conditional deactivation.
- `attendance.dfy` (`Attendance`): `sync_attendance`. There are three whole-batch guards. Then a loop sorts
  each record into synced, conflicts or errors, and saves each accepted record before the next record is
  checked. The loop is proved equal to the specification function `Run`. Lemmas about `Run` prove five things:
  - each input `local_id` lands in exactly one list, in input order;
  - the saved records are exactly the synced ones;
  - what each record's outcome is (mismatch error, server error, conflict naming the first hit, or synced),
    and that every conflict's existing record lies under that record's key and within its window;
  - a store with no two records under one `tenant#employee` key within the window of each other keeps that
    property through a batch;
  - how two nearby or distant records of one employee are handled.
- `devices.dfy` (`Devices`): `register_device`. Its checks run in the handler's order. It derives the tenant,
  builds the device record and never touches the activation code.
- `admin.dfy` (`Admin`): `create_activation_code`, `list_devices`, and `deactivate_device` with its error mapping.
- `audit.dfy` (`Audit`): `sync_audit_logs`. Every entry gets a fresh id, one shared `synced_at`, the token's
  tenant and device, and a partition key. The store is written once, and only for a non-empty batch.

The clock and `uuid4` are inputs, and so are the exceptions of three store calls: the duplicate query, the
attendance save and the deactivation. Per handler:
- attendance gets one `Tick` per record: the fresh id, the clock reading, and whether the duplicate query or
  the save raises;
- registration gets its two clock readings;
- audit sync gets one id per entry and one time;
- deactivation gets the time and an optional store exception.

The other store calls are taken never to raise (see Left out).

Requests are sequential: each handler runs to completion against the store.

In three places the model follows the code rather than the behaviour the system is described as having:
- Registration never marks the activation code used (`src/api/endpoints/devices.py:57` is a TODO). A pending
  code keeps registering further distinct devices. The described lifecycle, in which registration moves a
  code from "pending" to "used", is not modelled.
- A code without `-` is not rejected. `split('-')[0]` returns the whole code, so both 422 branches are dead.
- A deactivation the store declines is answered with 500, not 404 (see Findings).

The store calls whose bodies are not part of this model (`find_duplicate_attendance`, `get_activation_code`,
`get_device_by_id`, `get_devices_by_tenant`, `save_*`, `deactivate_device`) are given this behaviour:
- the duplicate query returns hits in store order, so `existing_record` is the earliest saved hit;
- listing returns devices in the order they were first saved;
- activation-code and device saves are puts keyed by code and by device id; attendance and audit saves append;
- deactivation updates only a device that exists, belongs to the tenant and is still active. Otherwise it
  returns nothing, unless an injected exception is raised.

## Model

| member | source | states |
|---|---|---|
| `Common.CompositeKey` | src/api/endpoints/attendance.py:60 | the key is the first part, one `#`, then the second part, at known positions |
| `Common.TenantOf` | src/api/endpoints/devices.py:34-37 | the tenant is a prefix of the code with no `-`, and it ends at the first `-` or at the end of the code; it never fails |
| `Common.TenantOfUnique` | src/api/endpoints/admin.py:20-23 | those three properties determine the tenant uniquely |
| `Common.TenantOfSplit` | src/api/endpoints/admin.py:21 | `TENANT-SUFFIX` with no `-` in TENANT yields TENANT, whatever SUFFIX holds |
| `RecordStore.Duplicates` | src/api/endpoints/attendance.py:44 | the hits are exactly the stored records under the key whose timestamp is within ±`DuplicateWindow` (inclusive) |
| `RecordStore.DevicesOf` | src/api/endpoints/admin.py:57 | every listed device belongs to the tenant and is stored; every stored device of the tenant is listed |
| `RecordStore.DeactivateReplyFor` | src/api/endpoints/admin.py:93 | a device comes back iff there is no fault and the device exists, is the tenant's and is active; it comes back with `is_active` false, `deactivated_at` and the reason set; an exception comes back iff one is injected |
| `RecordStore.Store.ActivationCodeFor` | src/api/endpoints/devices.py:18 | finds a code iff it is stored, and returns that record |
| `RecordStore.Store.DeviceById` | src/api/endpoints/devices.py:30 | finds a device iff its id is stored, and returns that record |
| `RecordStore.Store.DevicesByTenant` | src/api/endpoints/admin.py:57 | the tenant's devices in store order (`DevicesOf`); in a well-formed store a device is listed iff it is stored and belongs to the tenant |
| `RecordStore.Store.FindDuplicateAttendance` | src/api/endpoints/attendance.py:44 | a stored attendance record is returned iff it lies under the `tenant#employee` key and its timestamp is within ±`DuplicateWindow` of the given one; hits come in store order (`Duplicates`) |
| `RecordStore.Store.SaveActivationCode` | src/api/endpoints/admin.py:39 | the code record is put under its code; no other code changes |
| `RecordStore.Store.SaveDevice` | src/api/endpoints/devices.py:55 | the device is put under its id; a new id is appended to the store order; the store stays well formed |
| `RecordStore.Store.DeactivateDevice` | src/api/endpoints/admin.py:93 | the reply is `DeactivateReplyFor` of the old devices; only an updated device changes |
| `RecordStore.Store.SaveAttendanceRecord` | src/api/endpoints/attendance.py:67 | the record is appended to the attendance records |
| `RecordStore.Store.SaveAuditRecords` | src/api/endpoints/audit.py:44 | one call appends exactly one batch to the write log |
| `Attendance.AcceptedRecord` | src/api/endpoints/attendance.py:58-65 | definition of the saved record: the input fields plus key `tenant#employee`, the fresh id as `record_id`, the token's tenant, the clock reading and "synced"; its properties are stated by `Attendance.RunSavesSynced` |
| `Attendance.Step` | src/api/endpoints/attendance.py:37-76 | definition of one loop iteration; its outcome per case is stated by `Attendance.RecordOutcome` and `Attendance.StepAddsOneEntry` |
| `Attendance.Run` | src/api/endpoints/attendance.py:36-76 | definition of the loop over a batch; its properties are stated by `Attendance.RunPartition`, `RunSavesSynced`, `RunKeepsNoCloseDuplicates`, `RunGrows` and `ConflictsReferenceStoredRecords` |
| `Attendance.ResponseOf` | src/api/endpoints/attendance.py:78-83 | definition of the response: `synced_count` is the length of the synced list; stated through `Attendance.SyncAttendance` |
| `Attendance.SyncAttendance` | src/api/endpoints/attendance.py:19-83 | a missing or empty header gives 400, a token tenant differing from the header gives 403, more than 100 records gives 413, in that order, and each leaves the store untouched; up to 100 records (exactly 100 included) run the loop `Run` from the old store; the response's `synced_count` is the length of `synced_records`; the duplicate-window invariant is preserved |
| `Attendance.RunPartition` | src/api/endpoints/attendance.py:36-76 | the routes interleave the synced, conflict and error `local_id` lists back into exactly the input `local_id` sequence: each record is in exactly one list, and each list keeps input order |
| `Attendance.RunCounts` | src/api/endpoints/attendance.py:36-76 | the three lists together have as many entries as the batch has records |
| `Attendance.StepAddsOneEntry` | src/api/endpoints/attendance.py:36-76 | one record adds one route and one entry carrying its `local_id` to that route's list, and leaves the other two lists as they were |
| `Attendance.RunSavesSynced` | src/api/endpoints/attendance.py:55-73 | the store only grows, by exactly one saved record per synced entry and in the same order; each saved record has `record_id` = the reported `server_id`, the same `synced_at` and `local_id`, the token's tenant and device, key `tenant#employee`, `sync_status` "synced" and an id and time drawn from the ticks |
| `Attendance.StepKeepsNoCloseDuplicates` | src/api/endpoints/attendance.py:44-67 | one record keeps "no two records under one key within the window" |
| `Attendance.RunKeepsNoCloseDuplicates` | src/api/endpoints/attendance.py:36-76 | a store without two records under one key within the window keeps that property through a whole batch, with records of the same batch included |
| `Attendance.MismatchedRecordsAreErrors` | src/api/endpoints/attendance.py:39-41 | a record whose `device_id` differs from the token's is routed to errors, and the response's errors hold `DEVICE_ID_MISMATCH` with the mismatch message for its `local_id` |
| `Attendance.ConflictsReferenceStoredRecords` | src/api/endpoints/attendance.py:44-52 | every conflict has reason `DUPLICATE_TIMESTAMP` and the duplicate message; its `existing_record` is stored, and there is an input record on the token's device with the conflict's `local_id` whose `tenant#employee` key that record carries and whose timestamp is within the window of that record's |
| `Attendance.RecordOutcome` | src/api/endpoints/attendance.py:37-76 | given the state the earlier records left: a foreign `device_id` appends `DEVICE_ID_MISMATCH`; a raising duplicate query appends `SERVER_ERROR` with the exception text; a hit appends a `DUPLICATE_TIMESTAMP` conflict naming the first hit; with no hit a raising save appends `SERVER_ERROR`, otherwise the record is saved and reported synced; only the named list changes and only a synced record is stored |
| `Attendance.RunGrows` | src/api/endpoints/attendance.py:36-76 | the later records only append: each list, the store and the routes after the first i records are prefixes of those after the whole batch |
| `Attendance.FaultedRecordsAreErrors` | src/api/endpoints/attendance.py:44-76 | a record on the token's device whose duplicate query raises, or whose save raises after a query with no hit, is in the response's errors as `SERVER_ERROR` with the exception text |
| `Attendance.CloseSecondIsConflict` | src/api/endpoints/attendance.py:44-67 | two records of one employee within the window, with no fault: the first is synced and saved, the second is a conflict naming the first's saved record |
| `Attendance.FarApartBothSynced` | src/api/endpoints/attendance.py:44-73 | two records of one employee further apart than the window: both are synced and saved in order |
| `Attendance.DuplicatesOfAppended` | src/api/endpoints/attendance.py:44 | after one more record is saved, the duplicate query returns the old hits, plus that record if it matches |
| `Devices.Expired` | src/api/endpoints/devices.py:25-26 | definition: expired iff `expires_at` is present and non-zero and the clock is strictly past it; used by `Devices.RegisterDevice` |
| `Devices.RegisteredDevice` | src/api/endpoints/devices.py:39-54 | definition of the saved device record; stated through `Devices.RegisterDevice` |
| `Devices.RegisterDevice` | src/api/endpoints/devices.py:17-69 | the checks run in order: unknown code 400, status not "pending" 400, expired (truthy `expires_at`, now strictly greater) 400, known device id 409; it succeeds iff all pass; a failure writes nothing; a success saves the device under its id with tenant `TenantOf(code)`, a token bound to (tenant, device id), `is_active` true and `last_sync_at`, `deactivated_at`, `deactivation_reason` None; the response echoes these with `token_expires_at` None; activation codes never change |
| `Devices.SecondDeviceReusesCode` | src/api/endpoints/devices.py:55-57 | after one successful registration, a second distinct new device with the same code also succeeds, under the same tenant |
| `Admin.CreateActivationCode` | src/api/endpoints/admin.py:20-41 | the saved code has tenant `TenantOf(code)`, status "pending", `used_at` and `used_by_device_id` None, and code, description and `expires_at` from the request; no other code changes; the response is the saved record's fields |
| `Admin.ListDevices` | src/api/endpoints/admin.py:52-74 | a missing header gives 400 (and only then); otherwise one entry per device of the tenant, in store order, with the device's fields and `pending_records` 0 |
| `Admin.DeactivateResponseFor` | src/api/endpoints/admin.py:92-100 | success iff the store returned a device; a `ValueError` gives 404 with its message; a falsy reply or any other exception gives 500 |
| `Admin.IntendedDeactivateResponseFor` | src/api/endpoints/admin.py:94-95 | the corrected mapping: a falsy reply gives 404 "Device not found or already deactivated."; every other reply maps as written |
| `Admin.NotFoundSurfacesAs500` | src/api/endpoints/admin.py:94-100 | for a device that is absent, of another tenant or inactive, the written mapping answers 500 and the intended one 404 |
| `Admin.DeactivateDevice` | src/api/endpoints/admin.py:87-100 | a missing header gives 400 before any store call; otherwise the answer is the written mapping of the store's reply, and only an updated device changes; a device of another tenant is left as it was |
| `Audit.AuditKey` | src/api/endpoints/audit.py:30-34 | definition of the partition key `tenant#attendance_id`, falling back to the audit id; its properties are stated by `Audit.FallbackKeysDistinct` and `Audit.LinkedKeysFollowAttendance` |
| `Audit.FallbackKeysDistinct` | src/api/endpoints/audit.py:26-34 | entries without an attendance id get distinct partition keys when their fresh ids are distinct |
| `Audit.LinkedKeysFollowAttendance` | src/api/endpoints/audit.py:30-34 | entries with an attendance id share a key iff their attendance ids are equal |
| `Audit.SyncAuditLogs` | src/api/endpoints/audit.py:18-50 | succeeds (the batch write is taken never to raise), with `synced_count` = number of entries and one `synced_audits` entry per input, in order, with its fresh id as `server_id` and the shared `synced_at`; an empty batch writes nothing; a non-empty batch is one write of the stamped records in input order; each stamped record has `tenant#attendance_id` (falling back to `tenant#audit_id`), `audit_id` = its fresh id, and the token's tenant and device |

## Left out

- Bearer tokens: JWT encoding and decoding, admin-token verification and the 401 paths are foreign code. A
  device token is the pair it binds, and admin requests are taken as already authorised.
- The DynamoDB and S3 client code is replaced by the in-memory `Store`. The store methods' real bodies are
  not part of this model; the behaviour assumed for them is listed above.
- Concurrency: requests are sequential. The race between the duplicate check and the insert in concurrent
  requests is not represented.
- Wall-clock time and `uuid4` are inputs. Uniqueness of fresh ids is not assumed. Where it matters it is a
  precondition (`Audit.FallbackKeysDistinct`).
- `confidence` is carried as an opaque `real`, with no numeric reasoning.
- Exceptions from the store calls other than the duplicate query, the attendance save and `deactivate_device`
  are not modelled: `get_activation_code`, `get_device_by_id` and `save_device_registration`
  (`src/api/endpoints/devices.py:18`, `:30`, `:55`), `save_activation_code` and `get_devices_by_tenant`
  (`src/api/endpoints/admin.py:39`, `:57`), and `save_audit_records` (`src/api/endpoints/audit.py:44`). In the
  code such an exception becomes a 500; the model takes these calls to always return.
- Which statement inside the per-record `try` raises is abstracted to two points: the duplicate query and
  the save. A failed save stores nothing.
- Device status lookup, worker upload, timestamps, admin users, login, application wiring and configuration
  are outside the modelled core.
- `Admin.ListDevices`: "the store is not queried without a header" is shown only by the order of the
  statements. Listing reads the store in both cases, so no contract can tell the two apart.
- HTTP status codes of successful responses (201 and 200) and response-model serialisation are not modelled.

## Findings

| source | as written | input that shows it | evidently intended | confidence | as-written member | corrected member |
|---|---|---|---|---|---|---|
| src/api/endpoints/admin.py:94-100 | the `HTTPException(404)` raised inside `try` when the store returns nothing is caught by `except Exception` and re-raised as 500 "Failed to deactivate device: 404: Device not found or already deactivated." | deactivating an unknown device id, a device of another tenant, or an already inactive device, with a non-empty `X-Tenant-ID` | a 404 with detail "Device not found or already deactivated." | high (not executed) | `Admin.DeactivateResponseFor`, with `Admin.NotFoundSurfacesAs500` | `Admin.IntendedDeactivateResponseFor` |
