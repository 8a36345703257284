/** Audit batch sync (src/api/endpoints/audit.py, `sync_audit_logs`): every entry is accepted,
    stamped with the token's tenant and device, one shared sync time and a fresh id, and the
    whole batch is written in one store call. */
module Audit {
  import opened Common
  import opened Models
  import opened RecordStore

  /** The partition key "tenant#attendance_id", falling back to the entry's own audit id when
      the attendance id is None or empty. */
  function AuditKey(tenant: string, attendanceId: Option<string>, auditId: string): (key: string)
  {
    CompositeKey(tenant, if Truthy(attendanceId) then attendanceId.value else auditId)
  }

  /** Entries without an attendance id get distinct keys as long as their audit ids are distinct. */
  lemma FallbackKeysDistinct(tenant: string, a1: Option<string>, a2: Option<string>, id1: string, id2: string)
    requires !Truthy(a1) && !Truthy(a2) && id1 != id2
    ensures AuditKey(tenant, a1, id1) != AuditKey(tenant, a2, id2)
  {
    if AuditKey(tenant, a1, id1) == AuditKey(tenant, a2, id2) {
      CompositeKeyInjective(tenant, id1, id2);
    }
  }

  /** Entries linked to attendance records share a key exactly when they name the same record. */
  lemma LinkedKeysFollowAttendance(tenant: string, a1: Option<string>, a2: Option<string>, id1: string, id2: string)
    requires Truthy(a1) && Truthy(a2)
    ensures AuditKey(tenant, a1, id1) == AuditKey(tenant, a2, id2) <==> a1 == a2
  {
    if AuditKey(tenant, a1, id1) == AuditKey(tenant, a2, id2) {
      CompositeKeyInjective(tenant, a1.value, a2.value);
    }
  }

  /** `ids` are the uuid4 values drawn for the entries, one each, and `syncedAt` the single clock
      reading in milliseconds taken before the loop. */
  method SyncAuditLogs(store: Store, token: DeviceToken, audits: seq<AuditIn>, ids: seq<string>, syncedAt: int)
    returns (r: AuditSyncResponse)
    requires |ids| == |audits|
    modifies store`auditWrites
    ensures r.success && r.syncedCount == |audits| && |r.syncedAudits| == |audits|
    ensures forall k :: 0 <= k < |audits| ==> r.syncedAudits[k] == SyncedAudit(audits[k].localId, ids[k], syncedAt)
    ensures audits == [] ==> store.auditWrites == old(store.auditWrites)
    ensures audits != [] ==>
              && |store.auditWrites| == |old(store.auditWrites)| + 1
              && store.auditWrites[..|old(store.auditWrites)|] == old(store.auditWrites)
              && var batch := store.auditWrites[|old(store.auditWrites)|];
                 && |batch| == |audits|
                 && forall k :: 0 <= k < |audits| ==>
                      && batch[k].entry == audits[k]
                      && batch[k].key == AuditKey(token.tenantId, audits[k].attendanceId, ids[k])
                      && batch[k].auditId == ids[k]
                      && batch[k].tenantId == token.tenantId
                      && batch[k].deviceId == token.deviceId
                      && batch[k].syncedAt == syncedAt
  {
    var recordsToSave: seq<StoredAudit> := [];
    var syncedAudits: seq<SyncedAudit> := [];
    var i := 0;
    while i < |audits|
      invariant 0 <= i <= |audits|
      invariant |recordsToSave| == i && |syncedAudits| == i
      invariant store.auditWrites == old(store.auditWrites)
      invariant forall k :: 0 <= k < i ==> syncedAudits[k] == SyncedAudit(audits[k].localId, ids[k], syncedAt)
      invariant forall k :: 0 <= k < i ==>
                  recordsToSave[k] == StoredAudit(audits[k], AuditKey(token.tenantId, audits[k].attendanceId, ids[k]),
                                                  ids[k], token.tenantId, token.deviceId, syncedAt)
    {
      var audit := audits[i];
      var serverId := ids[i];
      var record := StoredAudit(audit, AuditKey(token.tenantId, audit.attendanceId, serverId), serverId,
                                token.tenantId, token.deviceId, syncedAt);
      recordsToSave := recordsToSave + [record];
      syncedAudits := syncedAudits + [SyncedAudit(audit.localId, serverId, syncedAt)];
      i := i + 1;
    }
    if |recordsToSave| > 0 {
      store.SaveAuditRecords(recordsToSave);
    }
    r := AuditSyncResponse(true, |syncedAudits|, syncedAudits);
  }
}
