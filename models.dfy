/** The request, response and stored-record shapes of the four handlers
    (src/models/attendance.py, audit.py, admin.py, device.py, and the dicts the handlers persist). */
module Models {
  import opened Common

  /** The abstract device token: the (tenant_id, device_id) pair it is bound to at issuance.
      Signing and decoding are not modelled. */
  datatype DeviceToken = DeviceToken(tenantId: string, deviceId: string)

  // ---- attendance ----

  /** One record of an attendance sync request, as the device sends it. `confidence` is carried unchanged. */
  datatype AttendanceIn = AttendanceIn(
    localId: int,
    employeeId: string,
    kind: string,          // "ENTRY" or "EXIT"
    timestamp: int,        // epoch milliseconds
    confidence: real,
    livenessPassed: bool,
    deviceId: string,
    createdAt: int)

  /** An accepted attendance record as persisted: the input fields plus what the server stamps on it. */
  datatype StoredAttendance = StoredAttendance(
    entry: AttendanceIn,
    key: string,           // "tenant_id#employee_id"
    recordId: string,
    tenantId: string,
    syncedAt: int,
    syncStatus: string)

  datatype SyncedRecord = SyncedRecord(localId: int, serverId: string, syncedAt: int)
  datatype ConflictRecord = ConflictRecord(localId: int, reason: string, message: string, existingRecord: StoredAttendance)
  datatype ErrorRecord = ErrorRecord(localId: int, error: string, message: string)

  datatype AttendanceSyncResponse = AttendanceSyncResponse(
    success: bool,
    syncedCount: int,
    syncedRecords: seq<SyncedRecord>,
    conflicts: seq<ConflictRecord>,
    errors: seq<ErrorRecord>)

  // ---- audit ----

  datatype AuditIn = AuditIn(
    localId: int,
    attendanceId: Option<string>,
    action: string,
    employeeIdDetected: Option<string>,
    employeeIdActual: Option<string>,
    performedByUserId: Option<string>,
    reason: Option<string>,
    metadata: Option<string>,
    timestamp: int)

  /** An audit entry as persisted: the input fields plus key, id, tenant, device and sync time. */
  datatype StoredAudit = StoredAudit(
    entry: AuditIn,
    key: string,           // "tenant_id#attendance_id", or "tenant_id#audit_id" without an attendance id
    auditId: string,
    tenantId: string,
    deviceId: string,
    syncedAt: int)

  datatype SyncedAudit = SyncedAudit(localId: int, serverId: string, syncedAt: int)
  datatype AuditSyncResponse = AuditSyncResponse(success: bool, syncedCount: int, syncedAudits: seq<SyncedAudit>)

  // ---- activation codes and devices ----

  /** The status every new activation code is created with, and the only status registration accepts. */
  const PendingStatus := "pending"

  datatype ActivationCodeCreateRequest = ActivationCodeCreateRequest(code: string, description: string, expiresAt: Option<int>)

  /** An activation code as persisted. */
  datatype ActivationCode = ActivationCode(
    code: string,
    tenantId: string,
    description: string,
    expiresAt: Option<int>,
    status: string,
    createdAt: int,
    usedAt: Option<int>,
    usedByDeviceId: Option<string>)

  /** The creation response: the saved record without used_at and used_by_device_id. */
  datatype ActivationCodeCreateResponse = ActivationCodeCreateResponse(
    code: string,
    tenantId: string,
    status: string,
    createdAt: int,
    expiresAt: Option<int>,
    description: string)

  datatype DeviceRegisterRequest = DeviceRegisterRequest(
    activationCode: string,
    deviceId: string,
    deviceName: string,
    deviceModel: string,
    deviceManufacturer: string,
    androidVersion: string)

  /** A registered device as persisted: the request fields plus what registration stamps on it. */
  datatype Device = Device(
    activationCode: string,
    deviceId: string,
    deviceName: string,
    deviceModel: string,
    deviceManufacturer: string,
    androidVersion: string,
    tenantId: string,
    deviceToken: DeviceToken,
    isActive: bool,
    registeredAt: int,
    lastSyncAt: Option<int>,
    deactivatedAt: Option<int>,
    deactivationReason: Option<string>)

  datatype DeviceRegisterResponseData = DeviceRegisterResponseData(
    deviceId: string,
    tenantId: string,
    deviceToken: DeviceToken,
    tokenExpiresAt: Option<int>,
    isActive: bool,
    registeredAt: int)

  datatype DeviceRegisterResponse = DeviceRegisterResponse(success: bool, data: DeviceRegisterResponseData)

  datatype AdminDeviceResponse = AdminDeviceResponse(
    deviceId: string,
    deviceName: string,
    deviceModel: string,
    registeredAt: int,
    lastSyncAt: Option<int>,
    isActive: bool,
    pendingRecords: int)

  datatype AdminDevicesListResponse = AdminDevicesListResponse(devices: seq<AdminDeviceResponse>)

  datatype DeviceDeactivateResponse = DeviceDeactivateResponse(success: bool, message: string)
}
