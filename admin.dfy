/** Admin endpoints (src/api/endpoints/admin.py): activation-code creation, device listing and
    device deactivation. The admin bearer token is taken as already verified. */
module Admin {
  import opened Common
  import opened Models
  import opened RecordStore

  const MissingTenantError := HttpError(400, "X-Tenant-ID header is required.")
  const NotFoundDetail := "Device not found or already deactivated."
  const FailurePrefix := "Failed to deactivate device: "
  const DeactivatedMessage := "Dispositivo desactivado correctamente"

  // ---- create_activation_code ----

  /** `createdAt` is the clock reading in milliseconds. */
  method CreateActivationCode(store: Store, req: ActivationCodeCreateRequest, createdAt: int)
    returns (r: ActivationCodeCreateResponse)
    modifies store`codes
    ensures req.code in store.codes
    ensures store.codes == old(store.codes)[req.code := store.codes[req.code]]
    ensures var saved := store.codes[req.code];
            && saved.code == req.code
            && saved.tenantId == TenantOf(req.code)
            && saved.description == req.description
            && saved.expiresAt == req.expiresAt
            && saved.status == PendingStatus
            && saved.createdAt == createdAt
            && saved.usedAt.None? && saved.usedByDeviceId.None?
            && r == ActivationCodeCreateResponse(saved.code, saved.tenantId, saved.status,
                                                 saved.createdAt, saved.expiresAt, saved.description)
  {
    // split('-')[0] cannot fail, so the handler's 422 branch is never taken.
    var tenant := TenantOf(req.code);
    var codeData := ActivationCode(req.code, tenant, req.description, req.expiresAt, PendingStatus, createdAt, None, None);
    store.SaveActivationCode(codeData);
    r := ActivationCodeCreateResponse(codeData.code, codeData.tenantId, codeData.status,
                                      codeData.createdAt, codeData.expiresAt, codeData.description);
  }

  // ---- list_devices ----

  /** Reads the store only. Without a tenant header the store is not consulted. */
  method ListDevices(store: Store, header: Option<string>) returns (r: Result<AdminDevicesListResponse, HttpError>)
    ensures !Truthy(header) <==> r == Failure(MissingTenantError)
    ensures Truthy(header) ==>
              var ds := DevicesOf(store.deviceOrder, store.devices, header.value);
              && r.Success?
              && |r.value.devices| == |ds|
              && forall k :: 0 <= k < |ds| ==>
                   var v := r.value.devices[k];
                   && v.deviceId == ds[k].deviceId
                   && v.deviceName == ds[k].deviceName
                   && v.deviceModel == ds[k].deviceModel
                   && v.registeredAt == ds[k].registeredAt
                   && v.lastSyncAt == ds[k].lastSyncAt
                   && v.isActive == ds[k].isActive
                   && v.pendingRecords == 0
  {
    if !Truthy(header) {
      return Failure(MissingTenantError);
    }
    var devicesData := store.DevicesByTenant(header.value);
    var devicesResponse: seq<AdminDeviceResponse> := [];
    var i := 0;
    while i < |devicesData|
      invariant 0 <= i <= |devicesData|
      invariant |devicesResponse| == i
      invariant forall k :: 0 <= k < i ==>
                  var v := devicesResponse[k];
                  && v.deviceId == devicesData[k].deviceId
                  && v.deviceName == devicesData[k].deviceName
                  && v.deviceModel == devicesData[k].deviceModel
                  && v.registeredAt == devicesData[k].registeredAt
                  && v.lastSyncAt == devicesData[k].lastSyncAt
                  && v.isActive == devicesData[k].isActive
                  && v.pendingRecords == 0
    {
      var device := devicesData[i];
      var pendingRecordsCount := 0;
      devicesResponse := devicesResponse + [AdminDeviceResponse(device.deviceId, device.deviceName, device.deviceModel,
                                                                device.registeredAt, device.lastSyncAt, device.isActive,
                                                                pendingRecordsCount)];
      i := i + 1;
    }
    r := Success(AdminDevicesListResponse(devicesResponse));
  }

  // ---- deactivate_device ----

  /** The handler's error mapping as written. The falsy store reply raises HTTPException(404) inside the
      `try`; the `except Exception` clause catches it and re-raises 500 with str(e), which Starlette
      renders as "404: <detail>". */
  function DeactivateResponseFor(reply: DeactivateReply): (r: Result<DeviceDeactivateResponse, HttpError>)
    ensures r.Success? <==> reply.Updated?
    ensures r.Success? ==> r.value.success
    ensures reply.NotUpdated? ==> r.error.status == 500
    ensures reply.Raised? ==> r.error.status == (if reply.fault.ValueError? then 404 else 500)
    ensures reply.Raised? && reply.fault.ValueError? ==> r.error.detail == reply.fault.message
  {
    match reply
    case Updated(_) => Success(DeviceDeactivateResponse(true, DeactivatedMessage))
    case NotUpdated => Failure(HttpError(500, FailurePrefix + "404: " + NotFoundDetail))
    case Raised(ValueError(m)) => Failure(HttpError(404, m))
    case Raised(StoreError(m)) => Failure(HttpError(500, FailurePrefix + m))
  }

  /** The mapping the handler evidently intends: a falsy store reply answers 404. */
  function IntendedDeactivateResponseFor(reply: DeactivateReply): (r: Result<DeviceDeactivateResponse, HttpError>)
    ensures r.Success? <==> reply.Updated?
    ensures r.Failure? ==> (r.error.status == 404 <==> reply.NotUpdated? || reply.fault.ValueError?)
    ensures reply.NotUpdated? ==> r == Failure(HttpError(404, NotFoundDetail))
    ensures !reply.NotUpdated? ==> r == DeactivateResponseFor(reply)
  {
    match reply
    case NotUpdated => Failure(HttpError(404, NotFoundDetail))
    case _ => DeactivateResponseFor(reply)
  }

  /** As written, a device that is absent, of another tenant or already inactive is reported as a 500,
      where the intended answer is 404; in both the device is left as it was. */
  lemma NotFoundSurfacesAs500(devices: map<string, Device>, deviceId: string, reason: string, tenant: string, now: int)
    requires !CanDeactivate(devices, deviceId, tenant)
    ensures var reply := DeactivateReplyFor(devices, deviceId, reason, tenant, now, None);
            && reply == NotUpdated
            && DeactivateResponseFor(reply).error.status == 500
            && IntendedDeactivateResponseFor(reply).error.status == 404
  {
  }

  /** `now` is the time the store stamps as deactivated_at; `fault` is the exception the store raises, if any. */
  method DeactivateDevice(store: Store, deviceId: string, reason: string, header: Option<string>,
                          now: int, fault: Option<StoreFault>)
    returns (r: Result<DeviceDeactivateResponse, HttpError>)
    requires store.Valid()
    modifies store`devices
    ensures store.Valid()
    ensures !Truthy(header) ==> r == Failure(MissingTenantError) && store.devices == old(store.devices)
    ensures Truthy(header) ==>
              var reply := DeactivateReplyFor(old(store.devices), deviceId, reason, header.value, now, fault);
              && r == DeactivateResponseFor(reply)
              && store.devices == if reply.Updated? then old(store.devices)[deviceId := reply.device] else old(store.devices)
    // a device of another tenant keeps its is_active flag
    ensures deviceId in old(store.devices) && (!Truthy(header) || old(store.devices)[deviceId].tenantId != header.value) ==>
              store.devices == old(store.devices)
  {
    if !Truthy(header) {
      return Failure(MissingTenantError);
    }
    var updated := store.DeactivateDevice(deviceId, reason, header.value, now, fault);
    r := DeactivateResponseFor(updated);
  }
}
