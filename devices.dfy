/** Device registration (src/api/endpoints/devices.py, `register_device`). */
module Devices {
  import opened Common
  import opened Models
  import opened RecordStore

  const InvalidCodeError := HttpError(400, "Invalid activation code.")
  const CodeUsedError := HttpError(400, "Activation code has already been used.")
  const CodeExpiredError := HttpError(400, "Activation code has expired.")
  const DeviceExistsError := HttpError(409, "Device already registered.")

  /** `expires_at and now > expires_at`: an absent or zero expiry never expires; the comparison is strict. */
  predicate Expired(expiresAt: Option<int>, now: int)
  {
    expiresAt.Some? && expiresAt.value != 0 && now > expiresAt.value
  }

  /** The record saved for a registration: the request fields plus tenant, token and lifecycle fields. */
  function RegisteredDevice(req: DeviceRegisterRequest, tenant: string, registeredAt: int): (d: Device)
  {
    Device(req.activationCode, req.deviceId, req.deviceName, req.deviceModel, req.deviceManufacturer,
           req.androidVersion, tenant, DeviceToken(tenant, req.deviceId), true, registeredAt, None, None, None)
  }

  /** `checkedAt` and `registeredAt` are the two clock readings the handler takes, in milliseconds.
      The activation-code record is never written: the handler leaves marking it used as a TODO. */
  method RegisterDevice(store: Store, req: DeviceRegisterRequest, checkedAt: int, registeredAt: int)
    returns (r: Result<DeviceRegisterResponse, HttpError>)
    requires store.Valid()
    modifies store`devices, store`deviceOrder
    ensures store.Valid()
    ensures store.codes == old(store.codes)
    // the checks, in the order the handler makes them
    ensures req.activationCode !in old(store.codes) ==> r == Failure(InvalidCodeError)
    ensures req.activationCode in old(store.codes) && old(store.codes)[req.activationCode].status != PendingStatus ==>
              r == Failure(CodeUsedError)
    ensures req.activationCode in old(store.codes) && old(store.codes)[req.activationCode].status == PendingStatus
            && Expired(old(store.codes)[req.activationCode].expiresAt, checkedAt) ==>
              r == Failure(CodeExpiredError)
    ensures req.activationCode in old(store.codes) && old(store.codes)[req.activationCode].status == PendingStatus
            && !Expired(old(store.codes)[req.activationCode].expiresAt, checkedAt)
            && req.deviceId in old(store.devices) ==>
              r == Failure(DeviceExistsError)
    ensures r.Success? <==>
              && req.activationCode in old(store.codes)
              && old(store.codes)[req.activationCode].status == PendingStatus
              && !Expired(old(store.codes)[req.activationCode].expiresAt, checkedAt)
              && req.deviceId !in old(store.devices)
    // a rejected registration writes nothing; an existing device stays as it was
    ensures r.Failure? ==> store.devices == old(store.devices) && store.deviceOrder == old(store.deviceOrder)
    // an accepted one saves the device under its id, at the end of the store order, and echoes it
    ensures r.Success? ==>
              var tenant := TenantOf(req.activationCode);
              && store.devices == old(store.devices)[req.deviceId := RegisteredDevice(req, tenant, registeredAt)]
              && store.deviceOrder == old(store.deviceOrder) + [req.deviceId]
              && r.value == DeviceRegisterResponse(true, DeviceRegisterResponseData(
                   req.deviceId, tenant, DeviceToken(tenant, req.deviceId), None, true, registeredAt))
  {
    var activationCode := store.ActivationCodeFor(req.activationCode);
    if activationCode.None? {
      return Failure(InvalidCodeError);
    }
    if activationCode.value.status != PendingStatus {
      return Failure(CodeUsedError);
    }
    if Expired(activationCode.value.expiresAt, checkedAt) {
      return Failure(CodeExpiredError);
    }
    if store.DeviceById(req.deviceId).Some? {
      return Failure(DeviceExistsError);
    }
    // split('-')[0] cannot fail, so the handler's 422 branch is never taken.
    var tenant := TenantOf(req.activationCode);
    var device := RegisteredDevice(req, tenant, registeredAt);
    var token := device.deviceToken;
    store.SaveDevice(device);
    r := Success(DeviceRegisterResponse(true, DeviceRegisterResponseData(req.deviceId, tenant, token, None, true, registeredAt)));
  }

  /** Registration accepts a code exactly when it is known, pending and unexpired and the device id is new;
      because the code is left pending, a second distinct device can register with it afterwards. */
  method SecondDeviceReusesCode(store: Store, first: DeviceRegisterRequest, second: DeviceRegisterRequest, now: int)
    returns (r1: Result<DeviceRegisterResponse, HttpError>, r2: Result<DeviceRegisterResponse, HttpError>)
    requires store.Valid()
    requires second.activationCode == first.activationCode && second.deviceId != first.deviceId
    requires second.deviceId !in store.devices
    modifies store`devices, store`deviceOrder
    ensures r1.Success? ==> r2.Success?
    ensures r1.Success? ==> r2.value.data.tenantId == r1.value.data.tenantId
    ensures store.codes == old(store.codes)
  {
    r1 := RegisterDevice(store, first, now, now);
    r2 := RegisterDevice(store, second, now, now);
  }
}
