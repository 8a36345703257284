/** The record store the handlers talk to, as an in-memory class. The real service is a
    DynamoDB client whose query and update bodies are not part of this model; each store call
    used by the handlers is given here the behaviour the handlers rely on. */
module RecordStore {
  import opened Common
  import opened Models

  /** Half-width, in milliseconds, of the duplicate-attendance window (inclusive on both sides). */
  const DuplicateWindow := 30000

  predicate WithinWindow(a: int, b: int)
  {
    -DuplicateWindow <= a - b <= DuplicateWindow
  }

  /** The stored records under `key` whose timestamp lies within the window around `ts`, in store order. */
  function Duplicates(stored: seq<StoredAttendance>, key: string, ts: int): (d: seq<StoredAttendance>)
    ensures forall x :: x in d ==> x in stored && x.key == key && WithinWindow(x.entry.timestamp, ts)
    ensures forall x :: x in stored && x.key == key && WithinWindow(x.entry.timestamp, ts) ==> x in d
    decreases |stored|
  {
    if stored == [] then []
    else
      var rest := Duplicates(stored[1..], key, ts);
      assert forall x :: x in stored[1..] ==> x in stored;
      if stored[0].key == key && WithinWindow(stored[0].entry.timestamp, ts) then [stored[0]] + rest else rest
  }

  /** The store invariant the duplicate check exists for: no two records under one key lie within the window. */
  ghost predicate NoCloseDuplicates(stored: seq<StoredAttendance>)
  {
    forall i, j :: 0 <= i < j < |stored| && stored[i].key == stored[j].key ==>
      !WithinWindow(stored[i].entry.timestamp, stored[j].entry.timestamp)
  }

  /** The tenant's devices in store order (registration order). */
  function DevicesOf(order: seq<string>, devices: map<string, Device>, tenant: string): (r: seq<Device>)
    ensures forall k :: 0 <= k < |r| ==> r[k].tenantId == tenant && r[k] in devices.Values
    ensures forall id :: id in order && id in devices && devices[id].tenantId == tenant ==> devices[id] in r
    ensures |r| <= |order|
  {
    if order == [] then []
    else
      var rest := DevicesOf(order[1..], devices, tenant);
      if order[0] in devices && devices[order[0]].tenantId == tenant then [devices[order[0]]] + rest else rest
  }

  /** What `deactivate_device` may raise. */
  datatype StoreFault = ValueError(message: string) | StoreError(message: string)

  /** What `deactivate_device` gives back: the updated device, nothing, or an exception. */
  datatype DeactivateReply = Updated(device: Device) | NotUpdated | Raised(fault: StoreFault)

  /** The conditional update only applies to a device that exists, belongs to the tenant and is still active. */
  predicate CanDeactivate(devices: map<string, Device>, deviceId: string, tenant: string)
  {
    deviceId in devices && devices[deviceId].tenantId == tenant && devices[deviceId].isActive
  }

  function DeactivateReplyFor(devices: map<string, Device>, deviceId: string, reason: string, tenant: string,
                              now: int, fault: Option<StoreFault>): (r: DeactivateReply)
    ensures r.Updated? <==> fault.None? && CanDeactivate(devices, deviceId, tenant)
    ensures r.Updated? ==> r.device == devices[deviceId].(isActive := false, deactivatedAt := Some(now),
                                                            deactivationReason := Some(reason))
    ensures r.Raised? <==> fault.Some?
  {
    if fault.Some? then Raised(fault.value)
    else if CanDeactivate(devices, deviceId, tenant) then
      Updated(devices[deviceId].(isActive := false, deactivatedAt := Some(now), deactivationReason := Some(reason)))
    else NotUpdated
  }

  class Store {
    var codes: map<string, ActivationCode>
    var devices: map<string, Device>
    var deviceOrder: seq<string>
    var attendance: seq<StoredAttendance>
    var auditWrites: seq<seq<StoredAudit>>

    /** Devices are keyed by their own id; `deviceOrder` lists every key once, in the order saved. */
    ghost predicate Valid()
      reads this
    {
      && (forall i, j :: 0 <= i < j < |deviceOrder| ==> deviceOrder[i] != deviceOrder[j])
      && (forall id :: id in deviceOrder <==> id in devices)
      && (forall id :: id in devices ==> devices[id].deviceId == id)
    }

    constructor ()
      ensures Valid()
      ensures codes == map[] && devices == map[] && deviceOrder == [] && attendance == [] && auditWrites == []
    {
      codes, devices, deviceOrder, attendance, auditWrites := map[], map[], [], [], [];
    }

    function ActivationCodeFor(code: string): (r: Option<ActivationCode>)
      reads this
      ensures r.Some? <==> code in codes
      ensures r.Some? ==> r.value == codes[code]
    {
      if code in codes then Some(codes[code]) else None
    }

    function DeviceById(deviceId: string): (r: Option<Device>)
      reads this
      ensures r.Some? <==> deviceId in devices
      ensures r.Some? ==> r.value == devices[deviceId]
    {
      if deviceId in devices then Some(devices[deviceId]) else None
    }

    /** The tenant's devices, in store order; in a well-formed store, exactly the stored devices of that tenant. */
    function DevicesByTenant(tenant: string): (r: seq<Device>)
      reads this
      ensures r == DevicesOf(deviceOrder, devices, tenant)
      ensures Valid() ==> forall d :: d in r <==> d in devices.Values && d.tenantId == tenant
    {
      assert Valid() ==> forall d :: d in devices.Values && d.tenantId == tenant ==> d in DevicesOf(deviceOrder, devices, tenant) by {
        if Valid() {
          forall d | d in devices.Values && d.tenantId == tenant
            ensures d in DevicesOf(deviceOrder, devices, tenant)
          {
            var id :| id in devices && devices[id] == d;
          }
        }
      }
      DevicesOf(deviceOrder, devices, tenant)
    }

    /** The attendance records of `employee` in `tenant` within the window around `ts`, in store order. */
    function FindDuplicateAttendance(tenant: string, employee: string, ts: int): (r: seq<StoredAttendance>)
      reads this
      ensures r == Duplicates(attendance, CompositeKey(tenant, employee), ts)
      ensures forall x :: x in r <==>
                x in attendance && x.key == CompositeKey(tenant, employee) && WithinWindow(x.entry.timestamp, ts)
    {
      Duplicates(attendance, CompositeKey(tenant, employee), ts)
    }

    /** A put: a code saved again replaces the earlier record. */
    method SaveActivationCode(c: ActivationCode)
      modifies this`codes
      ensures codes == old(codes)[c.code := c]
    {
      codes := codes[c.code := c];
    }

    /** A put keyed by device id; a new id goes to the end of the store order. */
    method SaveDevice(d: Device)
      requires Valid()
      modifies this`devices, this`deviceOrder
      ensures Valid()
      ensures devices == old(devices)[d.deviceId := d]
      ensures deviceOrder == if d.deviceId in old(devices) then old(deviceOrder) else old(deviceOrder) + [d.deviceId]
    {
      if d.deviceId !in devices {
        deviceOrder := deviceOrder + [d.deviceId];
      }
      devices := devices[d.deviceId := d];
    }

    method DeactivateDevice(deviceId: string, reason: string, tenant: string, now: int, fault: Option<StoreFault>)
      returns (reply: DeactivateReply)
      requires Valid()
      modifies this`devices
      ensures Valid()
      ensures reply == DeactivateReplyFor(old(devices), deviceId, reason, tenant, now, fault)
      ensures devices == if reply.Updated? then old(devices)[deviceId := reply.device] else old(devices)
    {
      reply := DeactivateReplyFor(devices, deviceId, reason, tenant, now, fault);
      if reply.Updated? {
        devices := devices[deviceId := reply.device];
      }
    }

    method SaveAttendanceRecord(r: StoredAttendance)
      modifies this`attendance
      ensures attendance == old(attendance) + [r]
    {
      attendance := attendance + [r];
    }

    /** One batch write; the log keeps one entry per call. */
    method SaveAuditRecords(batch: seq<StoredAudit>)
      modifies this`auditWrites
      ensures auditWrites == old(auditWrites) + [batch]
    {
      auditWrites := auditWrites + [batch];
    }
  }
}
