/** Attendance batch sync (src/api/endpoints/attendance.py, `sync_attendance`): three whole-batch
    guards, then a loop that sorts each record into synced, conflicts or errors and saves every
    accepted record before the next one is checked. */
module Attendance {
  import opened Common
  import opened Models
  import opened RecordStore

  const MaxBatchSize := 100

  const SyncedStatus := "synced"
  const DeviceIdMismatch := "DEVICE_ID_MISMATCH"
  const DuplicateTimestamp := "DUPLICATE_TIMESTAMP"
  const ServerError := "SERVER_ERROR"
  const MismatchMessage := "Record device_id does not match authenticated device."
  const DuplicateMessage := "An existing record for this employee is too close to this timestamp."

  const MissingTenantError := HttpError(400, "X-Tenant-ID header is required.")
  const TenantMismatchError := HttpError(403, "Tenant ID in token does not match X-Tenant-ID header.")
  const PayloadTooLargeError := HttpError(413, "Payload too large. Maximum 100 records allowed.")

  /** Where an exception escapes a store call while one record is handled, with str(e). */
  datatype Fault = NoFault | QueryFails(message: string) | SaveFails(message: string)

  /** What the environment supplies while one record is handled: the uuid4 drawn for it,
      the clock reading in milliseconds, and whether a store call raises. */
  datatype Tick = Tick(freshId: string, now: int, fault: Fault)

  /** Which of the three response lists a record went to. */
  datatype Route = ToSynced | ToConflict | ToError

  /** The state of the loop: the three lists, the stored attendance records, and each record's route. */
  datatype BatchRun = BatchRun(
    synced: seq<SyncedRecord>,
    conflicts: seq<ConflictRecord>,
    errors: seq<ErrorRecord>,
    stored: seq<StoredAttendance>,
    routes: seq<Route>)

  /** The record saved for an accepted input. */
  function AcceptedRecord(token: DeviceToken, r: AttendanceIn, t: Tick): (saved: StoredAttendance)
  {
    StoredAttendance(r, CompositeKey(token.tenantId, r.employeeId), t.freshId, token.tenantId, t.now, SyncedStatus)
  }

  /** One iteration of the loop. */
  function Step(run: BatchRun, token: DeviceToken, r: AttendanceIn, t: Tick): (next: BatchRun)
  {
    if r.deviceId != token.deviceId then
      run.(errors := run.errors + [ErrorRecord(r.localId, DeviceIdMismatch, MismatchMessage)], routes := run.routes + [ToError])
    else if t.fault.QueryFails? then
      run.(errors := run.errors + [ErrorRecord(r.localId, ServerError, t.fault.message)], routes := run.routes + [ToError])
    else
      var duplicates := Duplicates(run.stored, CompositeKey(token.tenantId, r.employeeId), r.timestamp);
      if duplicates != [] then
        run.(conflicts := run.conflicts + [ConflictRecord(r.localId, DuplicateTimestamp, DuplicateMessage, duplicates[0])],
             routes := run.routes + [ToConflict])
      else if t.fault.SaveFails? then
        run.(errors := run.errors + [ErrorRecord(r.localId, ServerError, t.fault.message)], routes := run.routes + [ToError])
      else
        run.(stored := run.stored + [AcceptedRecord(token, r, t)],
             synced := run.synced + [SyncedRecord(r.localId, t.freshId, t.now)],
             routes := run.routes + [ToSynced])
  }

  /** The loop over a batch, starting from the store's attendance records `stored`. */
  function Run(stored: seq<StoredAttendance>, token: DeviceToken, recs: seq<AttendanceIn>, ticks: seq<Tick>): (run: BatchRun)
    requires |ticks| == |recs|
    decreases |recs|
  {
    if recs == [] then BatchRun([], [], [], stored, [])
    else
      var n := |recs| - 1;
      Step(Run(stored, token, recs[..n], ticks[..n]), token, recs[n], ticks[n])
  }

  /** The response built from the three lists after the loop. */
  function ResponseOf(run: BatchRun): (resp: AttendanceSyncResponse)
  {
    AttendanceSyncResponse(true, |run.synced|, run.synced, run.conflicts, run.errors)
  }

  // ---- the handler ----

  method SyncAttendance(store: Store, header: Option<string>, token: DeviceToken,
                        records: seq<AttendanceIn>, ticks: seq<Tick>)
    returns (r: Result<AttendanceSyncResponse, HttpError>)
    requires |ticks| == |records|
    modifies store`attendance
    ensures !Truthy(header) ==> r == Failure(MissingTenantError) && store.attendance == old(store.attendance)
    ensures Truthy(header) && token.tenantId != header.value ==>
              r == Failure(TenantMismatchError) && store.attendance == old(store.attendance)
    ensures Truthy(header) && token.tenantId == header.value && |records| > MaxBatchSize ==>
              r == Failure(PayloadTooLargeError) && store.attendance == old(store.attendance)
    ensures Truthy(header) && token.tenantId == header.value && |records| <= MaxBatchSize ==>
              var run := Run(old(store.attendance), token, records, ticks);
              r == Success(ResponseOf(run)) && store.attendance == run.stored
    ensures NoCloseDuplicates(old(store.attendance)) ==> NoCloseDuplicates(store.attendance)
  {
    if !Truthy(header) {
      return Failure(MissingTenantError);
    }
    if token.tenantId != header.value {
      return Failure(TenantMismatchError);
    }
    if |records| > MaxBatchSize {
      return Failure(PayloadTooLargeError);
    }

    var synced: seq<SyncedRecord> := [];
    var conflicts: seq<ConflictRecord> := [];
    var errors: seq<ErrorRecord> := [];
    ghost var routes: seq<Route> := [];
    var i := 0;
    while i < |records|
      invariant 0 <= i <= |records|
      invariant BatchRun(synced, conflicts, errors, store.attendance, routes)
                == Run(old(store.attendance), token, records[..i], ticks[..i])
    {
      assert records[..i + 1][..i] == records[..i] && ticks[..i + 1][..i] == ticks[..i];
      var record := records[i];
      var tick := ticks[i];
      if record.deviceId != token.deviceId {
        errors := errors + [ErrorRecord(record.localId, DeviceIdMismatch, MismatchMessage)];
        routes := routes + [ToError];
      } else if tick.fault.QueryFails? {
        errors := errors + [ErrorRecord(record.localId, ServerError, tick.fault.message)];
        routes := routes + [ToError];
      } else {
        var duplicates := store.FindDuplicateAttendance(token.tenantId, record.employeeId, record.timestamp);
        if |duplicates| > 0 {
          conflicts := conflicts + [ConflictRecord(record.localId, DuplicateTimestamp, DuplicateMessage, duplicates[0])];
          routes := routes + [ToConflict];
        } else if tick.fault.SaveFails? {
          errors := errors + [ErrorRecord(record.localId, ServerError, tick.fault.message)];
          routes := routes + [ToError];
        } else {
          var serverId := tick.freshId;
          var syncedAt := tick.now;
          store.SaveAttendanceRecord(AcceptedRecord(token, record, tick));
          synced := synced + [SyncedRecord(record.localId, serverId, syncedAt)];
          routes := routes + [ToSynced];
        }
      }
      i := i + 1;
    }
    assert records[..i] == records && ticks[..i] == ticks;
    r := Success(AttendanceSyncResponse(true, |synced|, synced, conflicts, errors));
    if NoCloseDuplicates(old(store.attendance)) {
      RunKeepsNoCloseDuplicates(old(store.attendance), token, records, ticks);
    }
  }

  // ---- every record lands in exactly one list, in input order ----

  function LocalIds(recs: seq<AttendanceIn>): (ids: seq<int>)
  {
    seq(|recs|, k requires 0 <= k < |recs| => recs[k].localId)
  }

  function SyncedIds(s: seq<SyncedRecord>): (ids: seq<int>)
  {
    seq(|s|, k requires 0 <= k < |s| => s[k].localId)
  }

  function ConflictIds(s: seq<ConflictRecord>): (ids: seq<int>)
  {
    seq(|s|, k requires 0 <= k < |s| => s[k].localId)
  }

  function ErrorIds(s: seq<ErrorRecord>): (ids: seq<int>)
  {
    seq(|s|, k requires 0 <= k < |s| => s[k].localId)
  }

  function Snoc(o: Option<seq<int>>, x: int): (o': Option<seq<int>>)
  {
    if o.Some? then Some(o.value + [x]) else None
  }

  /** Reference reading of "each id is in exactly one list": walking the routes, each position takes the
      next id of the list its route names; the result is defined only if every list is used up exactly. */
  function Interleave(routes: seq<Route>, s: seq<int>, c: seq<int>, e: seq<int>): (ids: Option<seq<int>>)
    decreases |routes|
  {
    if routes == [] then
      if s == [] && c == [] && e == [] then Some([]) else None
    else
      var n := |routes| - 1;
      match routes[n]
      case ToSynced => if s == [] then None else Snoc(Interleave(routes[..n], s[..|s| - 1], c, e), s[|s| - 1])
      case ToConflict => if c == [] then None else Snoc(Interleave(routes[..n], s, c[..|c| - 1], e), c[|c| - 1])
      case ToError => if e == [] then None else Snoc(Interleave(routes[..n], s, c, e[..|e| - 1]), e[|e| - 1])
  }

  /** One iteration adds exactly one route and one entry to the list that route names. */
  lemma StepAddsOneEntry(p: BatchRun, token: DeviceToken, r: AttendanceIn, t: Tick)
    ensures var q := Step(p, token, r, t);
            && |q.routes| == |p.routes| + 1 && q.routes[..|p.routes|] == p.routes
            && (q.routes[|p.routes|] == ToSynced ==>
                  |q.synced| == |p.synced| + 1 && q.synced[..|p.synced|] == p.synced && q.synced[|p.synced|].localId == r.localId
                  && q.conflicts == p.conflicts && q.errors == p.errors)
            && (q.routes[|p.routes|] == ToConflict ==>
                  |q.conflicts| == |p.conflicts| + 1 && q.conflicts[..|p.conflicts|] == p.conflicts
                  && q.conflicts[|p.conflicts|].localId == r.localId
                  && q.synced == p.synced && q.errors == p.errors)
            && (q.routes[|p.routes|] == ToError ==>
                  |q.errors| == |p.errors| + 1 && q.errors[..|p.errors|] == p.errors && q.errors[|p.errors|].localId == r.localId
                  && q.synced == p.synced && q.conflicts == p.conflicts)
  {
  }

  lemma InterleaveExtend(routes: seq<Route>, s: seq<int>, c: seq<int>, e: seq<int>, ids: seq<int>, rt: Route, x: int)
    requires Interleave(routes, s, c, e) == Some(ids)
    ensures Interleave(routes + [rt], if rt == ToSynced then s + [x] else s, if rt == ToConflict then c + [x] else c,
                       if rt == ToError then e + [x] else e) == Some(ids + [x])
  {
    assert (routes + [rt])[..|routes|] == routes;
    assert (s + [x])[..|s|] == s && (c + [x])[..|c|] == c && (e + [x])[..|e|] == e;
  }

  lemma {:induction false} RunPartition(stored: seq<StoredAttendance>, token: DeviceToken,
                                        recs: seq<AttendanceIn>, ticks: seq<Tick>)
    requires |ticks| == |recs|
    ensures var run := Run(stored, token, recs, ticks);
            |run.routes| == |recs| &&
            Interleave(run.routes, SyncedIds(run.synced), ConflictIds(run.conflicts), ErrorIds(run.errors))
              == Some(LocalIds(recs))
  {
    if recs != [] {
      var n := |recs| - 1;
      var p := Run(stored, token, recs[..n], ticks[..n]);
      var q := Run(stored, token, recs, ticks);
      RunPartition(stored, token, recs[..n], ticks[..n]);
      assert q == Step(p, token, recs[n], ticks[n]);
      StepAddsOneEntry(p, token, recs[n], ticks[n]);
      assert LocalIds(recs) == LocalIds(recs[..n]) + [recs[n].localId];
      var x := recs[n].localId;
      var s, c, e := SyncedIds(p.synced), ConflictIds(p.conflicts), ErrorIds(p.errors);
      var rt := q.routes[|p.routes|];
      assert q.routes == p.routes + [rt];
      if rt == ToSynced {
        assert q.synced == p.synced + [q.synced[|p.synced|]];
        assert SyncedIds(q.synced) == s + [x];
        InterleaveExtend(p.routes, s, c, e, LocalIds(recs[..n]), ToSynced, x);
      } else if rt == ToConflict {
        assert q.conflicts == p.conflicts + [q.conflicts[|p.conflicts|]];
        assert ConflictIds(q.conflicts) == c + [x];
        InterleaveExtend(p.routes, s, c, e, LocalIds(recs[..n]), ToConflict, x);
      } else {
        assert q.errors == p.errors + [q.errors[|p.errors|]];
        assert ErrorIds(q.errors) == e + [x];
        InterleaveExtend(p.routes, s, c, e, LocalIds(recs[..n]), ToError, x);
      }
    } else {
      assert SyncedIds([]) == [] && ConflictIds([]) == [] && ErrorIds([]) == [] && LocalIds(recs) == [];
    }
  }

  /** Counting corollary: the three lists together are exactly as long as the batch. */
  lemma {:induction false} RunCounts(stored: seq<StoredAttendance>, token: DeviceToken,
                                     recs: seq<AttendanceIn>, ticks: seq<Tick>)
    requires |ticks| == |recs|
    ensures var run := Run(stored, token, recs, ticks);
            |run.synced| + |run.conflicts| + |run.errors| == |recs|
  {
    if recs != [] {
      var n := |recs| - 1;
      RunCounts(stored, token, recs[..n], ticks[..n]);
    }
  }

  // ---- what is saved is what is reported as synced ----

  lemma {:induction false} RunSavesSynced(stored: seq<StoredAttendance>, token: DeviceToken,
                                          recs: seq<AttendanceIn>, ticks: seq<Tick>)
    requires |ticks| == |recs|
    ensures var run := Run(stored, token, recs, ticks);
            && |run.stored| == |stored| + |run.synced|
            && run.stored[..|stored|] == stored
            && forall k :: 0 <= k < |run.synced| ==>
                 var x := run.stored[|stored| + k];
                 && x.recordId == run.synced[k].serverId
                 && x.syncedAt == run.synced[k].syncedAt
                 && x.entry.localId == run.synced[k].localId
                 && x.entry in recs
                 && x.entry.deviceId == token.deviceId
                 && x.tenantId == token.tenantId
                 && x.key == CompositeKey(token.tenantId, x.entry.employeeId)
                 && x.syncStatus == SyncedStatus
                 && (exists j :: 0 <= j < |ticks| && ticks[j].freshId == x.recordId && ticks[j].now == x.syncedAt)
  {
    if recs != [] {
      var n := |recs| - 1;
      var p := Run(stored, token, recs[..n], ticks[..n]);
      var q := Run(stored, token, recs, ticks);
      RunSavesSynced(stored, token, recs[..n], ticks[..n]);
      assert q == Step(p, token, recs[n], ticks[n]);
      assert forall x :: x in recs[..n] ==> x in recs;
      assert forall j :: 0 <= j < n ==> ticks[..n][j] == ticks[j];
      if |q.synced| > |p.synced| {
        assert q.stored == p.stored + [AcceptedRecord(token, recs[n], ticks[n])];
      } else {
        assert q.stored == p.stored && q.synced == p.synced;
      }
    }
  }

  // ---- the duplicate-window invariant ----

  lemma StepKeepsNoCloseDuplicates(run: BatchRun, token: DeviceToken, r: AttendanceIn, t: Tick)
    requires NoCloseDuplicates(run.stored)
    ensures NoCloseDuplicates(Step(run, token, r, t).stored)
  {
    var q := Step(run, token, r, t);
    if q.stored != run.stored {
      var x := AcceptedRecord(token, r, t);
      assert q.stored == run.stored + [x];
      assert Duplicates(run.stored, x.key, x.entry.timestamp) == [];
      forall i, j | 0 <= i < j < |q.stored| && q.stored[i].key == q.stored[j].key
        ensures !WithinWindow(q.stored[i].entry.timestamp, q.stored[j].entry.timestamp)
      {
        if j == |run.stored| {
          assert q.stored[i] in run.stored;
        }
      }
    }
  }

  /** A store without two records under one key inside the window keeps that property through a batch:
      each accepted record was checked against every record saved before it, earlier ones of the batch included. */
  lemma {:induction false} RunKeepsNoCloseDuplicates(stored: seq<StoredAttendance>, token: DeviceToken,
                                                     recs: seq<AttendanceIn>, ticks: seq<Tick>)
    requires |ticks| == |recs|
    requires NoCloseDuplicates(stored)
    ensures NoCloseDuplicates(Run(stored, token, recs, ticks).stored)
  {
    if recs != [] {
      var n := |recs| - 1;
      RunKeepsNoCloseDuplicates(stored, token, recs[..n], ticks[..n]);
      StepKeepsNoCloseDuplicates(Run(stored, token, recs[..n], ticks[..n]), token, recs[n], ticks[n]);
    }
  }

  // ---- per-record rules ----

  /** The loop state after record i is one step from the state before it. */
  lemma RunPrefixStep(stored: seq<StoredAttendance>, token: DeviceToken, recs: seq<AttendanceIn>, ticks: seq<Tick>, i: int)
    requires |ticks| == |recs| && 0 <= i < |recs|
    ensures Run(stored, token, recs[..i + 1], ticks[..i + 1])
            == Step(Run(stored, token, recs[..i], ticks[..i]), token, recs[i], ticks[i])
  {
    assert recs[..i + 1][..i] == recs[..i] && ticks[..i + 1][..i] == ticks[..i];
  }

  /** What handling record i does, given the state the records before it left: a foreign device id is a
      DEVICE_ID_MISMATCH error; a failing duplicate query is a SERVER_ERROR carrying str(e); a hit is a
      DUPLICATE_TIMESTAMP conflict naming the first hit; with no hit a failing save is a SERVER_ERROR, and
      otherwise the record is saved and reported as synced. Only the list named changes, and only a synced
      record is stored. */
  lemma RecordOutcome(stored: seq<StoredAttendance>, token: DeviceToken, recs: seq<AttendanceIn>, ticks: seq<Tick>, i: int)
    requires |ticks| == |recs| && 0 <= i < |recs|
    ensures var before := Run(stored, token, recs[..i], ticks[..i]);
            var after := Run(stored, token, recs[..i + 1], ticks[..i + 1]);
            var r := recs[i];
            var t := ticks[i];
            var hits := Duplicates(before.stored, CompositeKey(token.tenantId, r.employeeId), r.timestamp);
            && (r.deviceId != token.deviceId ==>
                  && after.errors == before.errors + [ErrorRecord(r.localId, DeviceIdMismatch, MismatchMessage)]
                  && after.synced == before.synced && after.conflicts == before.conflicts
                  && after.stored == before.stored)
            && (r.deviceId == token.deviceId && t.fault.QueryFails? ==>
                  && after.errors == before.errors + [ErrorRecord(r.localId, ServerError, t.fault.message)]
                  && after.synced == before.synced && after.conflicts == before.conflicts
                  && after.stored == before.stored)
            && (r.deviceId == token.deviceId && !t.fault.QueryFails? && hits != [] ==>
                  && after.conflicts == before.conflicts
                                        + [ConflictRecord(r.localId, DuplicateTimestamp, DuplicateMessage, hits[0])]
                  && after.synced == before.synced && after.errors == before.errors
                  && after.stored == before.stored)
            && (r.deviceId == token.deviceId && t.fault.SaveFails? && hits == [] ==>
                  && after.errors == before.errors + [ErrorRecord(r.localId, ServerError, t.fault.message)]
                  && after.synced == before.synced && after.conflicts == before.conflicts
                  && after.stored == before.stored)
            && (r.deviceId == token.deviceId && t.fault == NoFault && hits == [] ==>
                  && after.synced == before.synced + [SyncedRecord(r.localId, t.freshId, t.now)]
                  && after.stored == before.stored + [AcceptedRecord(token, r, t)]
                  && after.conflicts == before.conflicts && after.errors == before.errors)
  {
    RunPrefixStep(stored, token, recs, ticks, i);
  }

  /** `a` is a prefix of `b`. */
  predicate IsPrefix<T(==)>(a: seq<T>, b: seq<T>)
  {
    |a| <= |b| && b[..|a|] == a
  }

  lemma PrefixTransitive<T>(a: seq<T>, b: seq<T>, c: seq<T>)
    requires IsPrefix(a, b) && IsPrefix(b, c)
    ensures IsPrefix(a, c)
  {
    assert c[..|a|] == c[..|b|][..|a|];
  }

  /** Every list of the loop state, the store and the routes only grow by appending. */
  ghost predicate Extends(part: BatchRun, run: BatchRun)
  {
    && IsPrefix(part.synced, run.synced) && IsPrefix(part.conflicts, run.conflicts)
    && IsPrefix(part.errors, run.errors) && IsPrefix(part.stored, run.stored)
    && IsPrefix(part.routes, run.routes)
  }

  lemma StepExtends(p: BatchRun, token: DeviceToken, r: AttendanceIn, t: Tick)
    ensures Extends(p, Step(p, token, r, t))
  {
    var q := Step(p, token, r, t);
    assert q.synced[..|p.synced|] == p.synced && q.conflicts[..|p.conflicts|] == p.conflicts;
    assert q.errors[..|p.errors|] == p.errors && q.stored[..|p.stored|] == p.stored;
    assert q.routes[..|p.routes|] == p.routes;
  }

  /** The records after position i only append: the run over the first i records is extended by the whole run. */
  lemma {:induction false} RunGrows(stored: seq<StoredAttendance>, token: DeviceToken,
                                    recs: seq<AttendanceIn>, ticks: seq<Tick>, i: int)
    requires |ticks| == |recs| && 0 <= i <= |recs|
    ensures Extends(Run(stored, token, recs[..i], ticks[..i]), Run(stored, token, recs, ticks))
    decreases |recs| - i
  {
    var part := Run(stored, token, recs[..i], ticks[..i]);
    var run := Run(stored, token, recs, ticks);
    if i < |recs| {
      RunGrows(stored, token, recs, ticks, i + 1);
      RunPrefixStep(stored, token, recs, ticks, i);
      var next := Run(stored, token, recs[..i + 1], ticks[..i + 1]);
      StepExtends(part, token, recs[i], ticks[i]);
      PrefixTransitive(part.synced, next.synced, run.synced);
      PrefixTransitive(part.conflicts, next.conflicts, run.conflicts);
      PrefixTransitive(part.errors, next.errors, run.errors);
      PrefixTransitive(part.stored, next.stored, run.stored);
      PrefixTransitive(part.routes, next.routes, run.routes);
    } else {
      assert recs[..i] == recs && ticks[..i] == ticks;
    }
  }

  /** A record whose device id differs from the token's is routed to errors, and the response carries a
      DEVICE_ID_MISMATCH error for its local id. */
  lemma MismatchedRecordsAreErrors(stored: seq<StoredAttendance>, token: DeviceToken,
                                   recs: seq<AttendanceIn>, ticks: seq<Tick>, i: int)
    requires |ticks| == |recs|
    requires 0 <= i < |recs| && recs[i].deviceId != token.deviceId
    ensures var run := Run(stored, token, recs, ticks);
            && |run.routes| == |recs| && run.routes[i] == ToError
            && ErrorRecord(recs[i].localId, DeviceIdMismatch, MismatchMessage) in run.errors
  {
    RunPartition(stored, token, recs, ticks);
    RunPartition(stored, token, recs[..i], ticks[..i]);
    RunPrefixStep(stored, token, recs, ticks, i);
    RunGrows(stored, token, recs, ticks, i + 1);
    var next := Run(stored, token, recs[..i + 1], ticks[..i + 1]);
    var run := Run(stored, token, recs, ticks);
    assert next.routes[i] == ToError;
    assert run.routes[i] == run.routes[..|next.routes|][i];
    assert next.errors[|next.errors| - 1] == ErrorRecord(recs[i].localId, DeviceIdMismatch, MismatchMessage);
    assert run.errors[|next.errors| - 1] == run.errors[..|next.errors|][|next.errors| - 1];
  }

  /** A record on the token's device whose duplicate query, or whose save after a query with no hit, raises
      is reported as a SERVER_ERROR with the exception's text. */
  lemma FaultedRecordsAreErrors(stored: seq<StoredAttendance>, token: DeviceToken,
                                recs: seq<AttendanceIn>, ticks: seq<Tick>, i: int)
    requires |ticks| == |recs|
    requires 0 <= i < |recs| && recs[i].deviceId == token.deviceId
    requires ticks[i].fault.QueryFails? ||
             (ticks[i].fault.SaveFails? &&
              Duplicates(Run(stored, token, recs[..i], ticks[..i]).stored,
                         CompositeKey(token.tenantId, recs[i].employeeId), recs[i].timestamp) == [])
    ensures ErrorRecord(recs[i].localId, ServerError, ticks[i].fault.message) in Run(stored, token, recs, ticks).errors
  {
    RecordOutcome(stored, token, recs, ticks, i);
    RunGrows(stored, token, recs, ticks, i + 1);
    var next := Run(stored, token, recs[..i + 1], ticks[..i + 1]);
    var run := Run(stored, token, recs, ticks);
    assert next.errors[|next.errors| - 1] == ErrorRecord(recs[i].localId, ServerError, ticks[i].fault.message);
    assert run.errors[|next.errors| - 1] == run.errors[..|next.errors|][|next.errors| - 1];
  }

  /** The conflict `c` was raised for some input record on the token's device: its existing record lies
      under that record's `tenant#employee` key and within the window of its timestamp. */
  ghost predicate ConflictFromInput(c: ConflictRecord, token: DeviceToken, recs: seq<AttendanceIn>)
  {
    exists j :: 0 <= j < |recs| && recs[j].localId == c.localId && recs[j].deviceId == token.deviceId
                && c.existingRecord.key == CompositeKey(token.tenantId, recs[j].employeeId)
                && WithinWindow(c.existingRecord.entry.timestamp, recs[j].timestamp)
  }

  /** Every conflict names the DUPLICATE_TIMESTAMP reason, an existing record that is still stored, and was
      raised for an input record whose key and window that existing record matches. */
  lemma {:induction false} ConflictsReferenceStoredRecords(stored: seq<StoredAttendance>, token: DeviceToken,
                                                           recs: seq<AttendanceIn>, ticks: seq<Tick>)
    requires |ticks| == |recs|
    ensures forall c :: c in Run(stored, token, recs, ticks).conflicts ==>
              && c.reason == DuplicateTimestamp && c.message == DuplicateMessage
              && c.existingRecord in Run(stored, token, recs, ticks).stored
              && ConflictFromInput(c, token, recs)
  {
    if recs != [] {
      var n := |recs| - 1;
      var p := Run(stored, token, recs[..n], ticks[..n]);
      var q := Run(stored, token, recs, ticks);
      ConflictsReferenceStoredRecords(stored, token, recs[..n], ticks[..n]);
      assert q == Step(p, token, recs[n], ticks[n]);
      assert forall x :: x in p.stored ==> x in q.stored;
      forall c | c in q.conflicts
        ensures ConflictFromInput(c, token, recs)
      {
        if c in p.conflicts {
          var j :| 0 <= j < n && recs[..n][j].localId == c.localId && recs[..n][j].deviceId == token.deviceId
                   && c.existingRecord.key == CompositeKey(token.tenantId, recs[..n][j].employeeId)
                   && WithinWindow(c.existingRecord.entry.timestamp, recs[..n][j].timestamp);
          assert recs[..n][j] == recs[j];
        } else {
          assert c.existingRecord in Duplicates(p.stored, CompositeKey(token.tenantId, recs[n].employeeId), recs[n].timestamp);
        }
      }
    }
  }

  /** Two records of one employee, on the token's device and within the window of each other, sent in one
      batch with no store fault: the first is synced and the second is a conflict that names the first. */
  lemma CloseSecondIsConflict(stored: seq<StoredAttendance>, token: DeviceToken,
                              r1: AttendanceIn, r2: AttendanceIn, t1: Tick, t2: Tick)
    requires r1.deviceId == token.deviceId && r2.deviceId == token.deviceId
    requires r1.employeeId == r2.employeeId
    requires WithinWindow(r1.timestamp, r2.timestamp)
    requires t1.fault == NoFault && t2.fault == NoFault
    requires Duplicates(stored, CompositeKey(token.tenantId, r1.employeeId), r1.timestamp) == []
    requires Duplicates(stored, CompositeKey(token.tenantId, r2.employeeId), r2.timestamp) == []
    ensures var run := Run(stored, token, [r1, r2], [t1, t2]);
            && run.routes == [ToSynced, ToConflict]
            && run.synced == [SyncedRecord(r1.localId, t1.freshId, t1.now)]
            && |run.conflicts| == 1
            && run.conflicts[0].localId == r2.localId
            && run.conflicts[0].existingRecord == AcceptedRecord(token, r1, t1)
            && run.stored == stored + [AcceptedRecord(token, r1, t1)]
  {
    var key := CompositeKey(token.tenantId, r1.employeeId);
    var x := AcceptedRecord(token, r1, t1);
    assert [r1, r2][..1] == [r1] && [t1, t2][..1] == [t1];
    assert [r1][..0] == [] && [t1][..0] == [];
    var p0 := Run(stored, token, [], []);
    var p := Run(stored, token, [r1], [t1]);
    assert p == Step(p0, token, r1, t1);
    assert p.stored == stored + [x];
    DuplicatesOfAppended(stored, x, key, r2.timestamp);
    assert Run(stored, token, [r1, r2], [t1, t2]) == Step(p, token, r2, t2);
  }

  /** Two records of one employee further apart than the window, neither close to a stored record:
      both are synced and both are saved. */
  lemma FarApartBothSynced(stored: seq<StoredAttendance>, token: DeviceToken,
                           r1: AttendanceIn, r2: AttendanceIn, t1: Tick, t2: Tick)
    requires r1.deviceId == token.deviceId && r2.deviceId == token.deviceId
    requires r1.employeeId == r2.employeeId
    requires !WithinWindow(r1.timestamp, r2.timestamp)
    requires t1.fault == NoFault && t2.fault == NoFault
    requires Duplicates(stored, CompositeKey(token.tenantId, r1.employeeId), r1.timestamp) == []
    requires Duplicates(stored, CompositeKey(token.tenantId, r2.employeeId), r2.timestamp) == []
    ensures var run := Run(stored, token, [r1, r2], [t1, t2]);
            && run.routes == [ToSynced, ToSynced]
            && run.synced == [SyncedRecord(r1.localId, t1.freshId, t1.now), SyncedRecord(r2.localId, t2.freshId, t2.now)]
            && run.stored == stored + [AcceptedRecord(token, r1, t1), AcceptedRecord(token, r2, t2)]
  {
    var key := CompositeKey(token.tenantId, r1.employeeId);
    var x := AcceptedRecord(token, r1, t1);
    assert [r1, r2][..1] == [r1] && [t1, t2][..1] == [t1];
    assert [r1][..0] == [] && [t1][..0] == [];
    var p0 := Run(stored, token, [], []);
    var p := Run(stored, token, [r1], [t1]);
    assert p == Step(p0, token, r1, t1);
    assert p.stored == stored + [x];
    DuplicatesOfAppended(stored, x, key, r2.timestamp);
    assert Run(stored, token, [r1, r2], [t1, t2]) == Step(p, token, r2, t2);
  }

  /** The duplicate query over a store with one more record at the end. */
  lemma {:induction false} DuplicatesOfAppended(stored: seq<StoredAttendance>, x: StoredAttendance, key: string, ts: int)
    ensures Duplicates(stored + [x], key, ts)
            == Duplicates(stored, key, ts) + (if x.key == key && WithinWindow(x.entry.timestamp, ts) then [x] else [])
    decreases |stored|
  {
    if stored != [] {
      assert (stored + [x])[1..] == stored[1..] + [x];
      DuplicatesOfAppended(stored[1..], x, key, ts);
    }
  }
}
