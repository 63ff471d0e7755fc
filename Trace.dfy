/**
 * Sequences of registry operations, run one after another from a state, and
 * what holds of every state and result such a run produces.
 */
module RegistryTrace {
  import opened RegistryTypes
  import S = RegistrySpec

  /** One state-changing call, with all of its arguments. */
  datatype Op =
    | Register(reg: Registration, owner: string, height: int)
    | UpdateStatus(id: int, status: string, caller: string)
    | UpdateLocation(id: int, latitude: string, longitude: string, description: string,
                     caller: string)
    | UpdateNetwork(id: int, ipAddress: string, firmwareVersion: string, caller: string)
    | Transfer(id: int, newOwner: string, reason: string, caller: string, height: int)
    | AddMaintenance(equipmentId: int, maintenanceType: string, description: string,
                     performedDate: int, cost: int, partsReplaced: string,
                     nextMaintenanceDate: int, performedBy: string)

  /**
   * s' keeps everything s had: neither counter went back, no equipment vanished
   * or changed its fixed attributes, and no maintenance record or history entry
   * was removed or overwritten.
   */
  ghost predicate Extends(s: S.State, s': S.State) {
    && s.lastEquipmentId <= s'.lastEquipmentId
    && s.lastMaintenanceRecordId <= s'.lastMaintenanceRecordId
    && (forall id :: id in s.equipment ==>
          id in s'.equipment && SameIdentity(s.equipment[id], s'.equipment[id]))
    && (forall m :: m in s.maintenance ==>
          m in s'.maintenance && s'.maintenance[m] == s.maintenance[m])
    && (forall k :: k in s.history ==> k in s'.history && s'.history[k] == s.history[k])
  }

  function Apply(s: S.State, op: Op): (t: S.Transition<int>)
    ensures s.lastEquipmentId <= t.post.lastEquipmentId
  {
    match op
    case Register(reg, owner, height) => S.Register(s, reg, owner, height)
    case UpdateStatus(id, status, caller) => S.UpdateStatus(s, id, status, caller)
    case UpdateLocation(id, lat, lon, desc, caller) => S.UpdateLocation(s, id, lat, lon, desc, caller)
    case UpdateNetwork(id, ip, fw, caller) => S.UpdateNetwork(s, id, ip, fw, caller)
    case Transfer(id, newOwner, reason, caller, height) =>
      S.Transfer(s, id, newOwner, reason, caller, height)
    case AddMaintenance(eid, mtype, desc, date, cost, parts, next, performedBy) =>
      S.AddMaintenance(s, eid, mtype, desc, date, cost, parts, next, performedBy)
  }

  /** A single edit of the record under `id` keeps its fixed attributes. */
  lemma EntryEditExtends(s: S.State, s': S.State, id: int)
    requires S.OnlyEntryChanged(s, s', id)
    requires SameIdentity(s.equipment[id], s'.equipment[id])
    ensures Extends(s, s')
  {
  }

  lemma RegisterExtends(s: S.State, reg: Registration, owner: string, height: int)
    requires s.lastEquipmentId + 1 !in s.equipment
    ensures Extends(s, S.Register(s, reg, owner, height).post)
  {
  }

  lemma StatusExtends(s: S.State, id: int, status: string, caller: string)
    ensures Extends(s, S.UpdateStatus(s, id, status, caller).post)
  {
    var t := S.UpdateStatus(s, id, status, caller);
    if t.result.Ok? { EntryEditExtends(s, t.post, id); }
  }

  lemma LocationExtends(s: S.State, id: int, lat: string, lon: string, desc: string, caller: string)
    ensures Extends(s, S.UpdateLocation(s, id, lat, lon, desc, caller).post)
  {
    var t := S.UpdateLocation(s, id, lat, lon, desc, caller);
    if t.result.Ok? { EntryEditExtends(s, t.post, id); }
  }

  lemma NetworkExtends(s: S.State, id: int, ip: string, fw: string, caller: string)
    ensures Extends(s, S.UpdateNetwork(s, id, ip, fw, caller).post)
  {
    var t := S.UpdateNetwork(s, id, ip, fw, caller);
    if t.result.Ok? { EntryEditExtends(s, t.post, id); }
  }

  lemma TransferExtends(s: S.State, id: int, newOwner: string, reason: string, caller: string,
                        height: int)
    requires (id, s.lastEquipmentId) !in s.history
    ensures Extends(s, S.Transfer(s, id, newOwner, reason, caller, height).post)
  {
  }

  lemma MaintenanceExtends(s: S.State, eid: int, mtype: string, desc: string, date: int, cost: int,
                           parts: string, next: int, performedBy: string)
    requires s.lastMaintenanceRecordId + 1 !in s.maintenance
    ensures Extends(s, S.AddMaintenance(s, eid, mtype, desc, date, cost, parts, next, performedBy).post)
  {
    var t := S.AddMaintenance(s, eid, mtype, desc, date, cost, parts, next, performedBy);
    if eid in s.equipment {
      var n := s.lastMaintenanceRecordId + 1;
      assert t.post.maintenance == s.maintenance[n := t.post.maintenance[n]];
      assert t.post.equipment == s.equipment && t.post.history == s.history;
    }
  }

  /** Every operation keeps the invariant and extends the state it starts from. */
  lemma {:induction false} ApplyStep(s: S.State, op: Op)
    requires S.Inv(s)
    ensures S.Inv(Apply(s, op).post) && Extends(s, Apply(s, op).post)
  {
    S.NextKeysFresh(s, if op.Transfer? then op.id else 0);
    match op
    case Register(reg, owner, height) =>
      S.RegisterPreservesInv(s, reg, owner, height);
      RegisterExtends(s, reg, owner, height);
    case UpdateStatus(id, status, caller) =>
      S.UpdateStatusPreservesInv(s, id, status, caller);
      StatusExtends(s, id, status, caller);
    case UpdateLocation(id, lat, lon, desc, caller) =>
      S.UpdateLocationPreservesInv(s, id, lat, lon, desc, caller);
      LocationExtends(s, id, lat, lon, desc, caller);
    case UpdateNetwork(id, ip, fw, caller) =>
      S.UpdateNetworkPreservesInv(s, id, ip, fw, caller);
      NetworkExtends(s, id, ip, fw, caller);
    case Transfer(id, newOwner, reason, caller, height) =>
      S.TransferPreservesInv(s, id, newOwner, reason, caller, height);
      TransferExtends(s, id, newOwner, reason, caller, height);
    case AddMaintenance(eid, mtype, desc, date, cost, parts, next, performedBy) =>
      S.AddMaintenancePreservesInv(s, eid, mtype, desc, date, cost, parts, next, performedBy);
      MaintenanceExtends(s, eid, mtype, desc, date, cost, parts, next, performedBy);
  }

  /** The state after performing `ops` in order from `s`. */
  function Run(s: S.State, ops: seq<Op>): S.State
    decreases |ops|
  {
    if ops == [] then s else Run(Apply(s, ops[0]).post, ops[1..])
  }

  /** What each call of `ops` returned, in order. */
  function Results(s: S.State, ops: seq<Op>): (rs: seq<Result<int>>)
    ensures |rs| == |ops|
    decreases |ops|
  {
    if ops == [] then [] else [Apply(s, ops[0]).result] + Results(Apply(s, ops[0]).post, ops[1..])
  }

  lemma {:induction false} RunPreservesInv(s: S.State, ops: seq<Op>)
    requires S.Inv(s)
    ensures S.Inv(Run(s, ops))
    decreases |ops|
  {
    if ops != [] {
      ApplyStep(s, ops[0]);
      RunPreservesInv(Apply(s, ops[0]).post, ops[1..]);
    }
  }

  /** Every state reachable from the initial one satisfies the invariant. */
  lemma ReachableSatisfiesInv(ops: seq<Op>)
    ensures S.Inv(Run(S.Init(), ops))
  {
    S.InitSatisfiesInv();
    RunPreservesInv(S.Init(), ops);
  }

  /** Nothing is ever deleted or overwritten, and counters never go back. */
  lemma {:induction false} RunExtends(s: S.State, ops: seq<Op>)
    requires S.Inv(s)
    ensures Extends(s, Run(s, ops))
    decreases |ops|
  {
    if ops != [] {
      var t := Apply(s, ops[0]);
      ApplyStep(s, ops[0]);
      RunExtends(t.post, ops[1..]);
      ExtendsTransitive(s, t.post, Run(t.post, ops[1..]));
    }
  }

  lemma ExtendsTransitive(a: S.State, b: S.State, c: S.State)
    requires Extends(a, b) && Extends(b, c)
    ensures Extends(a, c)
  {
  }

  lemma {:induction false} CounterNeverDecreases(s: S.State, ops: seq<Op>)
    ensures s.lastEquipmentId <= Run(s, ops).lastEquipmentId
    decreases |ops|
  {
    if ops != [] {
      CounterNeverDecreases(Apply(s, ops[0]).post, ops[1..]);
    }
  }

  /** A non-empty run is its first step followed by the run of the rest. */
  lemma RunCons(s: S.State, ops: seq<Op>)
    requires ops != []
    ensures Run(s, ops) == Run(Apply(s, ops[0]).post, ops[1..])
    ensures Results(s, ops) == [Apply(s, ops[0]).result] + Results(Apply(s, ops[0]).post, ops[1..])
  {
  }

  /** Running a trace is running its first n operations and then the rest. */
  lemma {:induction false} RunSplit(s: S.State, ops: seq<Op>, n: nat)
    requires n <= |ops|
    ensures Run(s, ops) == Run(Run(s, ops[..n]), ops[n..])
    ensures Results(s, ops) == Results(s, ops[..n]) + Results(Run(s, ops[..n]), ops[n..])
    decreases n
  {
    if n == 0 {
      assert ops[..0] == [];
      assert ops[0..] == ops;
    } else {
      var t := Apply(s, ops[0]);
      var rest, prefix := ops[1..], ops[..n];
      RunSplit(t.post, rest, n - 1);
      assert prefix[0] == ops[0] && prefix[1..] == rest[..n - 1];
      assert rest[n - 1..] == ops[n..];
      RunCons(s, prefix);
      RunCons(s, ops);
    }
  }

  /**
   * A registration anywhere in a trace succeeds with an identifier above the
   * starting counter and not above the final one.
   */
  lemma {:induction false} RegistrationIdBounds(s: S.State, ops: seq<Op>, i: nat)
    requires i < |ops| && ops[i].Register?
    ensures Results(s, ops)[i].Ok?
    ensures s.lastEquipmentId < Results(s, ops)[i].value <= Run(s, ops).lastEquipmentId
    decreases i
  {
    var t := Apply(s, ops[0]);
    if i == 0 {
      CounterNeverDecreases(t.post, ops[1..]);
    } else {
      RegistrationIdBounds(t.post, ops[1..], i - 1);
    }
  }

  /**
   * Equipment identifiers are allocated strictly increasingly over any mix of
   * operations, so no two registrations ever receive the same identifier.
   */
  lemma RegisteredIdsIncrease(s: S.State, ops: seq<Op>, i: nat, j: nat)
    requires i < j < |ops| && ops[i].Register? && ops[j].Register?
    ensures Results(s, ops)[i].Ok? && Results(s, ops)[j].Ok?
    ensures Results(s, ops)[i].value < Results(s, ops)[j].value
  {
    var prefix, suffix := ops[..i + 1], ops[i + 1..];
    ResultInPrefix(s, ops, i + 1, i);
    ResultInSuffix(s, ops, i + 1, j);
    assert prefix[i] == ops[i] && suffix[j - (i + 1)] == ops[j];
    RegistrationIdBounds(s, prefix, i);
    RegistrationIdBounds(Run(s, prefix), suffix, j - (i + 1));
  }

  /** The k-th result of a trace is the k-th result of any prefix that contains it. */
  lemma ResultInPrefix(s: S.State, ops: seq<Op>, n: nat, k: nat)
    requires k < n <= |ops|
    ensures Results(s, ops)[k] == Results(s, ops[..n])[k]
  {
    RunSplit(s, ops, n);
  }

  /** A result after the first n operations is a result of the rest, run from where they end. */
  lemma ResultInSuffix(s: S.State, ops: seq<Op>, n: nat, k: nat)
    requires n <= k < |ops|
    ensures Results(s, ops)[k] == Results(Run(s, ops[..n]), ops[n..])[k - n]
  {
    RunSplit(s, ops, n);
  }

  ghost predicate AllRegistrations(ops: seq<Op>) {
    forall i :: 0 <= i < |ops| ==> ops[i].Register?
  }

  /** One registration, seen through Apply. */
  lemma RegisterStep(s: S.State, op: Op)
    requires op.Register?
    ensures Apply(s, op).result == Ok(s.lastEquipmentId + 1)
    ensures Apply(s, op).post.lastEquipmentId == s.lastEquipmentId + 1
    ensures Apply(s, op).post.equipment.Keys == s.equipment.Keys + {s.lastEquipmentId + 1}
  {
    assert Apply(s, op) == S.Register(s, op.reg, op.owner, op.height);
  }

  lemma AllRegistrationsTail(ops: seq<Op>)
    requires ops != [] && AllRegistrations(ops)
    ensures AllRegistrations(ops[1..])
  {
    forall i | 0 <= i < |ops| - 1 ensures ops[1..][i].Register? {
      assert ops[1..][i] == ops[i + 1];
    }
  }

  /** The i-th of N registrations in a row returns the counter's value plus i + 1. */
  lemma {:induction false} RegistrationResult(s: S.State, ops: seq<Op>, i: nat)
    requires AllRegistrations(ops) && i < |ops|
    ensures Results(s, ops)[i] == Ok(s.lastEquipmentId + i + 1)
    decreases i
  {
    var t := Apply(s, ops[0]);
    RegisterStep(s, ops[0]);
    RunCons(s, ops);
    var tail := Results(t.post, ops[1..]);
    if i > 0 {
      AllRegistrationsTail(ops);
      RegistrationResult(t.post, ops[1..], i - 1);
      assert Results(s, ops)[i] == tail[i - 1];
    }
  }

  /**
   * N registrations in a row return the next N identifiers in call order and
   * add exactly those keys to the equipment table.
   */
  lemma {:induction false} RegistrationsAreConsecutive(s: S.State, ops: seq<Op>)
    requires AllRegistrations(ops)
    ensures forall i :: 0 <= i < |ops| ==> Results(s, ops)[i] == Ok(s.lastEquipmentId + i + 1)
    ensures Run(s, ops).lastEquipmentId == s.lastEquipmentId + |ops|
    ensures forall k :: k in Run(s, ops).equipment <==>
              k in s.equipment || s.lastEquipmentId < k <= s.lastEquipmentId + |ops|
    decreases |ops|
  {
    forall i | 0 <= i < |ops| ensures Results(s, ops)[i] == Ok(s.lastEquipmentId + i + 1) {
      RegistrationResult(s, ops, i);
    }
    if ops != [] {
      RegisterStep(s, ops[0]);
      AllRegistrationsTail(ops);
      RegistrationsAreConsecutive(Apply(s, ops[0]).post, ops[1..]);
    }
  }

  /**
   * From the initial state, N registrations are numbered exactly 1..N and the
   * registry then holds exactly N pieces of equipment.
   */
  lemma FreshRegistrationsNumberedOneToN(ops: seq<Op>)
    requires AllRegistrations(ops)
    ensures forall i :: 0 <= i < |ops| ==> Results(S.Init(), ops)[i] == Ok(i + 1)
    ensures Run(S.Init(), ops).equipment.Keys == S.Ids(|ops|)
    ensures |Run(S.Init(), ops).equipment| == |ops|
  {
    RegistrationsAreConsecutive(S.Init(), ops);
    var e := Run(S.Init(), ops).equipment;
    assert e.Keys == S.Ids(|ops|);
    assert |e| == |e.Keys|;
  }
}
