/** The write-once table of decision cores. */
module DecisionCoreRepository {
  import opened Options
  import opened Faults
  import opened Json
  import opened DecisionCore

  datatype CoreError = EmptyDecisionId | AlreadyExists | TableFault

  class CoreRepository {
    var cores: map<Text, Core>
    var faults: seq<Fault>

    ghost predicate Valid()
      reads this
    {
      [] !in cores && forall k :: k in cores ==> cores[k].input.decisionId == k
    }

    function CoreOf(decisionId: Text): Option<Core>
      reads this
    {
      if decisionId in cores then Some(cores[decisionId]) else None
    }

    constructor (calls: seq<Fault>)
      ensures Valid() && cores == map[] && faults == calls
    {
      cores, faults := map[], calls;
    }

    method NextFault() returns (f: Fault)
      modifies this`faults
      ensures f == FirstFault(old(faults)) && faults == LaterFaults(old(faults))
    {
      f := FirstFault(faults);
      faults := LaterFaults(faults);
    }

    /** The only write: a core is inserted under a new decision id and no core ever changes. */
    method ConditionalPutNew(core: Core) returns (r: Result<Core, CoreError>)
      requires Valid()
      modifies this
      ensures Valid()
      ensures core.input.decisionId == [] ==> r == Err(EmptyDecisionId) && cores == old(cores) && faults == old(faults)
      ensures core.input.decisionId != [] ==>
        var f := FirstFault(old(faults)); var taken := core.input.decisionId in old(cores);
        && faults == LaterFaults(old(faults))
        && cores == (if f.Unavailable? || taken then old(cores) else old(cores)[core.input.decisionId := core])
        && r == Heard(f, if taken then Err(AlreadyExists) else Ok(core), TableFault)
    {
      var id := core.input.decisionId;
      if id == [] {
        return Err(EmptyDecisionId);
      }
      var f := NextFault();
      var taken := id in cores;
      if !f.Unavailable? && !taken {
        cores := cores[id := core];
      }
      r := Heard(f, if taken then Err(AlreadyExists) else Ok(core), TableFault);
    }

    method GetConsistent(decisionId: Text) returns (r: Result<Option<Core>, CoreError>)
      requires Valid()
      modifies this`faults
      ensures Valid()
      ensures decisionId == [] ==> r == Err(EmptyDecisionId) && faults == old(faults)
      ensures decisionId != [] ==>
        r == Heard(FirstFault(old(faults)), Ok(CoreOf(decisionId)), TableFault) && faults == LaterFaults(old(faults))
    {
      if decisionId == [] {
        return Err(EmptyDecisionId);
      }
      var f := NextFault();
      r := Heard(f, Ok(CoreOf(decisionId)), TableFault);
    }
  }

  /**
   Insert, and on a taken key compare the identity with the stored core. The caller is
   told COMMITTED or ALREADY_COMMITTED only for a core whose identity is the stored one,
   and an existing core is never replaced.
   */
  method PersistDecisionCore(repository: CoreRepository, core: Core) returns (r: Result<Persisted, CoreError>)
    requires repository.Valid()
    modifies repository
    ensures repository.Valid()
    ensures forall k :: k in old(repository.cores) ==>
      k in repository.cores && repository.cores[k] == old(repository.cores)[k]
    ensures forall k :: k in repository.cores && k !in old(repository.cores) ==> repository.cores[k] == core
    ensures r.Ok? ==> repository.CoreOf(core.input.decisionId).Some?
    ensures r.Ok? ==>
      r.value == match old(repository.CoreOf(core.input.decisionId))
                 case None => Committed(core)
                 case Some(stored) => ClassifyReread(core, Some(stored))
    ensures r.Ok? && !r.value.IdentityConflict? ==>
      SameIdentity(repository.CoreOf(core.input.decisionId).value, r.value.core)
    ensures core.input.decisionId == [] ==> r == Err(EmptyDecisionId) && repository.cores == old(repository.cores)
    ensures core.input.decisionId != [] && r.Err? ==> r.error == TableFault
    ensures core.input.decisionId != [] && old(repository.faults) == [] ==> r.Ok?
  {
    var put := repository.ConditionalPutNew(core);
    if put.Ok? {
      return Ok(Committed(put.value));
    }
    if put.error != AlreadyExists {
      return Err(put.error);
    }
    var stored := repository.GetConsistent(core.input.decisionId);
    if stored.Err? {
      return Err(stored.error);
    }
    if stored.value.None? {
      return Ok(ClassifyReread(core, None));
    }
    var same, mismatches := ClassifyCoreIdentity(core, stored.value.value);
    if same {
      return Ok(AlreadyCommittedSame(stored.value.value));
    }
    r := Ok(IdentityConflict(stored.value.value, mismatches));
  }
}
