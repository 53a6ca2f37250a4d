/**
 A fault directive is handed out at most once. What stands on the disk is told apart from what would
 survive a power loss; every operation may fail, and the process may die between any two of them.
 */
module FaultConsumption {
  import opened Common

  // ---- The disk ------------------------------------------------------------------------------

  /** A record file: whether it holds the whole record, and whether its contents were flushed. */
  datatype File = File(complete: bool, flushed: bool)

  /**
   The consumption directory as the running system sees it, and the entries it had when it was last
   synchronised. `rooted` says that the directory itself is on the disk for good.
   */
  datatype Disk = Disk(files: map<string, File>, settled: map<string, File>, rooted: bool)

  /** The record survives whatever happens: entry, directory and contents are all on the disk. */
  predicate Durable(d: Disk, name: string) {
    d.rooted && name in d.settled && name in d.files && d.files[name] == File(true, true)
  }

  /**
   What may be found after a power loss: every entry as last synchronised or as last seen, flushed
   contents intact, anything else arbitrary.
   */
  predicate MayRemain(d: Disk, after: map<string, File>) {
    (d.rooted ==> forall name :: name in d.files && name in d.settled ==> name in after) &&
    forall name :: name in after ==>
      (name in d.files || name in d.settled) &&
      (name in d.files && d.files[name].flushed ==> after[name] == d.files[name])
  }

  lemma DurableRemains(d: Disk, after: map<string, File>, name: string)
    requires Durable(d, name) && MayRemain(d, after)
    ensures Durable(Disk(after, after, true), name)
  {
  }

  // ---- Contracts -----------------------------------------------------------------------------

  datatype Contract = Contract(scenario: string, action: string, task: string, snapshot: string, digest: string, run: string, attempt: string)

  datatype Fact = Fact(run: string, attempt: string, task: string, snapshot: string, digest: string, profile: string, validDigest: bool)

  const STANDARD_PROFILE := "standard"

  datatype Outcome =
    | NoDirective
    | Issued(scenario: string, action: string)
    | AlreadyConsumed
    | Drifted
    | Failed
    | Died

  /** How writing a record ended; `Cut` when the process died. */
  datatype Writing = Stored | Existed | Refused | Cut

  /** Names, actions and tasks are told apart; this is checked when a controller is made. */
  predicate ValidContracts(contracts: seq<Contract>) {
    forall i, j :: 0 <= i < j < |contracts| ==>
      contracts[i].scenario != contracts[j].scenario && contracts[i].action != contracts[j].action && contracts[i].task != contracts[j].task
  }

  /** No scenario was handed out twice. */
  predicate AtMostOnce(issued: seq<string>) { forall i, j :: 0 <= i < j < |issued| ==> issued[i] != issued[j] }

  /** The disk, and the scenarios of all directives handed out since the beginning of time, in order. */
  class Machine {
    var disk: Disk
    ghost var issued: seq<string>
    ghost var faults: nat  // operations that failed and processes that died so far

    constructor ()
      ensures Valid() && issued == [] && disk == Disk(map[], map[], false)
    {
      disk, issued, faults := Disk(map[], map[], false), [], 0;
    }

    /** Whatever was handed out was so at most once, and its record can no longer be lost. */
    ghost predicate Valid()
      reads this
    {
      AtMostOnce(issued) && forall name :: name in issued ==> Durable(disk, name)
    }

    method PowerLoss()
      requires Valid()
      modifies this
      ensures Valid() && issued == old(issued) && faults == old(faults) && MayRemain(old(disk), disk.files)
      ensures forall name :: Durable(old(disk), name) ==> Durable(disk, name)
    {
      assert MayRemain(disk, disk.files);
      var after :| MayRemain(disk, after);
      forall name | Durable(disk, name)
        ensures Durable(Disk(after, after, true), name)
      {
        DurableRemains(disk, after, name);
      }
      var rooted := disk.rooted;
      disk := Disk(after, after, rooted);
    }
  }

  // ---- The controller ------------------------------------------------------------------------

  /** One process. Its memory of what was consumed dies with it; its calls run one at a time. */
  class Controller {
    const machine: Machine
    const contracts: seq<Contract>
    const verify: Option<(Fact, Contract) -> bool>
    var consumed: set<string>

    constructor (machine: Machine, contracts: seq<Contract>, verify: Option<(Fact, Contract) -> bool>)
      requires ValidContracts(contracts)
      ensures Valid() && consumed == {} && this.machine == machine && this.contracts == contracts && this.verify == verify
    {
      this.machine, this.contracts, this.verify, consumed := machine, contracts, verify, {};
    }

    /** What the process remembers as consumed is consumed for good. */
    ghost predicate Valid()
      reads this, machine
    {
      ValidContracts(contracts) &&
      forall i :: 0 <= i < |contracts| && contracts[i].action in consumed ==> Durable(machine.disk, contracts[i].scenario)
    }

    predicate Drift(fact: Fact, c: Contract) {
      fact.snapshot != c.snapshot || fact.digest != c.digest || fact.profile != STANDARD_PROFILE || !fact.validDigest ||
      (match verify case Some(accepts) => !accepts(fact, c) case None => fact.run != c.run || fact.attempt != c.attempt)
    }

    /** The invocation is exactly the declared one: its plan, profile and digest, and it passes the check of who invokes. */
    predicate Fits(fact: Fact, c: Contract) {
      c.task == fact.task && c.snapshot == fact.snapshot && c.digest == fact.digest && fact.profile == "standard" && fact.validDigest &&
      (verify.Some? ==> verify.value(fact, c)) && (verify.None? ==> c.run == fact.run && c.attempt == fact.attempt)
    }

    /** The directive is the one declared for the Task of an invocation that has not drifted. */
    predicate Declares(c: Contract, fact: Fact, r: Outcome) { r.Issued? && Fits(fact, c) && c.scenario == r.scenario && c.action == r.action }

    /** Creates, writes, seals and settles the record of a name that has none. */
    method Fill(name: string) returns (r: Writing)
      requires machine.Valid() && Valid() && machine.disk.rooted && name !in machine.disk.files
      modifies machine
      ensures machine.Valid() && Valid() && machine.issued == old(machine.issued)
      ensures forall other :: Durable(old(machine.disk), other) ==> Durable(machine.disk, other)
      ensures forall other :: other != name && other in old(machine.disk).files ==> other in machine.disk.files && machine.disk.files[other] == old(machine.disk).files[other]
      ensures r.Stored? ==> Durable(machine.disk, name)
      ensures !r.Existed? && old(machine.faults) <= machine.faults && (!r.Stored? <==> machine.faults > old(machine.faults))
    {
      var fails := *;
      if fails {
        machine.faults := machine.faults + 1;
        return Refused;
      }
      var found := machine.disk;
      machine.disk := Update(found, name, File(false, false));
      var dies := *;
      if dies {
        machine.faults := machine.faults + 1;
        return Cut;
      }
      var step := 0;
      while step < 5
        invariant 0 <= step <= 5
        invariant machine.disk == Update(found, name, File(step > 0, step > 1))
        invariant machine.issued == old(machine.issued) && machine.faults == old(machine.faults)
      {
        fails := *;
        if fails {
          // Whatever failed, the file is removed again, unless that fails or the process dies first.
          var stays := *;
          if !stays { machine.disk := Dropped(machine.disk, name); }
          dies := *;
          machine.faults := machine.faults + 1;
          return if dies then Cut else Refused;
        }
        // Written, flushed, sealed, flushed again, closed.
        machine.disk := Update(machine.disk, name, File(true, step >= 1));
        step := step + 1;
        dies := *;
        if dies {
          machine.faults := machine.faults + 1;
          return Cut;
        }
      }
      fails := *;
      if fails {
        machine.faults := machine.faults + 1;
        return Refused;
      }
      machine.disk := machine.disk.(settled := machine.disk.files);
      dies := *;
      if dies {
        machine.faults := machine.faults + 1;
        return Cut;
      }
      r := Stored;
    }

    /** Makes the directory if need be, and the record unless there is one. */
    method Record(name: string) returns (r: Writing)
      requires machine.Valid() && Valid()
      modifies machine
      ensures machine.Valid() && Valid() && machine.issued == old(machine.issued)
      ensures forall other :: Durable(old(machine.disk), other) ==> Durable(machine.disk, other)
      ensures forall other :: other != name && other in old(machine.disk).files ==> other in machine.disk.files && machine.disk.files[other] == old(machine.disk).files[other]
      ensures r.Stored? ==> name !in old(machine.disk).files && Durable(machine.disk, name)
      ensures name in old(machine.disk).files ==> machine.disk.files == old(machine.disk).files
      ensures r.Existed? ==> name in machine.disk.files
      ensures old(machine.faults) <= machine.faults && (r.Refused? || r.Cut? <==> machine.faults > old(machine.faults))
      ensures machine.faults == old(machine.faults) ==> (r.Existed? <==> name in old(machine.disk).files)
    {
      var fails, dies := *, *;
      if dies || fails {
        machine.faults := machine.faults + 1;
        return if dies then Cut else Refused;
      }
      // Synchronising its parent puts the directory on the disk for good.
      machine.disk := machine.disk.(rooted := true);
      dies := *;
      if dies {
        machine.faults := machine.faults + 1;
        return Cut;
      }
      if name in machine.disk.files { return Existed; }
      r := Fill(name);
    }

    method Consume(fact: Fact) returns (r: Outcome)
      requires machine.Valid() && Valid()
      modifies this, machine
      ensures machine.Valid() && Valid()
      ensures !r.Issued? ==> machine.issued == old(machine.issued)
      ensures r.Issued? ==> r.scenario !in old(machine.issued) && machine.issued == old(machine.issued) + [r.scenario] && Durable(machine.disk, r.scenario)
      ensures r.Issued? ==> exists i :: 0 <= i < |contracts| && Declares(contracts[i], fact, r)
      ensures r.Issued? ==> r.scenario !in old(machine.disk).files
      ensures r.NoDirective? <==> forall i :: 0 <= i < |contracts| ==> contracts[i].task != fact.task
      ensures r.NoDirective? || r.Drifted? ==> machine.disk == old(machine.disk)
      ensures forall name :: Durable(old(machine.disk), name) ==> Durable(machine.disk, name)
      ensures old(machine.faults) <= machine.faults && (r.Failed? || r.Died? <==> machine.faults > old(machine.faults))
      ensures r.Drifted? <==> exists i :: 0 <= i < |contracts| && contracts[i].task == fact.task && contracts[i].action !in old(consumed) && !Fits(fact, contracts[i])
      ensures machine.faults == old(machine.faults) ==>
                (r.Issued? <==> exists i :: 0 <= i < |contracts| && Fits(fact, contracts[i]) && contracts[i].action !in old(consumed) &&
                                           contracts[i].scenario !in old(machine.disk).files)
      ensures r == AlreadyConsumed ==> exists i :: 0 <= i < |contracts| && contracts[i].task == fact.task && contracts[i].scenario in machine.disk.files
    {
      for k := 0 to |contracts|
        invariant machine.Valid() && Valid() && consumed == old(consumed)
        invariant machine.disk == old(machine.disk) && machine.issued == old(machine.issued) && machine.faults == old(machine.faults)
        invariant forall i :: 0 <= i < k ==> contracts[i].task != fact.task
      {
        var c := contracts[k];
        if fact.task != c.task { continue; }
        if c.action in consumed { return AlreadyConsumed; }
        if Drift(fact, c) { return Drifted; }
        assert c.scenario in machine.issued ==> Durable(machine.disk, c.scenario);
        var recorded := Record(c.scenario);
        match recorded {
          case Cut => return Died;
          case Refused => return Failed;
          case Existed => return AlreadyConsumed;
          case Stored =>
        }
        consumed := consumed + {c.action};
        machine.issued := machine.issued + [c.scenario];
        assert Declares(contracts[k], fact, Issued(c.scenario, c.action));
        return Issued(c.scenario, c.action);
      }
      r := NoDirective;
    }
  }

  function Update(d: Disk, name: string, f: File): Disk { d.(files := d.files[name := f]) }

  function Dropped(d: Disk, name: string): Disk { d.(files := d.files - {name}) }

  // ---- Every life of the machine -------------------------------------------------------------

  /**
   Any number of processes, each with contracts of its own, calls, crashes and power losses later: the
   directives handed out are those from before and new ones, no two of the same scenario.
   */
  method Live(machine: Machine)
    requires machine.Valid()
    modifies machine
    ensures machine.Valid() && old(machine.issued) <= machine.issued
    ensures AtMostOnce(machine.issued)
    ensures forall name :: Durable(old(machine.disk), name) || name in machine.issued ==> Durable(machine.disk, name)
  {
    var boots: nat :| true;
    for b := 0 to boots
      invariant machine.Valid() && old(machine.issued) <= machine.issued
      invariant forall name :: Durable(old(machine.disk), name) ==> Durable(machine.disk, name)
    {
      assert ValidContracts([]);
      var contracts: seq<Contract> :| ValidContracts(contracts);
      var verify: Option<(Fact, Contract) -> bool> := *;
      var controller := new Controller(machine, contracts, verify);
      var calls: nat :| true;
      for k := 0 to calls
        invariant machine.Valid() && controller.Valid() && controller.machine == machine && fresh(controller)
        invariant old(machine.issued) <= machine.issued
        invariant forall name :: Durable(old(machine.disk), name) ==> Durable(machine.disk, name)
      {
        var fact: Fact := *;
        var r := controller.Consume(fact);
        if r.Died? { break; }
      }
      var power := *;
      if power { machine.PowerLoss(); }
    }
  }
}
