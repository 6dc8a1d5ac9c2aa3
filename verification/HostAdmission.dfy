/** Admission slots: one numbered file per live process, shared by every manager on the host. */
module HostAdmission {
  import opened Basics

  /** What a slot file holds; an unreadable one belongs to nobody and is never reclaimed. */
  datatype Entry = Record(processId: string, managerPid: nat, childPid: Option<nat>) | Unreadable

  type Slots = map<nat, Entry>

  predicate Stale(e: Entry, live: set<nat>) {
    e.Record? && e.managerPid !in live && (e.childPid.Some? ==> e.childPid.value !in live)
  }

  /** A slot that a claim can take: free, or left behind by processes that are all dead. */
  predicate Claimable(slots: Slots, live: set<nat>, index: nat) {
    index !in slots || Stale(slots[index], live)
  }

  predicate Owns(slots: Slots, index: nat, managerPid: nat, processId: string) {
    index in slots && slots[index].Record? && slots[index].processId == processId && slots[index].managerPid == managerPid
  }

  // ----- the three file operations, each one atomic -----

  function Created(slots: Slots, index: nat, e: Entry): Slots {
    if index in slots then slots else slots[index := e]
  }

  function Reclaimed(slots: Slots, live: set<nat>, index: nat): Slots {
    if index in slots && Stale(slots[index], live) then slots - {index} else slots
  }

  function ChildRecorded(slots: Slots, index: nat, managerPid: nat, processId: string, childPid: nat): Slots {
    if Owns(slots, index, managerPid, processId) then slots[index := slots[index].(childPid := Some(childPid))] else slots
  }

  function Released(slots: Slots, index: nat, managerPid: nat, processId: string): Slots {
    if Owns(slots, index, managerPid, processId) then slots - {index} else slots
  }

  class AdmissionDirectory {
    var slots: Slots

    constructor ()
      ensures slots == map[]
    {
      slots := map[];
    }

    /** Exclusive creation: fails when the file is there. */
    method CreateExclusive(index: nat, e: Entry) returns (created: bool)
      modifies this
      ensures slots == Created(old(slots), index, e) && created == (index !in old(slots))
    {
      created := index !in slots;
      if created {
        slots := slots[index := e];
      }
    }

    method TryReclaimStale(index: nat, live: set<nat>) returns (reclaimed: bool)
      modifies this
      ensures slots == Reclaimed(old(slots), live, index)
      ensures reclaimed == (index in old(slots) && Stale(old(slots)[index], live))
    {
      if index !in slots {
        return false;
      }
      var e := slots[index];
      if !e.Record? {
        return false;
      }
      if e.managerPid in live {
        return false;
      }
      if e.childPid.Some? && e.childPid.value in live {
        return false;
      }
      slots := slots - {index};
      return true;
    }
  }

  class SlotHolder {
    const pid: nat
    const maxLiveTotal: nat
    const directory: AdmissionDirectory
    var hostAdmissionSlots: map<string, nat>

    constructor (pid: nat, maxLiveTotal: nat, directory: AdmissionDirectory)
      ensures this.pid == pid && this.maxLiveTotal == maxLiveTotal && this.directory == directory
      ensures hostAdmissionSlots == map[]
    {
      this.pid, this.maxLiveTotal, this.directory := pid, maxLiveTotal, directory;
      hostAdmissionSlots := map[];
    }

    /** Claims the lowest claimable slot; refuses exactly when there is none. */
    method ClaimSlot(processId: string, live: set<nat>) returns (admitted: bool)
      modifies this, directory
      ensures admitted <==> exists i :: 0 <= i < maxLiveTotal && Claimable(old(directory.slots), live, i)
      ensures admitted ==>
                && processId in hostAdmissionSlots
                && var index := hostAdmissionSlots[processId];
                   && index < maxLiveTotal && Claimable(old(directory.slots), live, index)
                   && (forall i :: 0 <= i < index ==> !Claimable(old(directory.slots), live, i))
                   && directory.slots == old(directory.slots)[index := Record(processId, pid, None)]
                   && hostAdmissionSlots == old(hostAdmissionSlots)[processId := index]
      ensures !admitted ==> directory.slots == old(directory.slots) && hostAdmissionSlots == old(hostAdmissionSlots)
    {
      var record := Record(processId, pid, None);
      var index := 0;
      while index < maxLiveTotal
        invariant 0 <= index <= maxLiveTotal
        invariant directory.slots == old(directory.slots) && hostAdmissionSlots == old(hostAdmissionSlots)
        invariant forall i :: 0 <= i < index ==> !Claimable(directory.slots, live, i)
      {
        var attempt := 0;
        while attempt < 2
          invariant attempt == 0 || attempt == 1 || attempt == 2
          invariant hostAdmissionSlots == old(hostAdmissionSlots)
          invariant attempt == 0 ==> directory.slots == old(directory.slots)
          invariant attempt == 1 ==> Claimable(old(directory.slots), live, index) && directory.slots == old(directory.slots) - {index}
          invariant attempt == 2 ==> directory.slots == old(directory.slots) && !Claimable(directory.slots, live, index)
          decreases 2 - attempt
        {
          var created := directory.CreateExclusive(index, record);
          if created {
            assert Claimable(old(directory.slots), live, index);
            hostAdmissionSlots := hostAdmissionSlots[processId := index];
            return true;
          }
          var reclaimed := false;
          if attempt == 0 {
            reclaimed := directory.TryReclaimStale(index, live);
          }
          attempt := if reclaimed then 1 else 2;
        }
        index := index + 1;
      }
      return false;
    }

    method UpdateChildPid(processId: string, childPid: nat)
      modifies directory
      ensures directory.slots.Keys == old(directory.slots).Keys
      ensures forall i :: i in directory.slots ==>
                directory.slots[i] == if processId in hostAdmissionSlots && i == hostAdmissionSlots[processId] && Owns(old(directory.slots), i, pid, processId)
                                      then Record(processId, pid, Some(childPid)) else old(directory.slots)[i]
      ensures directory.slots ==
              if processId in hostAdmissionSlots
              then ChildRecorded(old(directory.slots), hostAdmissionSlots[processId], pid, processId, childPid)
              else old(directory.slots)
    {
      if processId !in hostAdmissionSlots {
        return;
      }
      var index := hostAdmissionSlots[processId];
      if index !in directory.slots || !directory.slots[index].Record?
         || directory.slots[index].processId != processId || directory.slots[index].managerPid != pid {
        return;
      }
      directory.slots := directory.slots[index := directory.slots[index].(childPid := Some(childPid))];
    }

    /** Forgets the process's slot and, if it is still this process's, removes its file. */
    method ReleaseSlot(processId: string)
      modifies this, directory
      ensures hostAdmissionSlots == old(hostAdmissionSlots) - {processId}
      ensures processId in old(hostAdmissionSlots) ==>
                var index := old(hostAdmissionSlots)[processId];
                (index in directory.slots <==> index in old(directory.slots) && !Owns(old(directory.slots), index, pid, processId))
      ensures forall i :: !(processId in old(hostAdmissionSlots) && i == old(hostAdmissionSlots)[processId]) || i in directory.slots ==>
                (i in directory.slots <==> i in old(directory.slots)) && (i in directory.slots ==> directory.slots[i] == old(directory.slots)[i])
      ensures directory.slots ==
              if processId in old(hostAdmissionSlots)
              then Released(old(directory.slots), old(hostAdmissionSlots)[processId], pid, processId)
              else old(directory.slots)
    {
      if processId !in hostAdmissionSlots {
        return;
      }
      var index := hostAdmissionSlots[processId];
      hostAdmissionSlots := hostAdmissionSlots - {processId};
      if index !in directory.slots || !directory.slots[index].Record?
         || directory.slots[index].processId != processId || directory.slots[index].managerPid != pid {
        return;
      }
      directory.slots := directory.slots - {index};
    }
  }
}
