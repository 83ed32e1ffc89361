/** The admission slot of the media runner: the four locked sections that change it. */
module SingleFlightSlot {
  import opened Options

  /** `owner` is the run that holds the slot. */
  datatype Slot = Slot(busy: bool, unhealthy: bool, owner: Option<nat>)

  datatype Admission = Admitted | BusyError | UnavailableError

  const FREE := Slot(false, false, None)

  function Admit(s: Slot): Admission {
    if s.unhealthy then UnavailableError else if s.busy then BusyError else Admitted
  }

  function Acquired(s: Slot, owner: nat): Slot {
    if Admit(s).Admitted? then s.(busy := true, owner := Some(owner)) else s
  }

  function Released(s: Slot, owner: nat): Slot {
    if s.owner == Some(owner) then s.(busy := false, owner := None) else s
  }

  function Retained(s: Slot, owner: nat): Slot {
    if s.owner == Some(owner) then s.(unhealthy := true) else s
  }

  function ReleasedTerminal(s: Slot, owner: nat): Slot {
    if s.owner == Some(owner) then FREE else s
  }

  /** A quarantined slot is held, and a held slot names its owner. */
  predicate Coherent(s: Slot) {
    (s.unhealthy ==> s.busy) && (s.busy <==> s.owner.Some?)
  }

  /** Whatever a delayed task of an old owner does to the slot, a newer owner (or a free
      slot) never notices. */
  lemma StaleOwnerChangesNothing(s: Slot, owner: nat)
    requires s.owner != Some(owner)
    ensures Released(s, owner) == Retained(s, owner) == ReleasedTerminal(s, owner) == s
  {
  }

  /** The plain release is only right for a healthy slot: on a quarantined one it would
      leave an unhealthy slot that nobody holds.  The terminal release never does. */
  lemma ReleaseKeepsCoherence(s: Slot, owner: nat)
    requires Coherent(s)
    ensures Coherent(ReleasedTerminal(s, owner)) && Coherent(Retained(s, owner)) && Coherent(Acquired(s, owner))
    ensures Coherent(Released(s, owner)) <==> !(s.owner == Some(owner) && s.unhealthy)
  {
  }

  /** The runner's fields. */
  class Runner {
    var busy: bool
    var unhealthy: bool
    var owner: Option<nat>

    ghost function View(): Slot
      reads this
    {
      Slot(busy, unhealthy, owner)
    }

    constructor ()
      ensures View() == FREE
    {
      busy, unhealthy, owner := false, false, None;
    }

    method Acquire(run: nat) returns (a: Admission)
      modifies this
      ensures a == Admit(old(View())) && View() == Acquired(old(View()), run)
      ensures !a.Admitted? ==> View() == old(View())
    {
      if unhealthy {
        return UnavailableError;
      }
      if busy {
        return BusyError;
      }
      busy := true;
      owner := Some(run);
      a := Admitted;
    }

    method Release(run: nat)
      modifies this
      ensures View() == Released(old(View()), run)
    {
      if owner == Some(run) {
        busy := false;
        owner := None;
      }
    }

    method RetainBusy(run: nat)
      modifies this
      ensures View() == Retained(old(View()), run)
    {
      if owner == Some(run) {
        unhealthy := true;
      }
    }

    method ReleaseTerminal(run: nat)
      modifies this
      ensures View() == ReleasedTerminal(old(View()), run)
    {
      if owner != Some(run) {
        return;
      }
      busy := false;
      owner := None;
      if unhealthy {
        unhealthy := false;
      }
    }
  }
}
