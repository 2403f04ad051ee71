/** What an existing environment directory says about itself, and what may be done with it. */
module Staging {
  import opened Wrappers

  /** The claim file as it was read. Garbled covers every reading that is not a claim this
      command wrote: another writer's file, an unreadable one, an undeclared state. */
  datatype Claim = NoClaim | Staged | Complete | Garbled

  /** Whether anybody holds the staging lock. Unknown is never read as nobody. */
  datatype Liveness = Live | Dead | Unknown

  datatype Decision = Reclaim | Adopt | Resume | Recorded | Occupied | Foreign | Keep | Settled

  /** `occupied` and `selected` carry None when their reading could not be made. */
  function Decide(claim: Claim, liveness: Liveness, occupied: Option<bool>,
                  inUse: bool, selected: Option<bool>): Decision
  {
    match claim
    case NoClaim =>
      if liveness == Live then Occupied
      else if liveness == Unknown || occupied == None then Keep
      else if occupied.value then
        if selected == Some(true) then Recorded else Foreign
      else if inUse then Keep else Adopt
    case Garbled => Keep
    case _ =>
      if liveness == Live then Occupied
      else if liveness == Unknown then Keep
      else if claim == Complete then
        if selected == Some(true) then Settled else Keep
      else if selected == Some(true) then Resume
      else if inUse then Keep else Reclaim
  }

  /** The conservative reading: in use unless both the record and the pointer answered no. */
  predicate Protected(recordSelects: Option<bool>, pointerNames: Option<bool>) {
    recordSelects != Some(false) || pointerNames != Some(false)
  }

  /** Exactly when a directory is removed: this command's own unfinished claim, an owner that is
      established gone, and two readings that both answered that nothing uses it. */
  lemma RemovalNeedsEveryReading(claim: Claim, liveness: Liveness, occupied: Option<bool>,
                                 recordSelects: Option<bool>, pointerNames: Option<bool>)
    ensures var decision := Decide(claim, liveness, occupied,
                                   Protected(recordSelects, pointerNames), recordSelects);
            && (decision == Reclaim <==>
                 && claim == Staged && liveness == Dead
                 && recordSelects == Some(false) && pointerNames == Some(false))
            && (decision == Adopt <==>
                 && claim == NoClaim && liveness == Dead && occupied == Some(false)
                 && recordSelects == Some(false) && pointerNames == Some(false))
            && (decision in {Resume, Recorded, Settled} ==>
                 liveness == Dead && recordSelects == Some(true))
  {
  }

  /** When each of the other answers is given: a held lock always refuses as occupied, unless what is there
      is a claim nobody could read; nothing is finished, adopted or reported but what a record that was read
      selects; files without a claim that nothing selects are somebody else's. */
  lemma EachAnswerExactlyWhen(claim: Claim, liveness: Liveness, occupied: Option<bool>,
                              recordSelects: Option<bool>, pointerNames: Option<bool>)
    ensures var decision := Decide(claim, liveness, occupied,
                                   Protected(recordSelects, pointerNames), recordSelects);
            && (decision == Occupied <==> claim != Garbled && liveness == Live)
            && (decision == Resume <==> claim == Staged && liveness == Dead && recordSelects == Some(true))
            && (decision == Settled <==> claim == Complete && liveness == Dead && recordSelects == Some(true))
            && (decision == Recorded <==>
                  && claim == NoClaim && liveness == Dead && occupied == Some(true) && recordSelects == Some(true))
            && (decision == Foreign <==>
                  && claim == NoClaim && liveness == Dead && occupied == Some(true) && recordSelects != Some(true))
            && (decision == Keep <==>
                  || claim == Garbled
                  || (liveness == Unknown)
                  || (liveness == Dead && claim == NoClaim && occupied == None)
                  || (liveness == Dead && claim == Complete && recordSelects != Some(true))
                  || (&& liveness == Dead && (claim == Staged || (claim == NoClaim && occupied == Some(false)))
                      && (recordSelects != Some(false) || pointerNames != Some(false))
                      && !(claim == Staged && recordSelects == Some(true))))
  {
  }
}
