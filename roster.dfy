/** The program's fixed roster of sprites and the space-key pose switch that
    acts on all of them at once. */
module Roster {
  import opened Sprites

  /** The pose a sprite switches to: idle becomes moving, and anything else
      (moving, or any other ordinal) becomes idle. */
  function TogglePose(p: int): (q: int)
    ensures q == IdlePose || q == MovePose
    ensures q == MovePose <==> p == IdlePose
  {
    if p == IdlePose then MovePose else IdlePose
  }

  /** Switching twice gives back the pose one started from, for the two
      poses the atlas has. */
  lemma ToggleTwice(p: int)
    requires p == IdlePose || p == MovePose
    ensures TogglePose(TogglePose(p)) == p
  {
  }

  /** The roster's entries are distinct sprites (it is an array of records). */
  predicate Distinct(roster: array<Sprite>)
    reads roster
  {
    forall i, j :: 0 <= i < j < roster.Length ==> roster[i] != roster[j]
  }

  /** One tick's handling of the pose key: when it was pressed, every sprite
      of the roster switches pose; no other field of any sprite, and no
      entry of the roster, changes. */
  method TogglePoses(roster: array<Sprite>, spacePressed: bool)
    requires Distinct(roster)
    modifies set i | 0 <= i < roster.Length :: roster[i]
    ensures forall i :: 0 <= i < roster.Length ==>
      roster[i].State() == old(roster[i].State()).(pose := roster[i].pose)
    ensures forall i :: 0 <= i < roster.Length ==>
      roster[i].pose == if spacePressed then TogglePose(old(roster[i].pose)) else old(roster[i].pose)
  {
    if spacePressed {
      for i := 0 to roster.Length
        invariant forall k :: 0 <= k < roster.Length ==>
          roster[k].State() == old(roster[k].State()).(pose := roster[k].pose)
        invariant forall k :: 0 <= k < i ==> roster[k].pose == TogglePose(old(roster[k].pose))
        invariant forall k :: i <= k < roster.Length ==> roster[k].pose == old(roster[k].pose)
      {
        var s := roster[i];
        if s.pose == IdlePose {
          s.pose := MovePose;
        } else {
          s.pose := IdlePose;
        }
      }
    }
  }

  /** Pressing the pose key on two ticks in a row brings every sprite whose
      pose was idle or moving back to exactly the state it started in. */
  method ToggleTwiceRestores(roster: array<Sprite>)
    requires Distinct(roster)
    requires forall i :: 0 <= i < roster.Length ==>
      roster[i].pose == IdlePose || roster[i].pose == MovePose
    modifies set i | 0 <= i < roster.Length :: roster[i]
    ensures forall i :: 0 <= i < roster.Length ==> roster[i].State() == old(roster[i].State())
  {
    TogglePoses(roster, true);
    TogglePoses(roster, true);
    forall i | 0 <= i < roster.Length
      ensures roster[i].State() == old(roster[i].State())
    {
      ToggleTwice(old(roster[i].pose));
    }
  }
}
