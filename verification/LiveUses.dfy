/** What the liveness analysis counts, in terms of what running the code notices and sets. */
module LiveUses {
  import opened Common
  import opened Mir
  import opened Dce
  import opened DceUses
  import opened Liveness

  /**
   Counted as read are the locals that an assignment or call can notice, and those an assignment borrows; what an
   assertion or phi looks at is not.
   */
  lemma {:induction false} CountedIffNoticed(ins: Instruction, l: Local)
    ensures l in CountedUses(ins) <==> (ins.Assign? || ins.Call?) && (Notices(ins, l) || IsBorrow(ins, l))
  {
    hide InstrUses, Notices, RvalueUses, OperandsUse;
    UsedIffNoticed(ins, l);
    CountedAre(ins);
  }

  lemma {:induction false} CountedAre(ins: Instruction)
    ensures CountedUses(ins) == if ins.Assign? || ins.Call? then InstrUses(ins) else {}
  {
  }

  /** Counted as set is what an assignment or call sets, and not what a phi does. */
  lemma {:induction false} DefinedIffSet(ins: Instruction, l: Local)
    ensures l in CountedDef(ins) <==> Sets(ins, l) && !ins.Phi?
  {
  }

  /** Of terminators only a switch is looked at: a returned value is not counted. */
  lemma {:induction false} SwitchIffNoticed(term: Option<Terminator>, l: Local)
    ensures l in SwitchUses(term) <==> term.Some? && term.value.SwitchInt? && EndNotices(term, l)
  {
    hide EndNotices, OperandUses;
    EndUsedIffNoticed(term, l);
    SwitchesAre(term);
  }

  lemma {:induction false} SwitchesAre(term: Option<Terminator>)
    ensures SwitchUses(term) == if term.Some? && term.value.SwitchInt? then TermUses(term) else {}
  {
  }
}
