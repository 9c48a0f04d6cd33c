/**
 The one-pass check of a browser action round (`validateActionRound`) and what it
 means: every write is read back before the page is left, and no element
 reference is used after the page may have changed.
 */
module ActionRound {
  import opened Wrappers

  datatype Operation =
    | Navigate | SnapshotText | Screenshot | ReadTarget | SectionState | ControlInventory
    | Click | Activate | Press | VisualClick
    | OtherOperation

  datatype CommitMode = Save | Autosave | ReadOnly

  /** A target, key or label; the two regular expressions are taken as given answers. */
  datatype Name = Absent | Name(isEphemeralRef: bool, mentionsSave: bool)

  /** `admitted`: the step passes `validateGeneralBrowserAction` on its own. */
  datatype Step = Step(operation: Operation, write: bool, target: Name, key: Name, caption: Name, admitted: bool)

  /** `String(step.target ?? step.key ?? step.label ?? "")`. */
  function Caption(s: Step): Name {
    if s.target.Name? then s.target else if s.key.Name? then s.key else s.caption
  }

  predicate UsesEphemeralRef(s: Step) { s.target.Name? && s.target.isEphemeralRef }

  predicate Saves(s: Step) {
    && s.write && s.operation in {Click, Activate, Press, VisualClick}
    && Caption(s).Name? && Caption(s).mentionsSave
  }

  predicate ReadsBack(s: Step) {
    !s.write && s.operation in {ReadTarget, SectionState, ControlInventory, SnapshotText, Screenshot}
  }

  // ---- the declarative reading --------------------------------------------

  /** Nothing has invalidated the references since the last snapshot before step i. */
  ghost predicate RefsFresh(steps: seq<Step>, i: nat)
    requires i <= |steps|
  {
    forall k | 0 <= k < i && (steps[k].operation == Navigate || Saves(steps[k])) ::
      exists m | k < m < i :: steps[m].operation == SnapshotText
  }

  ghost predicate NoReadback(steps: seq<Step>, after: nat, before: nat)
    requires before <= |steps|
  {
    forall m | after < m < before :: !ReadsBack(steps[m])
  }

  ghost predicate StaysOnPage(steps: seq<Step>, after: nat, before: nat)
    requires before <= |steps|
  {
    forall m | after < m < before :: steps[m].operation != Navigate
  }

  /** A Save with no readback between it and step j. */
  ghost predicate SavedSinceReadback(steps: seq<Step>, j: nat)
    requires j <= |steps|
  {
    exists s: nat | s < j :: Saves(steps[s]) && NoReadback(steps, s, j)
  }

  /** Step j is a readback that ends a group: in `autosave` any does, otherwise the group has a Save. */
  ghost predicate Closes(mode: CommitMode, steps: seq<Step>, j: nat)
    requires j < |steps|
  {
    ReadsBack(steps[j]) && (mode == Autosave || SavedSinceReadback(steps, j))
  }

  ghost predicate NothingCloses(mode: CommitMode, steps: seq<Step>, after: nat, before: nat)
    requires before <= |steps|
  {
    forall j: nat | after < j < before :: !Closes(mode, steps, j)
  }

  /** The write at w is closed by a readback before any navigation. */
  ghost predicate Verified(mode: CommitMode, steps: seq<Step>, w: nat) {
    exists j: nat | w < j < |steps| :: Closes(mode, steps, j) && StaysOnPage(steps, w, j)
  }

  ghost predicate Sound(mode: CommitMode, steps: seq<Step>) {
    && (forall i | 0 <= i < |steps| :: steps[i].admitted)
    && (forall i | 0 <= i < |steps| && UsesEphemeralRef(steps[i]) :: RefsFresh(steps, i))
    && (forall w | 0 <= w < |steps| && steps[w].write :: Verified(mode, steps, w))
  }

  /** Some write before step i is not yet closed. */
  ghost predicate OpenWrite(mode: CommitMode, steps: seq<Step>, i: nat)
    requires i <= |steps|
  {
    exists w: nat | w < i :: steps[w].write && NothingCloses(mode, steps, w, i)
  }

  /** The step at which the round must be refused, going by its prefix alone. */
  ghost predicate FaultAt(mode: CommitMode, steps: seq<Step>, i: nat)
    requires i < |steps|
  {
    || !steps[i].admitted
    || (UsesEphemeralRef(steps[i]) && !RefsFresh(steps, i))
    || (steps[i].operation == Navigate && OpenWrite(mode, steps, i))
  }

  // ---- the scan ------------------------------------------------------------

  datatype Outcome =
    | Accepted
    | Denied(at: nat)
    | StaleRef(at: nat)
    | UnverifiedNavigation(at: nat)
    | MissingReadback
    | NotAtomic

  lemma ReadbackStep(mode: CommitMode, steps: seq<Step>, i: nat)
    requires i < |steps| && !steps[i].write
    ensures OpenWrite(mode, steps, i + 1) <==> OpenWrite(mode, steps, i) && !Closes(mode, steps, i)
    ensures SavedSinceReadback(steps, i + 1) <==> SavedSinceReadback(steps, i) && !ReadsBack(steps[i])
  {
    forall w: nat | w < i
      ensures NothingCloses(mode, steps, w, i + 1) <==>
        NothingCloses(mode, steps, w, i) && !Closes(mode, steps, i)
    {}
    forall s: nat | s < i
      ensures NoReadback(steps, s, i + 1) <==> NoReadback(steps, s, i) && !ReadsBack(steps[i])
    {}
  }

  lemma WriteStep(mode: CommitMode, steps: seq<Step>, i: nat)
    requires i < |steps| && steps[i].write
    ensures OpenWrite(mode, steps, i + 1)
    ensures SavedSinceReadback(steps, i + 1) <==> SavedSinceReadback(steps, i) || Saves(steps[i])
  {
    assert NothingCloses(mode, steps, i, i + 1) && NoReadback(steps, i, i + 1);
    forall s: nat | s < i ensures NoReadback(steps, s, i + 1) <==> NoReadback(steps, s, i) {}
  }

  lemma RefsStep(steps: seq<Step>, i: nat)
    requires i < |steps|
    ensures RefsFresh(steps, i + 1) <==>
      if steps[i].operation == Navigate || Saves(steps[i]) then false
      else steps[i].operation == SnapshotText || RefsFresh(steps, i)
  {
    if steps[i].operation == SnapshotText {
      forall k | 0 <= k < i + 1 && (steps[k].operation == Navigate || Saves(steps[k]))
        ensures exists m | k < m < i + 1 :: steps[m].operation == SnapshotText
      {
        assert k < i;
      }
    } else if RefsFresh(steps, i + 1) {
      forall k | 0 <= k < i && (steps[k].operation == Navigate || Saves(steps[k]))
        ensures exists m | k < m < i :: steps[m].operation == SnapshotText
      {
        var m :| k < m < i + 1 && steps[m].operation == SnapshotText;
        assert k < m < i;
      }
    }
  }

  /** Once a write is open across a navigation, nothing later verifies it. */
  lemma OpenAcrossNavigation(mode: CommitMode, steps: seq<Step>, i: nat)
    requires i < |steps| && steps[i].operation == Navigate && OpenWrite(mode, steps, i)
    ensures !Sound(mode, steps)
  {
    var w: nat :| w < i && steps[w].write && NothingCloses(mode, steps, w, i);
    forall j: nat | w < j < |steps| ensures !(Closes(mode, steps, j) && StaysOnPage(steps, w, j)) {
      assert !ReadsBack(steps[i]);
    }
    assert !Verified(mode, steps, w);
  }

  lemma OpenAtEnd(mode: CommitMode, steps: seq<Step>)
    requires OpenWrite(mode, steps, |steps|)
    ensures !Sound(mode, steps)
  {
    var w: nat :| w < |steps| && steps[w].write && NothingCloses(mode, steps, w, |steps|);
    assert !Verified(mode, steps, w);
  }

  ghost predicate LeavesNothingOpen(mode: CommitMode, steps: seq<Step>) {
    && (forall k: nat | k < |steps| && steps[k].operation == Navigate :: !OpenWrite(mode, steps, k))
    && !OpenWrite(mode, steps, |steps|)
  }

  lemma {:induction false} FirstClosing(mode: CommitMode, steps: seq<Step>, w: nat, i: nat) returns (j: nat)
    requires w < i <= |steps| && NothingCloses(mode, steps, w, i) && !NothingCloses(mode, steps, w, |steps|)
    ensures w < j < |steps| && Closes(mode, steps, j) && NothingCloses(mode, steps, w, j)
    decreases |steps| - i
  {
    if Closes(mode, steps, i) {
      j := i;
    } else {
      j := FirstClosing(mode, steps, w, i + 1);
    }
  }

  lemma ClosedInTime(mode: CommitMode, steps: seq<Step>, w: nat)
    requires w < |steps| && steps[w].write && LeavesNothingOpen(mode, steps)
    ensures Verified(mode, steps, w)
  {
    var j := FirstClosing(mode, steps, w, w + 1);
    forall m | w < m < j ensures steps[m].operation != Navigate {
      assert NothingCloses(mode, steps, w, m);
      assert OpenWrite(mode, steps, m);
    }
    assert StaysOnPage(steps, w, j);
  }

  ghost predicate Faultless(mode: CommitMode, steps: seq<Step>, i: nat)
    requires i <= |steps|
  {
    forall k: nat | k < i :: !FaultAt(mode, steps, k)
  }

  lemma FaultlessIsSound(mode: CommitMode, steps: seq<Step>)
    requires Faultless(mode, steps, |steps|)
    requires !OpenWrite(mode, steps, |steps|)
    ensures Sound(mode, steps)
  {
    forall i | 0 <= i < |steps| ensures steps[i].admitted && (UsesEphemeralRef(steps[i]) ==> RefsFresh(steps, i)) {
      assert !FaultAt(mode, steps, i);
    }
    assert LeavesNothingOpen(mode, steps) by {
      assert forall k: nat | k < |steps| && steps[k].operation == Navigate :: !FaultAt(mode, steps, k);
    }
    forall w | 0 <= w < |steps| && steps[w].write ensures Verified(mode, steps, w) {
      ClosedInTime(mode, steps, w);
    }
  }

  // ---- the program and its meaning -------------------------------------------

  datatype Flags = Flags(unverifiedWrite: bool, saveObserved: bool, refsFresh: bool)

  const START := Flags(false, false, true)

  /** The refusal a step meets, in the order of the program's checks. */
  function Refusal(f: Flags, step: Step, i: nat): Option<Outcome> {
    if !step.admitted then Some(Denied(i))
    else if UsesEphemeralRef(step) && !f.refsFresh then Some(StaleRef(i))
    else if step.operation == Navigate && f.unverifiedWrite then Some(UnverifiedNavigation(i))
    else None
  }

  function Advance(mode: CommitMode, f: Flags, step: Step): Flags {
    var stillFresh := step.operation == SnapshotText || (step.operation != Navigate && f.refsFresh);
    if step.write then Flags(true, f.saveObserved || Saves(step), stillFresh && !Saves(step))
    else if f.unverifiedWrite && ReadsBack(step) && (mode == Autosave || f.saveObserved)
      then Flags(false, false, stillFresh)
    else f.(refsFresh := stillFresh)
  }

  function Scan(mode: CommitMode, steps: seq<Step>): Result<Flags, Outcome> {
    if steps == [] then Ok(START)
    else
      var before, step := Scan(mode, steps[..|steps| - 1]), steps[|steps| - 1];
      if before.Err? then before
      else
        var refusal := Refusal(before.value, step, |steps| - 1);
        if refusal.Some? then Err(refusal.value) else Ok(Advance(mode, before.value, step))
  }

  predicate AnyWrite(steps: seq<Step>) { exists s <- steps :: s.write }

  /** `atomic` is the answer of the separate filter applied to rounds that contain a write. */
  function Verdict(mode: CommitMode, steps: seq<Step>, atomic: bool): Outcome {
    var r := Scan(mode, steps);
    if r.Err? then r.error
    else if r.value.unverifiedWrite then MissingReadback
    else if AnyWrite(steps) && !atomic then NotAtomic
    else Accepted
  }

  lemma {:induction false} RefusalSticks(mode: CommitMode, steps: seq<Step>, i: nat)
    requires i <= |steps| && Scan(mode, steps[..i]).Err?
    ensures Scan(mode, steps) == Scan(mode, steps[..i])
  {
    if i < |steps| {
      assert steps[..|steps| - 1][..i] == steps[..i];
      RefusalSticks(mode, steps[..|steps| - 1], i);
    } else {
      assert steps[..i] == steps;
    }
  }

  lemma ScanNext(mode: CommitMode, steps: seq<Step>, i: nat)
    requires i < |steps| && Scan(mode, steps[..i]).Ok?
    ensures var f := Scan(mode, steps[..i]).value;
      Scan(mode, steps[..i + 1]) == match Refusal(f, steps[i], i)
        case Some(refusal) => Err(refusal)
        case None => Ok(Advance(mode, f, steps[i]))
  {
    assert steps[..i + 1][..i] == steps[..i];
  }

  lemma AnyWriteNext(steps: seq<Step>, i: nat)
    requires i < |steps|
    ensures AnyWrite(steps[..i + 1]) <==> AnyWrite(steps[..i]) || steps[i].write
  {
    assert steps[..i + 1] == steps[..i] + [steps[i]];
    assert steps[i] in steps[..i + 1];
    assert forall s <- steps[..i] :: s in steps[..i + 1];
  }

  /** The loop of `validateActionRound`. */
  method Validate(mode: CommitMode, steps: seq<Step>, atomic: bool) returns (r: Outcome)
    ensures r == Verdict(mode, steps, atomic)
  {
    var unverifiedWrite, saveObserved, refsFresh := false, false, true;
    var anyWrite := false;
    for i := 0 to |steps|
      invariant Scan(mode, steps[..i]) == Ok(Flags(unverifiedWrite, saveObserved, refsFresh))
      invariant anyWrite == AnyWrite(steps[..i])
    {
      var step := steps[i];
      ScanNext(mode, steps, i);
      AnyWriteNext(steps, i);
      if !step.admitted {
        RefusalSticks(mode, steps, i + 1);
        return Denied(i);
      }
      if UsesEphemeralRef(step) && !refsFresh {
        RefusalSticks(mode, steps, i + 1);
        return StaleRef(i);
      }
      if step.operation == Navigate && unverifiedWrite {
        RefusalSticks(mode, steps, i + 1);
        return UnverifiedNavigation(i);
      }
      if step.operation == Navigate {
        refsFresh := false;
      }
      if step.operation == SnapshotText {
        refsFresh := true;
      }
      if step.write {
        unverifiedWrite, anyWrite := true, true;
        if Saves(step) {
          saveObserved, refsFresh := true, false;
        }
      } else if unverifiedWrite && ReadsBack(step) && (mode == Autosave || saveObserved) {
        unverifiedWrite, saveObserved := false, false;
      }
    }
    assert steps[..|steps|] == steps;
    if unverifiedWrite {
      return MissingReadback;
    }
    if anyWrite && !atomic {
      return NotAtomic;
    }
    return Accepted;
  }

  /** The flags say what the declarative predicates say. */
  ghost predicate FlagsMean(mode: CommitMode, steps: seq<Step>, i: nat, f: Flags)
    requires i <= |steps|
  {
    && f.unverifiedWrite == OpenWrite(mode, steps, i)
    && f.saveObserved == SavedSinceReadback(steps, i)
    && f.refsFresh == RefsFresh(steps, i)
    && (f.saveObserved ==> f.unverifiedWrite)
  }

  lemma AdvanceMeans(mode: CommitMode, steps: seq<Step>, i: nat, f: Flags)
    requires i < |steps| && FlagsMean(mode, steps, i, f)
    ensures FlagsMean(mode, steps, i + 1, Advance(mode, f, steps[i]))
  {
    RefsStep(steps, i);
    if steps[i].write {
      WriteStep(mode, steps, i);
    } else {
      ReadbackStep(mode, steps, i);
    }
  }

  lemma RefusalMeans(mode: CommitMode, steps: seq<Step>, i: nat, f: Flags)
    requires i < |steps| && FlagsMean(mode, steps, i, f)
    ensures Refusal(f, steps[i], i).Some? <==> FaultAt(mode, steps, i)
  {}

  /** Where and why a round is refused in the middle: its first fault. */
  ghost predicate FirstFault(mode: CommitMode, steps: seq<Step>, r: Outcome) {
    && (r.Denied? || r.StaleRef? || r.UnverifiedNavigation?)
    && r.at < |steps| && FaultAt(mode, steps, r.at) && Faultless(mode, steps, r.at)
    && (r.Denied? ==> !steps[r.at].admitted)
    && (r.StaleRef? ==> UsesEphemeralRef(steps[r.at]) && !RefsFresh(steps, r.at))
    && (r.UnverifiedNavigation? ==> steps[r.at].operation == Navigate && OpenWrite(mode, steps, r.at))
  }

  lemma {:induction false} ScanMeaning(mode: CommitMode, steps: seq<Step>, i: nat)
    requires i <= |steps|
    ensures var r := Scan(mode, steps[..i]);
      && (r.Ok? ==> Faultless(mode, steps, i) && FlagsMean(mode, steps, i, r.value))
      && (r.Err? ==> FirstFault(mode, steps, r.error))
  {
    if i > 0 {
      ScanMeaning(mode, steps, i - 1);
      assert steps[..i][..i - 1] == steps[..i - 1];
      var before := Scan(mode, steps[..i - 1]);
      if before.Ok? {
        RefusalMeans(mode, steps, i - 1, before.value);
        AdvanceMeans(mode, steps, i - 1, before.value);
      }
    } else {
      assert FlagsMean(mode, steps, 0, START);
    }
  }

  /**
   The one-pass scan is the declarative specification: it accepts exactly the sound
   rounds (those with a write subject to the separate filter), and otherwise reports
   the first fault, or an open write at the end.
   */
  lemma VerdictMeaning(mode: CommitMode, steps: seq<Step>, atomic: bool)
    ensures var r := Verdict(mode, steps, atomic);
      && (r == Accepted <==> Sound(mode, steps) && (AnyWrite(steps) ==> atomic))
      && (r == NotAtomic <==> Sound(mode, steps) && AnyWrite(steps) && !atomic)
      && (r == MissingReadback <==> Faultless(mode, steps, |steps|) && OpenWrite(mode, steps, |steps|))
      && (r.Denied? || r.StaleRef? || r.UnverifiedNavigation? ==> FirstFault(mode, steps, r))
  {
    ScanMeaning(mode, steps, |steps|);
    assert steps[..|steps|] == steps;
    var r := Scan(mode, steps);
    if r.Err? {
      FaultyIsUnsound(mode, steps, r.error.at);
    } else if r.value.unverifiedWrite {
      OpenAtEnd(mode, steps);
    } else {
      FaultlessIsSound(mode, steps);
    }
  }

  lemma FaultyIsUnsound(mode: CommitMode, steps: seq<Step>, i: nat)
    requires i < |steps| && FaultAt(mode, steps, i)
    ensures !Sound(mode, steps)
  {
    if steps[i].operation == Navigate && OpenWrite(mode, steps, i) { OpenAcrossNavigation(mode, steps, i); }
  }

  /** Outside autosave, the readback that closes a write is the first one after a Save. */
  lemma ClosedGroupHasSave(mode: CommitMode, steps: seq<Step>, w: nat)
    requires mode != Autosave && w < |steps| && steps[w].write && Verified(mode, steps, w)
    ensures exists s: nat, j: nat | s < j && w < j < |steps| ::
      Saves(steps[s]) && ReadsBack(steps[j]) && NoReadback(steps, s, j) && StaysOnPage(steps, w, j)
  {
    var j: nat :| w < j < |steps| && Closes(mode, steps, j) && StaysOnPage(steps, w, j);
    var s: nat :| s < j && Saves(steps[s]) && NoReadback(steps, s, j);
  }

  // ---- rounds of three steps ---------------------------------------------------

  /** Running one step, if none was refused before. */
  function Then(mode: CommitMode, r: Result<Flags, Outcome>, step: Step, i: nat): Result<Flags, Outcome> {
    if r.Err? then r
    else
      var refusal := Refusal(r.value, step, i);
      if refusal.Some? then Err(refusal.value) else Ok(Advance(mode, r.value, step))
  }

  lemma ScanOfThree(mode: CommitMode, a: Step, b: Step, c: Step)
    ensures Scan(mode, [a, b]) == Then(mode, Then(mode, Ok(START), a, 0), b, 1)
    ensures Scan(mode, [a, b, c]) == Then(mode, Scan(mode, [a, b]), c, 2)
  {
    assert [a][..0] == [] && [a, b][..1] == [a] && [a, b, c][..2] == [a, b];
    assert Scan(mode, [a]) == Then(mode, Ok(START), a, 0);
  }

  /** A write that is neither a navigation nor a click. */
  predicate Fills(s: Step) { s.admitted && s.write && s.operation == OtherOperation }

  /** A clicking write on something that mentions "save": its target, else its key, else its label. */
  predicate ClicksSave(s: Step) {
    && s.admitted && s.write && (s.operation == Click || s.operation == Activate || s.operation == Press
                                 || s.operation == VisualClick)
    && match s.target
       case Name(_, save) => save
       case Absent =>
         match s.key
         case Name(_, save) => save
         case Absent => s.caption.Name? && s.caption.mentionsSave
  }

  predicate Reads(s: Step) {
    && s.admitted && !s.write
    && (s.operation == ReadTarget || s.operation == SectionState || s.operation == ControlInventory
        || s.operation == SnapshotText || s.operation == Screenshot)
  }

  predicate OnReference(s: Step) { match s.target case Name(ref, _) => ref case Absent => false }

  /** Fill, save, read back: accepted in every mode, unless the readback uses a reference from before the save. */
  lemma SavedAndRead(mode: CommitMode, fill: Step, save: Step, read: Step, atomic: bool)
    requires Fills(fill) && ClicksSave(save) && Reads(read)
    ensures Verdict(mode, [fill, save, read], atomic) ==
      if OnReference(read) then StaleRef(2) else if atomic then Accepted else NotAtomic
  {
    ScanOfThree(mode, fill, save, read);
    assert [fill, save, read][0] == fill;
    assert fill in [fill, save, read];
  }

  /** Fill and read back: in autosave that is enough; otherwise the readback that counts comes after a save. */
  lemma ReadWithoutSave(mode: CommitMode, fill: Step, read: Step, save: Step, atomic: bool)
    requires Fills(fill) && Reads(read) && ClicksSave(save)
    ensures Verdict(mode, [fill, read], true) == if mode == Autosave then Accepted else MissingReadback
    ensures Verdict(mode, [fill, read, save], atomic) == MissingReadback
  {
    ScanOfThree(mode, fill, read, save);
    assert [fill, read][0] == fill;
  }

  /** Leaving the page between the save and the readback is refused. */
  lemma LeavingBeforeReading(mode: CommitMode, fill: Step, save: Step, leave: Step, atomic: bool)
    requires Fills(fill) && ClicksSave(save) && leave.admitted && leave.operation == Navigate && !OnReference(leave)
    ensures Verdict(mode, [fill, save, leave], atomic) == UnverifiedNavigation(2)
  {
    ScanOfThree(mode, fill, save, leave);
  }

  /** References are usable again after a fresh snapshot, and not before. */
  lemma FreshSnapshotNeeded(mode: CommitMode, leave: Step, look: Step, use: Step, atomic: bool)
    requires leave.admitted && leave.operation == Navigate && !leave.write && !OnReference(leave)
    requires Reads(look) && !OnReference(look) && use.admitted && !use.write && OnReference(use)
    requires use.operation != Navigate
    ensures Verdict(mode, [leave, look, use], atomic) ==
      if look.operation == SnapshotText then Accepted else StaleRef(2)
  {
    ScanOfThree(mode, leave, look, use);
    assert [leave, look, use][0] == leave && [leave, look, use][1] == look && [leave, look, use][2] == use;
  }
}
