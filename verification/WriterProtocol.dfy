/**
 `_write_text_exclusive` and `_write_text_atomic` as concurrent protocols.  Any
 number of calls race on one target path.  Each call is a small machine over the
 file system: it creates a temporary file, writes it piece by piece, closes it,
 then publishes it by a hard link (exclusive) or a rename (atomic), and cleans up.
 A file name refers to an inode, so that the published file and the temporary file
 are the same data until the name is removed.
 */
module WriterProtocol {
  import opened Common

  type WriterId = nat

  datatype Mode = Exclusive | Atomic

  datatype Call = Call(mode: Mode, content: string)

  datatype Outcome =
    | Written
    | Duplicate       // DuplicateWriteError
    | CreateFault     // the directory could not be made or looked at, or the temporary file not created
    | WriteFault      // the temporary file could not be written
    | PublishFault    // link or rename failed for another reason
    | CleanupFault(published: bool)  // the temporary name could not be removed

  /** Program counter of a call. */
  datatype Pc =
    | Start
    | Checked                  // the target did not exist, or was not looked at
    | Writing(done: nat)       // this much of the content is in the temporary file
    | Closed
    | Cleanup(result: Outcome) // the `finally` block
    | Done(result: Outcome)
    | Crashed(after: Pc)

  /** An inode: the file that was there before, or the temporary file of one call. */
  datatype Inode = Before | TempOf(w: WriterId)

  datatype Fs = Fs(
    target: Option<Inode>,       // what the target name refers to
    temps: set<WriterId>,        // calls whose temporary name exists
    data: map<Inode, string>,    // contents of the inodes
    pc: map<WriterId, Pc>)

  /** What the scheduler lets a call do: go on (writing up to `upTo`), meet an error, or crash. */
  datatype Choice = Proceed(upTo: nat) | Fault | Crash

  datatype Event = Event(w: WriterId, choice: Choice)

  type Calls = map<WriterId, Call>

  function SetPc(s: Fs, w: WriterId, pc: Pc): Fs {
    s.(pc := s.pc[w := pc])
  }

  /** `os.link` of the closed temporary file, or its rename onto the target. */
  function Publish(s: Fs, w: WriterId, mode: Mode): Fs {
    match mode
    case Exclusive =>
      if s.target.Some? then SetPc(s, w, Cleanup(Duplicate))
      else SetPc(s.(target := Some(TempOf(w))), w, Cleanup(Written))
    case Atomic =>
      SetPc(s.(target := Some(TempOf(w)), temps := s.temps - {w}), w, Cleanup(Written))
  }

  function GoOn(s: Fs, w: WriterId, call: Call, upTo: nat): Fs
    requires w in s.pc
  {
    match s.pc[w]
    case Start =>
      if call.mode == Exclusive && s.target.Some? then SetPc(s, w, Done(Duplicate)) else SetPc(s, w, Checked)
    case Checked =>
      SetPc(s.(temps := s.temps + {w}, data := s.data[TempOf(w) := ""]), w, Writing(0))
    case Writing(done) =>
      if done == |call.content| then SetPc(s, w, Closed)
      else
        var next := if done < upTo <= |call.content| then upTo else |call.content|;
        SetPc(s.(data := s.data[TempOf(w) := call.content[..next]]), w, Writing(next))
    case Closed => Publish(s, w, call.mode)
    case Cleanup(result) => SetPc(s.(temps := s.temps - {w}), w, Done(result))
    case Done(_) => s
    case Crashed(_) => s
  }

  /**
   An operating-system error.  While writing it leaves the function before the
   `try`; in the `finally` block it replaces whatever the call was about to return.
   There the name is removed only if it still exists, so an error needs it to.
   */
  function Fail(s: Fs, w: WriterId): Fs
    requires w in s.pc
  {
    match s.pc[w]
    case Start => SetPc(s, w, Done(CreateFault))
    case Checked => SetPc(s, w, Done(CreateFault))
    case Writing(_) => SetPc(s, w, Done(WriteFault))
    case Closed => SetPc(s, w, Cleanup(PublishFault))
    case Cleanup(result) => if w in s.temps then SetPc(s, w, Done(CleanupFault(InPlace(result)))) else s
    case _ => s
  }

  function Step(calls: Calls, s: Fs, e: Event): Fs {
    if e.w !in calls || e.w !in s.pc then s
    else match e.choice
      case Proceed(upTo) => GoOn(s, e.w, calls[e.w], upTo)
      case Fault => Fail(s, e.w)
      case Crash => if s.pc[e.w].Done? || s.pc[e.w].Crashed? then s else SetPc(s, e.w, Crashed(s.pc[e.w]))
  }

  function Run(calls: Calls, s: Fs, es: seq<Event>): Fs
    decreases |es|
  {
    if |es| == 0 then s else Run(calls, Step(calls, s, es[0]), es[1..])
  }

  /** Nobody has started; the target may hold an earlier file. */
  function Initial(calls: Calls, before: Option<string>): Fs {
    Fs(
      if before.Some? then Some(Before) else None,
      {},
      if before.Some? then map[Before := before.value] else map[],
      map w | w in calls :: Start)
  }

  // ---- Invariant -----------------------------------------------------------

  /** The result of a call whose file is in place. */
  predicate InPlace(r: Outcome) { r == Written || (r.CleanupFault? && r.published) }

  /** The call has published its file. */
  predicate Published(pc: Pc) {
    match pc
    case Cleanup(r) => InPlace(r)
    case Done(r) => InPlace(r)
    case Crashed(after) => after.Cleanup? && InPlace(after.result)
    case _ => false
  }

  /** The call has come past the existence check and was told of an existing file. */
  predicate SawDuplicate(pc: Pc) {
    match pc
    case Cleanup(r) => r == Duplicate
    case Done(r) => r == Duplicate
    case Crashed(after) => after.Cleanup? && after.result == Duplicate
    case _ => false
  }

  /** The results with which a call leaves its temporary file behind. */
  predicate LeftBehind(r: Outcome) { r == WriteFault || r.CleanupFault? }

  /** What is on disk for one call, as far as it has come. */
  ghost predicate OwnFile(calls: Calls, s: Fs, w: WriterId)
    requires w in calls && w in s.pc
  {
    var text := calls[w].content;
    var own := TempOf(w);
    && (match s.pc[w]
        case Start => w !in s.temps
        case Checked => w !in s.temps
        case Writing(done) => done <= |text| && w in s.temps && own in s.data && s.data[own] == text[..done]
        case Closed => w in s.temps && own in s.data && s.data[own] == text
        case Cleanup(r) =>
          && own in s.data && s.data[own] == text && r in {Written, Duplicate, PublishFault}
          && (w in s.temps <==> !(calls[w].mode == Atomic && r == Written))
        case Done(r) => w in s.temps <==> LeftBehind(r)
        case Crashed(after) => !after.Done? && !after.Crashed?)
    && (Published(s.pc[w]) ==> own in s.data && s.data[own] == text)
  }

  /** What the target name refers to: the earlier file, or the file of a call that published it. */
  ghost predicate TargetSound(calls: Calls, s: Fs, before: Option<string>) {
    TargetFree(s, before) && TargetHeld(calls, s, before)
  }

  ghost predicate TargetFree(s: Fs, before: Option<string>) {
    s.target.None? ==> before.None? && forall w :: w in s.pc ==> !Published(s.pc[w]) && !SawDuplicate(s.pc[w])
  }

  ghost predicate TargetHeld(calls: Calls, s: Fs, before: Option<string>) {
    && (s.target == Some(Before) ==> before.Some?)
    && (before.Some? ==> Before in s.data && s.data[Before] == before.value)
    && (s.target.Some? && s.target.value.TempOf? ==>
          s.target.value.w in calls && s.target.value.w in s.pc && Published(s.pc[s.target.value.w]))
  }

  ghost predicate Inv(calls: Calls, s: Fs, before: Option<string>) {
    && s.pc.Keys == calls.Keys
    && (forall w :: w in calls ==> OwnFile(calls, s, w))
    && TargetSound(calls, s, before)
  }

  ghost predicate OnlyExclusive(calls: Calls) {
    forall w :: w in calls ==> calls[w].mode == Exclusive
  }

  /** With exclusive calls only, a call that published owns the target, and an earlier file stays. */
  ghost predicate OwnerSound(calls: Calls, s: Fs, before: Option<string>) {
    && (before.Some? ==> s.target == Some(Before))
    && forall w :: w in s.pc && Published(s.pc[w]) ==> s.target == Some(TempOf(w))
  }

  /** A step touches only its own call's counter, temporary name and data. */
  lemma {:induction false} StepIsLocal(calls: Calls, s: Fs, e: Event, w: WriterId)
    requires w != e.w
    ensures var s' := Step(calls, s, e);
            && (w in s'.pc <==> w in s.pc) && (w in s.pc ==> s'.pc[w] == s.pc[w])
            && (w in s'.temps <==> w in s.temps)
            && (TempOf(w) in s'.data <==> TempOf(w) in s.data)
            && (TempOf(w) in s.data ==> s'.data[TempOf(w)] == s.data[TempOf(w)])
  {
  }

  lemma {:induction false} StepKeepsOwnFile(calls: Calls, s: Fs, e: Event)
    requires e.w in calls && e.w in s.pc && OwnFile(calls, s, e.w)
    ensures e.w in Step(calls, s, e).pc && OwnFile(calls, Step(calls, s, e), e.w)
  {
  }

  lemma {:induction false} StepKeepsFree(calls: Calls, s: Fs, e: Event, before: Option<string>)
    requires TargetFree(s, before)
    ensures TargetFree(Step(calls, s, e), before)
  {
  }

  lemma {:induction false} StepKeepsHeld(calls: Calls, s: Fs, e: Event, before: Option<string>)
    requires TargetHeld(calls, s, before)
    ensures TargetHeld(calls, Step(calls, s, e), before)
  {
  }

  lemma {:induction false} StepKeepsKeys(calls: Calls, s: Fs, e: Event)
    requires s.pc.Keys == calls.Keys
    ensures Step(calls, s, e).pc.Keys == calls.Keys
  {
  }

  lemma {:induction false} StepKeepsInv(calls: Calls, s: Fs, e: Event, before: Option<string>)
    requires Inv(calls, s, before)
    ensures Inv(calls, Step(calls, s, e), before)
  {
    StepKeepsKeys(calls, s, e);
    StepKeepsFree(calls, s, e, before);
    StepKeepsHeld(calls, s, e, before);
    forall w | w in calls
      ensures OwnFile(calls, Step(calls, s, e), w)
    {
      if w == e.w {
        StepKeepsOwnFile(calls, s, e);
      } else {
        StepIsLocal(calls, s, e, w);
      }
    }
  }

  lemma {:induction false} StepKeepsOwner(calls: Calls, s: Fs, e: Event, before: Option<string>)
    requires Inv(calls, s, before) && OnlyExclusive(calls) && OwnerSound(calls, s, before)
    ensures OwnerSound(calls, Step(calls, s, e), before)
    ensures s.target.Some? ==> Step(calls, s, e).target == s.target
  {
  }

  /** Data that the target has ever referred to does not change any more. */
  lemma {:induction false} StepKeepsPublished(calls: Calls, s: Fs, e: Event, before: Option<string>, o: Inode)
    requires Inv(calls, s, before)
    requires o == Before || (o.w in s.pc && Published(s.pc[o.w]))
    requires o in s.data
    ensures var s' := Step(calls, s, e);
            && o in s'.data && s'.data[o] == s.data[o]
            && (o == Before || (o.w in s'.pc && Published(s'.pc[o.w])))
  {
  }

  lemma {:induction false} RunKeepsInv(calls: Calls, s: Fs, es: seq<Event>, before: Option<string>)
    requires Inv(calls, s, before)
    ensures Inv(calls, Run(calls, s, es), before)
    decreases |es|
  {
    if |es| > 0 {
      StepKeepsInv(calls, s, es[0], before);
      RunKeepsInv(calls, Step(calls, s, es[0]), es[1..], before);
    }
  }

  lemma {:induction false} RunKeepsOwner(calls: Calls, s: Fs, es: seq<Event>, before: Option<string>)
    requires Inv(calls, s, before) && OnlyExclusive(calls) && OwnerSound(calls, s, before)
    ensures OwnerSound(calls, Run(calls, s, es), before)
    ensures s.target.Some? ==> Run(calls, s, es).target == s.target
    decreases |es|
  {
    if |es| > 0 {
      StepKeepsInv(calls, s, es[0], before);
      StepKeepsOwner(calls, s, es[0], before);
      RunKeepsOwner(calls, Step(calls, s, es[0]), es[1..], before);
    }
  }

  lemma {:induction false} RunKeepsPublished(calls: Calls, s: Fs, es: seq<Event>, before: Option<string>, o: Inode)
    requires Inv(calls, s, before)
    requires o == Before || (o.w in s.pc && Published(s.pc[o.w]))
    requires o in s.data
    ensures var s' := Run(calls, s, es); o in s'.data && s'.data[o] == s.data[o]
    decreases |es|
  {
    if |es| > 0 {
      StepKeepsInv(calls, s, es[0], before);
      StepKeepsPublished(calls, s, es[0], before, o);
      RunKeepsPublished(calls, Step(calls, s, es[0]), es[1..], before, o);
    }
  }

  // ---- Results -------------------------------------------------------------

  ghost predicate Reachable(calls: Calls, before: Option<string>, s: Fs) {
    exists es: seq<Event> :: s == Run(calls, Initial(calls, before), es)
  }

  lemma {:induction false} ReachableSound(calls: Calls, before: Option<string>, s: Fs)
    requires Reachable(calls, before, s)
    ensures Inv(calls, s, before)
    ensures OnlyExclusive(calls) ==> OwnerSound(calls, s, before)
  {
    var es: seq<Event> :| s == Run(calls, Initial(calls, before), es);
    RunKeepsInv(calls, Initial(calls, before), es, before);
    if OnlyExclusive(calls) {
      RunKeepsOwner(calls, Initial(calls, before), es, before);
    }
  }

  /** The content a complete read of this inode must give. */
  function WholeContent(calls: Calls, before: Option<string>, o: Inode): Option<string> {
    match o
    case Before => before
    case TempOf(w) => if w in calls then Some(calls[w].content) else None
  }

  /**
   Every read is whole: whatever mixture of calls is under way, the target name
   refers to the complete content of one call (or of the earlier file), and a reader
   that has opened it sees that content however long it takes.
   */
  lemma {:induction false} ReadsAreWhole(calls: Calls, before: Option<string>, s: Fs, es: seq<Event>)
    requires Reachable(calls, before, s) && s.target.Some?
    ensures var o := s.target.value;
            && o in Run(calls, s, es).data
            && Some(Run(calls, s, es).data[o]) == WholeContent(calls, before, o)
  {
    ReachableSound(calls, before, s);
    var o := s.target.value;
    if o.TempOf? {
      assert OwnFile(calls, s, o.w);
    }
    RunKeepsPublished(calls, s, es, before, o);
  }

  /**
   At most one exclusive call puts its file in place, and none when the file was
   already there; a call that succeeds has, and so has one that only failed to clean up.
   */
  lemma {:induction false} AtMostOneWins(calls: Calls, before: Option<string>, s: Fs, v: WriterId, w: WriterId)
    requires Reachable(calls, before, s) && OnlyExclusive(calls)
    requires v in s.pc && s.pc[v].Done? && InPlace(s.pc[v].result)
    ensures before.None?
    ensures w in s.pc && s.pc[w].Done? && InPlace(s.pc[w].result) ==> v == w
  {
    ReachableSound(calls, before, s);
  }

  /** The winner's content is the file's content from then on, for every later state. */
  lemma {:induction false} WinnerStays(
    calls: Calls, before: Option<string>, s: Fs, w: WriterId, es: seq<Event>)
    requires Reachable(calls, before, s) && OnlyExclusive(calls)
    requires w in calls && w in s.pc && s.pc[w].Done? && InPlace(s.pc[w].result)
    ensures var later := Run(calls, s, es);
            && later.target == Some(TempOf(w))
            && TempOf(w) in later.data && later.data[TempOf(w)] == calls[w].content
  {
    ReachableSound(calls, before, s);
    RunKeepsOwner(calls, s, es, before);
    ReadsAreWhole(calls, before, s, es);
  }

  /** An earlier file is never touched by exclusive calls. */
  lemma {:induction false} EarlierFileStays(calls: Calls, before: Option<string>, s: Fs)
    requires Reachable(calls, before, s) && OnlyExclusive(calls) && before.Some?
    ensures s.target == Some(Before) && Before in s.data && s.data[Before] == before.value
  {
    ReachableSound(calls, before, s);
  }

  /**
   When all exclusive calls have returned without crash or system error on a path
   that was free, exactly one succeeded and all others raised DuplicateWriteError.
   */
  lemma {:induction false} ExactlyOneWins(calls: Calls, s: Fs) returns (winner: WriterId)
    requires Reachable(calls, None, s) && OnlyExclusive(calls) && |calls| > 0
    requires forall w :: w in s.pc ==> s.pc[w] in {Done(Written), Done(Duplicate)}
    ensures winner in calls && s.pc.Keys == calls.Keys
    ensures forall w :: w in calls ==> (s.pc[w] == Done(Written) <==> w == winner)
    ensures forall w :: w in calls && w != winner ==> s.pc[w] == Done(Duplicate)
  {
    ReachableSound(calls, None, s);
    var some :| some in calls.Keys;
    assert s.pc[some] in {Done(Written), Done(Duplicate)};
    winner := s.target.value.w;
    forall w | w in calls && s.pc[w] == Done(Written)
      ensures w == winner
    {
      assert Published(s.pc[w]);
    }
  }

  /** Where an error leaves the temporary file: while it is written, and in `finally` if its name is still there. */
  predicate AtRisk(pc: Pc, mode: Mode) {
    pc.Writing? || (pc.Cleanup? && !(mode == Atomic && pc.result == Written))
  }

  /** The schedule has an error strike the call at such a point. */
  predicate Struck(calls: Calls, s: Fs, es: seq<Event>, w: WriterId)
    requires w in calls
    decreases |es|
  {
    |es| > 0 && (
      || (es[0] == Event(w, Fault) && w in s.pc && AtRisk(s.pc[w], calls[w].mode))
      || Struck(calls, Step(calls, s, es[0]), es[1..], w))
  }

  lemma {:induction false} StepStrikes(calls: Calls, s: Fs, e: Event, w: WriterId)
    requires w in calls && w in s.pc && OwnFile(calls, s, w)
    ensures var s' := Step(calls, s, e);
            && w in s'.pc
            && ((s'.pc[w].Done? && LeftBehind(s'.pc[w].result)) <==>
                  || (s.pc[w].Done? && LeftBehind(s.pc[w].result))
                  || (e == Event(w, Fault) && AtRisk(s.pc[w], calls[w].mode)))
  {
  }

  lemma {:induction false} RunStrikes(calls: Calls, s: Fs, es: seq<Event>, before: Option<string>, w: WriterId)
    requires w in calls && Inv(calls, s, before)
    ensures var s' := Run(calls, s, es);
            && w in s'.pc
            && ((s'.pc[w].Done? && LeftBehind(s'.pc[w].result)) <==>
                  (s.pc[w].Done? && LeftBehind(s.pc[w].result)) || Struck(calls, s, es, w))
    decreases |es|
  {
    if |es| > 0 {
      StepStrikes(calls, s, es[0], w);
      StepKeepsInv(calls, s, es[0], before);
      RunStrikes(calls, Step(calls, s, es[0]), es[1..], before, w);
    }
  }

  /**
   Exactly which returned calls leave their temporary file behind: those that the
   schedule has a system error strike while they write that file, or while they are
   about to remove it.
   */
  lemma {:induction false} TempsCleanedUp(calls: Calls, before: Option<string>, es: seq<Event>, w: WriterId)
    requires w in calls
    ensures var s := Run(calls, Initial(calls, before), es);
            w in s.pc && (s.pc[w].Done? ==> (w in s.temps <==> Struck(calls, Initial(calls, before), es, w)))
  {
    var s := Run(calls, Initial(calls, before), es);
    RunKeepsInv(calls, Initial(calls, before), es, before);
    RunStrikes(calls, Initial(calls, before), es, before, w);
    assert OwnFile(calls, s, w);
  }

  /**
   The first kind of error can strike in both modes; and a call that is killed at
   that point, and so does not return, leaves its temporary file as well.
   */
  lemma {:induction false} WriteFaultLeavesTemp(mode: Mode, text: string, last: Choice)
    requires last in {Fault, Crash}
    ensures var calls: Calls := map[0 := Call(mode, text)];
            var s := Run(calls, Initial(calls, None), [Event(0, Proceed(0)), Event(0, Proceed(0)), Event(0, last)]);
            && s.pc == map[0 := if last == Fault then Done(WriteFault) else Crashed(Writing(0))]
            && 0 in s.temps && s.target.None?
  {
    var calls: Calls := map[0 := Call(mode, text)];
    var es := [Event(0, Proceed(0)), Event(0, Proceed(0)), Event(0, last)];
    var s0 := Initial(calls, None);
    var s1 := Step(calls, s0, es[0]);
    var s2 := Step(calls, s1, es[1]);
    var s3 := Step(calls, s2, es[2]);
    assert es[1..][0] == es[1] && es[1..][1..][0] == es[2] && es[1..][1..][1..] == [];
    assert Run(calls, s2, es[1..][1..]) == s3;
    assert Run(calls, s1, es[1..]) == s3;
    assert Run(calls, s0, es) == s3;
  }

  lemma {:induction false} RunCons(calls: Calls, s: Fs, e: Event, rest: seq<Event>)
    ensures Run(calls, s, [e] + rest) == Run(calls, Step(calls, s, e), rest)
  {
    assert ([e] + rest)[1..] == rest;
  }

  /** A single call that has written all of its content, and not closed the file yet. */
  function AllWritten(text: string): Fs {
    Fs(None, {0}, map[TempOf(0) := text], map[0 := Writing(|text|)])
  }

  lemma {:induction false} WritesAll(calls: Calls, text: string) returns (es: seq<Event>)
    requires calls == map[0 := Call(Exclusive, text)]
    ensures Run(calls, Initial(calls, None), es) == AllWritten(text)
  {
    var go := Event(0, Proceed(|text|));
    var s0 := Initial(calls, None);
    assert s0 == Fs(None, {}, map[], map[0 := Start]);
    var s1 := Step(calls, s0, go);
    var s2 := Step(calls, s1, go);
    assert s2 == Fs(None, {0}, map[TempOf(0) := ""], map[0 := Writing(0)]);
    var rest := if text == "" then [] else [go];
    if text != "" {
      assert text[..|text|] == text;
      assert [go] + [] == [go];
      RunCons(calls, s2, go, []);
    }
    es := [go] + ([go] + rest);
    RunCons(calls, s0, go, [go] + rest);
    RunCons(calls, s1, go, rest);
  }

  /**
   The second kind strikes an exclusive call even after it has put its file in
   place: the call raises, but its content is there to stay.
   */
  lemma {:induction false} CleanupFaultAfterPublishing(text: string)
    ensures var calls: Calls := map[0 := Call(Exclusive, text)];
            exists es: seq<Event> ::
              Run(calls, Initial(calls, None), es) ==
                Fs(Some(TempOf(0)), {0}, map[TempOf(0) := text], map[0 := Done(CleanupFault(true))])
  {
    var calls: Calls := map[0 := Call(Exclusive, text)];
    var go, fault := Event(0, Proceed(|text|)), Event(0, Fault);
    var es := WritesAll(calls, text);
    var s3 := AllWritten(text);
    var s4 := Step(calls, s3, go);
    var s5 := Step(calls, s4, go);
    RunCons(calls, s3, go, [go] + ([fault] + []));
    RunCons(calls, s4, go, [fault] + []);
    RunCons(calls, s5, fault, []);
    RunAppend(calls, Initial(calls, None), es, [go] + ([go] + ([fault] + [])));
  }

  lemma {:induction false} RunAppend(calls: Calls, s: Fs, es: seq<Event>, more: seq<Event>)
    ensures Run(calls, s, es + more) == Run(calls, Run(calls, s, es), more)
    decreases |es|
  {
    if |es| == 0 {
      assert es + more == more;
    } else {
      assert (es + more)[1..] == es[1..] + more;
      RunAppend(calls, Step(calls, s, es[0]), es[1..], more);
    }
  }
}
