/**
 Concurrent `write_capability_package` and `update_manifest` calls for one name.
 Each of the nine files is raced for by the protocol of module WriterProtocol; a
 writer turns to the next file when its call for the one before has returned without
 an error.  Exclusive package writes never mix the files of two writers; updates can.
 */
module PackageRace {
  import opened Common
  import opened PackageStore
  import WP = WriterProtocol

  /** A package write or an update, and what it renders for each part. */
  datatype Writer = Writer(mode: WP.Mode, render: Part -> string)

  type Writers = map<WP.WriterId, Writer>

  ghost predicate OnlyExclusive(writers: Writers) {
    forall w :: w in writers ==> writers[w].mode == WP.Exclusive
  }

  function CallsFor(writers: Writers, k: nat): WP.Calls
    requires k < PART_COUNT
  {
    map w | w in writers :: WP.Call(writers[w].mode, writers[w].render(PartAt(k)))
  }

  /** The state of the race for each of the nine paths. */
  type World = s: seq<WP.Fs> | |s| == PART_COUNT witness seq(PART_COUNT, _ => WP.Fs(None, {}, map[], map[]))

  /** What was there before: the content of each path, if any. */
  type Earlier = s: seq<Option<string>> | |s| == PART_COUNT witness seq(PART_COUNT, _ => None)

  datatype Event = Event(part: nat, e: WP.Event)

  /** Writer w has come to part k. */
  predicate Arrived(s: World, k: nat, w: WP.WriterId)
    requires k < PART_COUNT
  {
    k == 0 || (w in s[k - 1].pc && s[k - 1].pc[w] == WP.Done(WP.Written))
  }

  function Step(writers: Writers, s: World, e: Event): World {
    if e.part < PART_COUNT && Arrived(s, e.part, e.e.w)
    then s[e.part := WP.Step(CallsFor(writers, e.part), s[e.part], e.e)]
    else s
  }

  function Run(writers: Writers, s: World, es: seq<Event>): World
    decreases |es|
  {
    if |es| == 0 then s else Run(writers, Step(writers, s, es[0]), es[1..])
  }

  function Initial(writers: Writers, before: Earlier): World {
    seq(PART_COUNT, k requires 0 <= k < PART_COUNT => WP.Initial(CallsFor(writers, k), before[k]))
  }

  /** What a reader finds under the name of part k. */
  function Content(s: World, k: nat): Option<string>
    requires k < PART_COUNT
  {
    if s[k].target.Some? && s[k].target.value in s[k].data then Some(s[k].data[s[k].target.value]) else None
  }

  // ---- Invariant -----------------------------------------------------------

  /** The race for each path is one that WriterProtocol reasons about. */
  ghost predicate PartSound(writers: Writers, s: World, before: Earlier, k: nat)
    requires k < PART_COUNT
  {
    WP.Inv(CallsFor(writers, k), s[k], before[k]) && WP.OwnerSound(CallsFor(writers, k), s[k], before[k])
  }

  /** Nobody has begun a part without having finished the one before. */
  ghost predicate InOrder(s: World, k: nat)
    requires k < PART_COUNT
  {
    forall w :: w in s[k].pc && s[k].pc[w] != WP.Start ==> Arrived(s, k, w)
  }

  ghost predicate Inv(writers: Writers, s: World, before: Earlier) {
    forall k: nat :: k < PART_COUNT ==> PartSound(writers, s, before, k) && InOrder(s, k)
  }

  /** A call that has returned stays as it is. */
  lemma {:induction false} ReturnedStays(calls: WP.Calls, s: WP.Fs, e: WP.Event, w: WP.WriterId)
    requires w in s.pc && s.pc[w].Done?
    ensures w in WP.Step(calls, s, e).pc && WP.Step(calls, s, e).pc[w] == s.pc[w]
  {
  }

  /** An event of another writer leaves a call where it is. */
  lemma {:induction false} OthersStay(calls: WP.Calls, s: WP.Fs, e: WP.Event, w: WP.WriterId)
    requires w != e.w && w in WP.Step(calls, s, e).pc
    ensures w in s.pc && WP.Step(calls, s, e).pc[w] == s.pc[w]
  {
  }

  lemma {:induction false} StepKeepsInv(writers: Writers, s: World, e: Event, before: Earlier)
    requires Inv(writers, s, before) && OnlyExclusive(writers)
    ensures Inv(writers, Step(writers, s, e), before)
  {
    var s' := Step(writers, s, e);
    if s' != s {
      var p := e.part;
      var calls := CallsFor(writers, p);
      assert PartSound(writers, s, before, p);
      WP.StepKeepsInv(calls, s[p], e.e, before[p]);
      WP.StepKeepsOwner(calls, s[p], e.e, before[p]);
      forall k: nat | k < PART_COUNT
        ensures PartSound(writers, s', before, k) && InOrder(s', k)
      {
        assert PartSound(writers, s, before, k) && InOrder(s, k);
        forall w | w in s'[k].pc && s'[k].pc[w] != WP.Start
          ensures Arrived(s', k, w)
        {
          if k == p && w != e.e.w {
            OthersStay(calls, s[p], e.e, w);
          }
          assert Arrived(s, k, w);
          if k == p + 1 {
            ReturnedStays(calls, s[p], e.e, w);
          }
        }
      }
    }
  }

  lemma {:induction false} RunKeepsInv(writers: Writers, s: World, es: seq<Event>, before: Earlier)
    requires Inv(writers, s, before) && OnlyExclusive(writers)
    ensures Inv(writers, Run(writers, s, es), before)
    decreases |es|
  {
    if |es| > 0 {
      StepKeepsInv(writers, s, es[0], before);
      RunKeepsInv(writers, Step(writers, s, es[0]), es[1..], before);
    }
  }

  lemma {:induction false} InitialInv(writers: Writers, before: Earlier)
    ensures Inv(writers, Initial(writers, before), before)
  {
  }

  /** Who has begun any part has written the first one. */
  lemma {:induction false} FirstPartWritten(writers: Writers, s: World, before: Earlier, k: nat, w: WP.WriterId)
    requires Inv(writers, s, before) && k < PART_COUNT
    requires w in s[k].pc && s[k].pc[w] != WP.Start
    ensures k > 0 ==> w in s[0].pc && s[0].pc[w] == WP.Done(WP.Written)
  {
    assert InOrder(s, k);
    if k > 1 {
      FirstPartWritten(writers, s, before, k - 1, w);
    }
  }

  /** The owner of a part put the first part in place. */
  lemma {:induction false} OwnerHasFirstPart(
    writers: Writers, s: World, before: Earlier, k: nat, w: WP.WriterId)
    requires Inv(writers, s, before) && k < PART_COUNT && s[k].target == Some(WP.TempOf(w))
    ensures s[0].target == Some(WP.TempOf(w))
    ensures w in writers && Content(s, k) == Some(writers[w].render(PartAt(k)))
  {
    assert PartSound(writers, s, before, k) && PartSound(writers, s, before, 0);
    assert WP.OwnFile(CallsFor(writers, k), s[k], w);
    FirstPartWritten(writers, s, before, k, w);
  }

  // ---- Results -------------------------------------------------------------

  /** Part k is missing, as it was before, or the given writer's. */
  ghost predicate BelongsTo(writers: Writers, s: World, before: Earlier, k: nat, owner: Option<WP.WriterId>)
    requires k < PART_COUNT
  {
    if before[k].Some? then Content(s, k) == before[k]
    else
      || Content(s, k).None?
      || (owner.Some? && owner.value in writers && Content(s, k) == Some(writers[owner.value].render(PartAt(k))))
  }

  /**
   However many package writes race, crash and meet errors, at every moment there is one
   writer such that each file of the package is missing, an earlier one, or
   wholly that writer's; and if the first file was there before, nobody writes any.
   */
  lemma {:induction false} NeverMixed(writers: Writers, before: Earlier, es: seq<Event>)
    returns (owner: Option<WP.WriterId>)
    requires OnlyExclusive(writers)
    ensures var s := Run(writers, Initial(writers, before), es);
            forall k: nat :: k < PART_COUNT ==> BelongsTo(writers, s, before, k, owner)
    ensures before[0].Some? ==> owner.None?
  {
    var s := Run(writers, Initial(writers, before), es);
    InitialInv(writers, before);
    RunKeepsInv(writers, Initial(writers, before), es, before);
    assert PartSound(writers, s, before, 0);
    owner := if s[0].target.Some? && s[0].target.value.TempOf? then Some(s[0].target.value.w) else None;
    forall k: nat | k < PART_COUNT
      ensures BelongsTo(writers, s, before, k, owner)
    {
      assert PartSound(writers, s, before, k);
      if s[k].target.Some? && s[k].target.value.TempOf? {
        OwnerHasFirstPart(writers, s, before, k, s[k].target.value.w);
      }
    }
  }

  /** A writer whose last call succeeded owns the whole package, and nobody else put the first file in place. */
  lemma {:induction false} CompleteForOne(
    writers: Writers, before: Earlier, es: seq<Event>, w: WP.WriterId, k: nat)
    requires OnlyExclusive(writers) && k < PART_COUNT
    requires var s := Run(writers, Initial(writers, before), es);
             w in s[PART_COUNT - 1].pc && s[PART_COUNT - 1].pc[w] == WP.Done(WP.Written)
    ensures var s := Run(writers, Initial(writers, before), es);
            && w in writers && Content(s, k) == Some(writers[w].render(PartAt(k)))
            && forall v :: v in s[0].pc && v != w ==> !WP.Published(s[0].pc[v])
  {
    var s := Run(writers, Initial(writers, before), es);
    InitialInv(writers, before);
    RunKeepsInv(writers, Initial(writers, before), es, before);
    WrittenBelow(writers, s, before, PART_COUNT - 1, w, k);
    WrittenBelow(writers, s, before, PART_COUNT - 1, w, 0);
    assert PartSound(writers, s, before, k) && PartSound(writers, s, before, 0);
    assert WP.Published(s[k].pc[w]) && WP.Published(s[0].pc[w]);
    OwnerHasFirstPart(writers, s, before, k, w);
  }

  lemma {:induction false} WrittenBelow(
    writers: Writers, s: World, before: Earlier, from: nat, w: WP.WriterId, k: nat)
    requires Inv(writers, s, before) && k <= from < PART_COUNT
    requires w in s[from].pc && s[from].pc[w] == WP.Done(WP.Written)
    ensures w in s[k].pc && s[k].pc[w] == WP.Done(WP.Written)
    decreases from
  {
    if k < from {
      assert InOrder(s, from);
      WrittenBelow(writers, s, before, from - 1, w, k);
    }
  }

  // ---- Updates -------------------------------------------------------------

  /** A writer's whole call for one file, undisturbed. */
  function WholeCall(k: nat, w: WP.WriterId, length: nat): seq<Event> {
    var go := Event(k, WP.Event(w, WP.Proceed(length)));
    [go, go, go, go, go, go]
  }

  lemma {:induction false} RunCons(writers: Writers, s: World, e: Event, rest: seq<Event>)
    ensures Run(writers, s, [e] + rest) == Run(writers, Step(writers, s, e), rest)
  {
    assert ([e] + rest)[1..] == rest;
  }

  lemma {:induction false} RunAppend(writers: Writers, s: World, es: seq<Event>, more: seq<Event>)
    ensures Run(writers, s, es + more) == Run(writers, Run(writers, s, es), more)
    decreases |es|
  {
    if |es| == 0 {
      assert es + more == more;
    } else {
      assert (es + more)[1..] == es[1..] + more;
      RunAppend(writers, Step(writers, s, es[0]), es[1..], more);
    }
  }

  /** An undisturbed atomic call replaces the file and changes nothing about other calls. */
  ghost predicate Replaced(calls: WP.Calls, s: WP.Fs, s': WP.Fs, w: WP.WriterId)
    requires w in calls
  {
    && s'.pc == s.pc[w := WP.Done(WP.Written)]
    && s'.target == Some(WP.TempOf(w))
    && WP.TempOf(w) in s'.data && s'.data[WP.TempOf(w)] == calls[w].content
  }

  lemma {:induction false} SixStepsReplace(calls: WP.Calls, s: WP.Fs, e: WP.Event)
    requires e.w in calls && calls[e.w].mode == WP.Atomic && calls[e.w].content != ""
    requires e.choice == WP.Proceed(|calls[e.w].content|)
    requires e.w in s.pc && s.pc[e.w] == WP.Start
    ensures var s3 := WP.Step(calls, WP.Step(calls, WP.Step(calls, s, e), e), e);
            Replaced(calls, s, WP.Step(calls, WP.Step(calls, WP.Step(calls, s3, e), e), e), e.w)
  {
    var n := |calls[e.w].content|;
    var s1 := WP.Step(calls, s, e);
    assert s1.pc[e.w] == WP.Checked;
    var s2 := WP.Step(calls, s1, e);
    assert s2.pc[e.w] == WP.Writing(0);
    var s3 := WP.Step(calls, s2, e);
    assert calls[e.w].content[..n] == calls[e.w].content;
    assert s3.pc[e.w] == WP.Writing(n);
    var s4 := WP.Step(calls, s3, e);
    assert s4.pc[e.w] == WP.Closed;
    var s5 := WP.Step(calls, s4, e);
    assert s5.pc[e.w] == WP.Cleanup(WP.Written);
    var s6 := WP.Step(calls, s5, e);
    assert s6.pc == s.pc[e.w := WP.Done(WP.Written)];
  }

  lemma {:induction false} WholeCallReplaces(writers: Writers, s: World, k: nat, w: WP.WriterId)
    requires k < PART_COUNT && w in writers && writers[w].mode == WP.Atomic
    requires writers[w].render(PartAt(k)) != ""
    requires Arrived(s, k, w) && w in s[k].pc && s[k].pc[w] == WP.Start
    ensures var s' := Run(writers, s, WholeCall(k, w, |writers[w].render(PartAt(k))|));
            && (forall j: nat :: j < PART_COUNT && j != k ==> s'[j] == s[j])
            && Replaced(CallsFor(writers, k), s[k], s'[k], w)
  {
    var calls := CallsFor(writers, k);
    var e := WP.Event(w, WP.Proceed(|writers[w].render(PartAt(k))|));
    var go := Event(k, e);
    SixStepsReplace(calls, s[k], e);
    var f1 := WP.Step(calls, s[k], e);
    var f2 := WP.Step(calls, f1, e);
    var f3 := WP.Step(calls, f2, e);
    var f4 := WP.Step(calls, f3, e);
    var f5 := WP.Step(calls, f4, e);
    var f6 := WP.Step(calls, f5, e);
    StepAt(writers, s, k, e, s[k], f1);
    StepAt(writers, s, k, e, f1, f2);
    StepAt(writers, s, k, e, f2, f3);
    StepAt(writers, s, k, e, f3, f4);
    StepAt(writers, s, k, e, f4, f5);
    StepAt(writers, s, k, e, f5, f6);
    assert s == s[k := s[k]];
    RunCons(writers, s, go, [go, go, go, go, go]);
    RunCons(writers, s[k := f1], go, [go, go, go, go]);
    RunCons(writers, s[k := f2], go, [go, go, go]);
    RunCons(writers, s[k := f3], go, [go, go]);
    RunCons(writers, s[k := f4], go, [go]);
    RunCons(writers, s[k := f5], go, []);
    assert WholeCall(k, w, |writers[w].render(PartAt(k))|) == [go] + [go, go, go, go, go];
    assert [go, go, go, go, go] == [go] + [go, go, go, go] && [go, go, go, go] == [go] + [go, go, go];
    assert [go, go, go] == [go] + [go, go] && [go, go] == [go] + [go] && [go] == [go] + [];
  }

  lemma {:induction false} StepAt(writers: Writers, s: World, k: nat, e: WP.Event, f: WP.Fs, f': WP.Fs)
    requires k < PART_COUNT && Arrived(s, k, e.w) && f' == WP.Step(CallsFor(writers, k), f, e)
    ensures Step(writers, s[k := f], Event(k, e)) == s[k := f']
  {
    assert s[k := f][k := f'] == s[k := f'];
  }

  /** Writer w can replace part k now. */
  ghost predicate Ready(writers: Writers, s: World, k: nat, w: WP.WriterId) {
    && k < PART_COUNT && w in writers && writers[w].mode == WP.Atomic
    && writers[w].render(PartAt(k)) != ""
    && Arrived(s, k, w) && w in s[k].pc && s[k].pc[w] == WP.Start
  }

  function CallOf(writers: Writers, k: nat, w: WP.WriterId): seq<Event>
    requires w in writers && k < PART_COUNT
  {
    WholeCall(k, w, |writers[w].render(PartAt(k))|)
  }

  /** One update after the other on the same file: both are done with it, and it is the later one's. */
  lemma {:induction false} LaterReplaces(writers: Writers, s: World, k: nat, v: WP.WriterId, w: WP.WriterId)
    requires Ready(writers, s, k, v) && Ready(writers, s, k, w) && v != w
    ensures var s' := Run(writers, s, CallOf(writers, k, v) + CallOf(writers, k, w));
            && (forall j: nat :: j < PART_COUNT && j != k ==> s'[j] == s[j])
            && Content(s', k) == Some(writers[w].render(PartAt(k)))
            && s'[k].pc == s[k].pc[v := WP.Done(WP.Written)][w := WP.Done(WP.Written)]
  {
    RunAppend(writers, s, CallOf(writers, k, v), CallOf(writers, k, w));
    WholeCallReplaces(writers, s, k, v);
    WholeCallReplaces(writers, Run(writers, s, CallOf(writers, k, v)), k, w);
  }

  lemma {:induction false} AllStart(writers: Writers, before: Earlier, k: nat, w: WP.WriterId)
    requires k < PART_COUNT && w in writers
    ensures w in Initial(writers, before)[k].pc && Initial(writers, before)[k].pc[w] == WP.Start
  {
  }

  /**
   Two updates can mix: from any earlier package, writer 1 replaces the first file and
   writer 2 the first and the second, then writer 1 the second.  Both are then done
   with both files, the first being writer 2's and the second writer 1's.
   */
  lemma {:induction false} UpdatesCanMix(writers: Writers, before: Earlier) returns (es: seq<Event>)
    requires 1 in writers && 2 in writers
    requires writers[1].mode == WP.Atomic && writers[2].mode == WP.Atomic
    requires forall k: nat, w :: k < PART_COUNT && w in writers ==> writers[w].render(PartAt(k)) != ""
    ensures var s := Run(writers, Initial(writers, before), es);
            && Content(s, 0) == Some(writers[2].render(PartAt(0)))
            && Content(s, 1) == Some(writers[1].render(PartAt(1)))
            && Arrived(s, 1, 1) && Arrived(s, 1, 2) && Arrived(s, 2, 1) && Arrived(s, 2, 2)
  {
    var s0 := Initial(writers, before);
    var first := CallOf(writers, 0, 1) + CallOf(writers, 0, 2);
    var second := CallOf(writers, 1, 2) + CallOf(writers, 1, 1);
    AllStart(writers, before, 0, 1);
    AllStart(writers, before, 0, 2);
    LaterReplaces(writers, s0, 0, 1, 2);
    var s1 := Run(writers, s0, first);
    assert Arrived(s1, 1, 1) && Arrived(s1, 1, 2);
    assert s1[1] == s0[1];
    AllStart(writers, before, 1, 1);
    AllStart(writers, before, 1, 2);
    MixSecond(writers, s1, second);
    es := first + second;
    RunAppend(writers, s0, first, second);
  }

  lemma {:induction false} MixSecond(writers: Writers, s: World, second: seq<Event>)
    requires Ready(writers, s, 1, 1) && Ready(writers, s, 1, 2)
    requires second == CallOf(writers, 1, 2) + CallOf(writers, 1, 1)
    ensures var s' := Run(writers, s, second);
            && s'[0] == s[0] && Content(s', 1) == Some(writers[1].render(PartAt(1)))
            && Arrived(s', 2, 1) && Arrived(s', 2, 2)
  {
    LaterReplaces(writers, s, 1, 2, 1);
  }
}
