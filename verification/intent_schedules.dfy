/**
 * Schedules of the router's handlers: the one check that suffices while nothing interrupts a
 * validation, the schedules that fail it, and what is known of a schedule that came to rest.
 */
module IntentSchedules {
  import opened Wrappers
  import opened Sequences
  import opened Decimal
  import opened JsonTrees
  import opened ApiTrees
  import opened MapSums
  import opened SpendTable
  import opened PolicyRules
  import opened AuditTraces
  import opened IntentRouters
  import opened IntentStories
  import opened IntentTurns
  import opened IntentInterleavings
  import Calendar

  // ---- While nothing interrupts a validation: one check, on the row ----

  /** A resumed execution finds the intent's row released. */
  predicate OverReleased(l: Live, t: Turn) {
    t.Resume? && t.i < |l.waiting| && (l.waiting[t.i].Marking? || l.waiting[t.i].Confirming?)
    && ActionOf(l.waiting[t.i], t.answer, t.nowMs).Settles?
    && Has(EntryAt(l.server.table, l.waiting[t.i].id), Status.Released)
  }

  /** The pending writes are those of executions and rejections, and each row is as its writer left it. */
  predicate Plain(l: Live) {
    forall j :: 0 <= j < |l.waiting| && l.waiting[j].Finishing? ==> PlainTail(l.server.table, l.waiting[j])
  }

  predicate PlainTail(t: Table, w: Waiting)
    requires w.Finishing?
  {
    (w.tail.state.Executed? && Has(EntryAt(t, w.id), Status.Committed))
    || (w.tail.state.Rejected? && Has(EntryAt(t, w.id), Status.Released))
  }

  /** Then the general check is this one: no execution resumes over a released row. */
  lemma PlainChecks(c: Config, l: Live, t: Turn)
    requires Possible(c, l) && Plain(l)
    ensures Checks(l, t) <==> !OverReleased(l, t)
  {
    if t.Resume? && t.i < |l.waiting| {
      assert TailFits(l.server, l.waiting[t.i]);
      ActionFits(l.waiting[t.i], t.answer, t.nowMs);
      ActionStatus(l.waiting[t.i], t.answer, t.nowMs);
    }
    if t.Finish? && t.i < |l.waiting| && l.waiting[t.i].Finishing? {
      assert PlainTail(l.server.table, l.waiting[t.i]);
    }
    hide Possible, Plain, ActionOf, Pending;
    hide Calendar.DayUtc;
  }

  lemma ActionStatus(w: Waiting, answer: Answer, nowMs: int)
    ensures var a := ActionOf(w, answer, nowMs);
      a.Settles? ==> (a.status.Committed? <==> w.Marking? || w.Confirming?)
  {
    hide MarkAccepts, Field, Reason, MarkedPayload, ConfirmedPayload, RejectedPayload;
  }

  /** Rows once settled stay as they are, intents stay, and the trace only grows. */
  ghost predicate Lasts(s: Server, s': Server) {
    && s.intents.Keys <= s'.intents.Keys
    && (forall k :: k in s.table && !s.table[k].status.Reserved? ==> k in s'.table && s'.table[k] == s.table[k])
    && (forall row :: row in s.trace ==> row in s'.trace)
  }

  lemma SettleLasts(s: Server, id: string, status: Status)
    ensures Lasts(s, s.(table := SettleOpen(s.table, id, status)))
  {
  }

  lemma RecordLasts(s: Server, id: string, intent: Intent, nowMs: int, kind: Kind, payload: Tree)
    ensures Lasts(s, Record(s, id, intent, nowMs, kind, payload))
  {
  }

  lemma WriteLasts(s: Server, id: string, tail: Tail)
    ensures Lasts(s, Write(s, id, tail))
  {
    hide Record, Lasts;
    if id in s.intents {
      var intent := s.intents[id];
      RecordLasts(
        s, id, intent.(state := tail.state, deployHash := if tail.deployHash.Some? then tail.deployHash else intent.deployHash),
        tail.nowMs, tail.kind, tail.payload);
    } else {
      LastsItself(s);
    }
  }

  lemma LastsItself(s: Server)
    ensures Lasts(s, s)
  {
  }

  lemma LastsChain(s: Server, mid: Server, s': Server)
    requires Lasts(s, mid) && Lasts(mid, s')
    ensures Lasts(s, s')
  {
  }

  lemma StartLasts(c: Config, l: Live, id: string, rowId: string, nowMs: int)
    ensures Lasts(l.server, StartValidate(c, l, id, rowId, nowMs).server)
  {
    var s := l.server;
    LastsItself(s);
    if id in s.intents {
      forall d ensures Lasts(s, Refuse(s, id, d, nowMs).0) {
        RecordLasts(s, id, s.intents[id].(state := Rejected), nowMs, PolicyCheck, DeniedPayload(d));
      }
    }
    hide CheckPolicyRules, AllDigits, ValueOf, Used, Refuse, DeniedPayload;
    hide Calendar.DayUtc;
  }

  lemma TurnLasts(c: Config, l: Live, t: Turn)
    ensures Lasts(l.server, Next(c, l, t).server)
  {
    var s := l.server;
    LastsItself(s);
    match t
    case CreateAtOnce(upload, newId, nowMs) =>
      if upload.Parsed? && ParseBody(upload.tree).Some? {
        var body := ParseBody(upload.tree).value;
        RecordLasts(s, newId, Intent(Draft, body, nowMs, nowMs, None), nowMs, Creation, CreatedPayload(body));
      }
      hide Lasts, Record, ParseBody, CreatedPayload;
    case ValidateAtOnce(id, rowId, nowMs) =>
      var l1 := StartValidate(c, l, id, rowId, nowMs);
      ValidateIsBothHalves(c, l, id, rowId, nowMs);
      StartLasts(c, l, id, rowId, nowMs);
      hide StartValidate, ValidateStep;
      if l1.waiting != l.waiting {
        if |l.waiting| < |l1.waiting| && l1.waiting[|l.waiting|].Finishing? {
          WriteLasts(l1.server, l1.waiting[|l.waiting|].id, l1.waiting[|l.waiting|].tail);
          LastsChain(s, l1.server, Write(l1.server, l1.waiting[|l.waiting|].id, l1.waiting[|l.waiting|].tail));
        }
      }
      hide Lasts, Write;
    case BeginValidate(id, rowId, nowMs) =>
      StartLasts(c, l, id, rowId, nowMs);
      hide Lasts, StartValidate;
    case Resume(i, answer, nowMs) =>
      if i < |l.waiting| {
        var action := ActionOf(l.waiting[i], answer, nowMs);
        if action.Settles? {
          SettleLasts(s, l.waiting[i].id, action.status);
          WriteLasts(s, l.waiting[i].id, action.tail);
        }
      }
      hide Lasts, Write, SettleOpen, ActionOf;
    case Finish(i) =>
      if i < |l.waiting| && l.waiting[i].Finishing? { WriteLasts(s, l.waiting[i].id, l.waiting[i].tail); }
      hide Lasts, Write;
    case _ =>
      hide Lasts;
  }

  /** An execution on the trace over a released row is never repaired. */
  ghost predicate Broken(s: Server, id: string) {
    id in s.intents && WasExecuted(s, id) && id in s.table && s.table[id].status.Released?
  }

  lemma {:induction false} NeverRepaired(c: Config, l: Live, turns: seq<Turn>, id: string)
    requires Broken(l.server, id)
    ensures Broken(RunTurns(c, l, turns).server, id) && !Coupled(c, RunTurns(c, l, turns))
    decreases |turns|
  {
    if turns == [] {
      assert !Agrees(c, FactsOf(l, id));
    } else {
      TurnLasts(c, l, turns[0]);
      BrokenLasts(l.server, Next(c, l, turns[0]).server, id);
      hide Next, Coupled, Broken, Lasts;
      NeverRepaired(c, Next(c, l, turns[0]), turns[1..], id);
    }
  }

  lemma BrokenLasts(s: Server, s': Server, id: string)
    requires Broken(s, id) && Lasts(s, s')
    ensures Broken(s', id)
  {
  }

  lemma OverReleasedBreaks(c: Config, l: Live, t: Turn)
    requires Possible(c, l) && OverReleased(l, t)
    ensures Broken(Next(c, l, t).server, l.waiting[t.i].id)
  {
    var w := l.waiting[t.i];
    var action := ActionOf(w, t.answer, t.nowMs);
    assert TailFits(l.server, w);
    assert w.id in l.server.intents && !IsOpen(l.server.table, w.id) && Has(EntryAt(l.server.table, w.id), Status.Released);
    ActionFits(w, t.answer, t.nowMs);
    ActionStatus(w, t.answer, t.nowMs);
    assert t == Resume(t.i, t.answer, t.nowMs);
    hide *;
    ResumeUnfold(c, l, t.i, t.answer, t.nowMs);
    ExecutionBreaks(l.server, w.id, action.tail);
  }

  lemma ExecutionBreaks(s: Server, id: string, tail: Tail)
    requires id in s.intents && tail.state.Executed? && Has(EntryAt(s.table, id), Status.Released)
    ensures Broken(Write(s, id, tail), id)
  {
    var intent := s.intents[id].(
      state := tail.state, deployHash := if tail.deployHash.Some? then tail.deployHash else s.intents[id].deployHash);
    TraceGrows(s, id, intent, tail.nowMs, tail.kind, tail.payload, id, "");
    hide WasExecuted, ValidatedOn;
  }

  /** Validations run without interruption; every other handler may be suspended anywhere. */
  predicate Uninterrupted(turns: seq<Turn>) {
    forall i :: 0 <= i < |turns| ==> !turns[i].BeginValidate?
  }

  lemma PlainLasts(t: Table, t': Table, w: Waiting)
    requires w.Finishing? && PlainTail(t, w)
    requires forall k :: k in t && !t[k].status.Reserved? ==> k in t' && t'[k] == t[k]
    ensures PlainTail(t', w)
  {
  }

  lemma TurnKeepsPlain(c: Config, l: Live, t: Turn)
    requires Possible(c, l) && Plain(l) && !t.BeginValidate?
    ensures Plain(Next(c, l, t))
  {
    var l' := Next(c, l, t);
    TurnLasts(c, l, t);
    forall j | 0 <= j < |l'.waiting| && l'.waiting[j].Finishing? ensures PlainTail(l'.server.table, l'.waiting[j]) {
      var w := l'.waiting[j];
      if w in l.waiting {
        var k :| 0 <= k < |l.waiting| && l.waiting[k] == w;
        PlainLasts(l.server.table, l'.server.table, w);
      } else {
        NewTailIsPlain(c, l, t, j);
      }
    }
  }

  lemma NewTailIsPlain(c: Config, l: Live, t: Turn, j: nat)
    requires Possible(c, l) && !t.BeginValidate?
    requires var l' := Next(c, l, t);
      j < |l'.waiting| && l'.waiting[j].Finishing? && l'.waiting[j] !in l.waiting
    ensures PlainTail(Next(c, l, t).server.table, Next(c, l, t).waiting[j])
  {
    if t.Resume? && t.i < |l.waiting| && !l.waiting[t.i].Finishing? {
      var w, action := l.waiting[t.i], ActionOf(l.waiting[t.i], t.answer, t.nowMs);
      ActionFits(w, t.answer, t.nowMs);
      if action.Settles? && IsOpen(l.server.table, w.id) {
        SettleOpenIsUpdate(c, l.server.table, w.id, action.status);
      }
    }
    hide Possible, ActionOf, SettleOpen, Write, CreateStep, ValidateStep;
  }

  ghost predicate NeverOverReleased(c: Config, l: Live, turns: seq<Turn>)
    decreases |turns|
  {
    turns == [] || (!OverReleased(l, turns[0]) && NeverOverReleased(c, Next(c, l, turns[0]), turns[1..]))
  }

  /**
   * While nothing interrupts a validation, a schedule ends coupled exactly when no execution
   * resumed over a released row: the handler can check that on the row it looks up.
   */
  lemma {:induction false} EndCouplesExactly(c: Config, l: Live, turns: seq<Turn>)
    requires Sound(c, l) && Plain(l) && FreshTurns(c, l, turns) && Uninterrupted(turns)
    ensures Coupled(c, RunTurns(c, l, turns)) <==> NeverOverReleased(c, l, turns)
    decreases |turns|
  {
    if turns != [] {
      var t := turns[0];
      PlainChecks(c, l, t);
      TurnCouplesExactly(c, l, t);
      if OverReleased(l, t) {
        OverReleasedBreaks(c, l, t);
        NeverRepaired(c, Next(c, l, t), turns[1..], l.waiting[t.i].id);
      } else {
        TurnKeepsPlain(c, l, t);
        hide Coupled, Possible, Next, Plain, OverReleased, FreshTurn, Checks;
        EndCouplesExactly(c, Next(c, l, t), turns[1..]);
      }
    }
  }

  lemma EveryEndCouplesExactly(c: Config, turns: seq<Turn>)
    requires FreshTurns(c, IDLE, turns) && Uninterrupted(turns)
    ensures Coupled(c, RunTurns(c, IDLE, turns)) <==> NeverOverReleased(c, IDLE, turns)
  {
    IdleIsSound(c);
    EndCouplesExactly(c, IDLE, turns);
  }

  // ---- Schedules that fail ----

  /**
   * Rejected while a mark-executed waits for its body: the row is released, the mark resumes
   * before the rejection is written, and the trace shows an execution over the released row.
   */
  lemma RejectDuringMarkUncouples(c: Config, l: Live, id: string, rejected: Upload, rejectedMs: int, marked: Upload, markedMs: int, rest: seq<Turn>)
    requires Sound(c, l) && id in l.server.intents && l.server.intents[id].state.PolicyValidated? && IsOpen(l.server.table, id)
    requires rejected != Parsed(Atom(Null)) && MarkAccepts(marked)
    ensures var n := |l.waiting|;
      var l1 := Next(c, Next(c, l, BeginReject(id)), BeginMark(id));
      var l2 := Next(c, Next(c, l1, Resume(n, Body(rejected), rejectedMs)), Resume(n, Body(marked), markedMs));
      !Coupled(c, RunTurns(c, l2, rest))
  {
    var n := |l.waiting|;
    var l1 := Next(c, Next(c, l, BeginReject(id)), BeginMark(id));
    assert l1 == Live(l.server, l.waiting + [Rejecting(id)] + [Marking(id)]);
    BothSuspend(c, l, id, Marking(id));
    ReleasedThenExecuted(c, l, l1, id, Marking(id), Body(rejected), rejectedMs, Body(marked), markedMs) by {
      hide MarkAccepts, Sound, Reason, MarkedPayload, RejectedPayload, Field;
    }
    hide *;
    NeverRepaired(c, Next(c, Next(c, l1, Resume(n, Body(rejected), rejectedMs)), Resume(n, Body(marked), markedMs)), rest, id);
  }

  /** The same while a confirmation awaits the chain. */
  lemma RejectDuringConfirmUncouples(
      c: Config, l: Live, id: string, hash: string, rejected: Upload, rejectedMs: int, chain: Finality, confirmedMs: int, rest: seq<Turn>)
    requires Sound(c, l) && id in l.server.intents && l.server.intents[id].state.PolicyValidated? && IsOpen(l.server.table, id)
    requires IsLowerHex(hash, 64) && rejected != Parsed(Atom(Null)) && chain.Success?
    ensures var n := |l.waiting|;
      var l1 := Next(c, Next(c, l, BeginReject(id)), BeginConfirm(id, hash));
      var l2 := Next(c, Next(c, l1, Resume(n, Body(rejected), rejectedMs)), Resume(n, FromChain(chain), confirmedMs));
      !Coupled(c, RunTurns(c, l2, rest))
  {
    var n := |l.waiting|;
    var l1 := Next(c, Next(c, l, BeginReject(id)), BeginConfirm(id, hash));
    assert l1 == Live(l.server, l.waiting + [Rejecting(id)] + [Confirming(id, hash)]) by { hide Sound, IsLowerHex; }
    BothSuspend(c, l, id, Confirming(id, hash));
    ReleasedThenExecuted(c, l, l1, id, Confirming(id, hash), Body(rejected), rejectedMs, FromChain(chain), confirmedMs) by {
      hide Sound, Reason, ConfirmedPayload, RejectedPayload;
    }
    hide *;
    NeverRepaired(c, Next(c, Next(c, l1, Resume(n, Body(rejected), rejectedMs)), Resume(n, FromChain(chain), confirmedMs)), rest, id);
  }

  lemma BothSuspend(c: Config, l: Live, id: string, w: Waiting)
    requires Sound(c, l) && IsOpen(l.server.table, id) && w.id == id && !w.Finishing? && id in l.server.intents
    ensures Possible(c, Live(l.server, l.waiting + [Rejecting(id)] + [w]))
  {
    var l1 := Live(l.server, l.waiting + [Rejecting(id)]);
    hide Possible, Coupled;
    SuspendCouples(c, l, Rejecting(id));
    SuspendCouples(c, l1, w);
  }

  lemma ReleasedThenExecuted(
      c: Config, l: Live, l1: Live, id: string, w: Waiting, rejected: Answer, rejectedMs: int, executed: Answer, executedMs: int)
    requires Sound(c, l) && Possible(c, l1) && l1 == Live(l.server, l.waiting + [Rejecting(id)] + [w]) && IsOpen(l.server.table, id)
    requires w.id == id && (w.Marking? || w.Confirming?)
    requires ActionOf(Rejecting(id), rejected, rejectedMs).Settles? && ActionOf(w, executed, executedMs).Settles?
    ensures var n := |l.waiting|;
      Broken(Next(c, Next(c, l1, Resume(n, rejected, rejectedMs)), Resume(n, executed, executedMs)).server, id)
  {
    var n := |l.waiting|;
    var action := ActionOf(Rejecting(id), rejected, rejectedMs);
    var l2 := Next(c, l1, Resume(n, rejected, rejectedMs));
    BothSuspendSound(c, l, l1, id, w);
    RejectionReleases(c, l, l1, id, w, rejected, rejectedMs);
    hide *;
    TurnCouplesExactly(c, l1, Resume(n, rejected, rejectedMs)) by { ResumeIsFresh(l1, n, rejected, rejectedMs); }
    ReleasedIsOver(l2, n, w, executed, executedMs);
    OverReleasedBreaks(c, l2, Resume(n, executed, executedMs));
  }

  lemma ResumeIsFresh(l: Live, i: nat, answer: Answer, nowMs: int)
    ensures FreshTurn(l, Resume(i, answer, nowMs))
  {
  }

  lemma ReleasedIsOver(l: Live, i: nat, w: Waiting, answer: Answer, nowMs: int)
    requires i < |l.waiting| && l.waiting[i] == w && (w.Marking? || w.Confirming?)
    requires ActionOf(w, answer, nowMs).Settles? && Has(EntryAt(l.server.table, w.id), Status.Released)
    ensures OverReleased(l, Resume(i, answer, nowMs))
  {
    hide ActionOf, Has, EntryAt;
  }

  lemma RejectionReleases(c: Config, l: Live, l1: Live, id: string, w: Waiting, rejected: Answer, rejectedMs: int)
    requires Sound(c, l) && l1 == Live(l.server, l.waiting + [Rejecting(id)] + [w]) && IsOpen(l.server.table, id)
    requires ActionOf(Rejecting(id), rejected, rejectedMs).Settles?
    ensures var l2 := Next(c, l1, Resume(|l.waiting|, rejected, rejectedMs));
      |l2.waiting| > |l.waiting| && l2.waiting[|l.waiting|] == w && Has(EntryAt(l2.server.table, id), Status.Released)
  {
    var n, action := |l.waiting|, ActionOf(Rejecting(id), rejected, rejectedMs);
    ActionStatus(Rejecting(id), rejected, rejectedMs);
    ActionFits(Rejecting(id), rejected, rejectedMs);
    SettleOpenIsUpdate(c, l.server.table, id, action.status);
    assert l1.waiting[n] == Rejecting(id) && Without(l1.waiting, n) == l.waiting + [w];
    ResumeUnfold(c, l1, n, rejected, rejectedMs);
    hide Sound, ActionOf, SettleOpen, Next, Without, Checks;
  }

  lemma BothSuspendSound(c: Config, l: Live, l1: Live, id: string, w: Waiting)
    requires Sound(c, l) && l1 == Live(l.server, l.waiting + [Rejecting(id)] + [w]) && IsOpen(l.server.table, id)
    requires w.id == id && (w.Marking? || w.Confirming?) && Possible(c, l1)
    ensures Sound(c, l1)
  {
    var mid := Live(l.server, l.waiting + [Rejecting(id)]);
    assert id in l.server.intents;
    hide Possible, Coupled;
    SuspendCouples(c, l, Rejecting(id));
    SuspendCouples(c, mid, w);
  }

  // ---- At rest, and without interruption ----

  /** Coupled with no write pending, the ledger's day sum is the sum over the intents that hold budget that day. */
  lemma RestingUsedIsHeld(c: Config, l: Live, token: string, day: string)
    requires Sound(c, l) && AtRest(l)
    ensures Used(l.server.table, ScopeOf(c, token, day)) == Total(HeldAmounts(l.server, token, day)) <= CapOf(c)
  {
    var s, scope := l.server, ScopeOf(c, token, day);
    assert Used(s.table, scope) <= CapOf(c);
    forall id: string
      ensures HoldsBudget(s, id, token, day) <==> id in s.table && s.table[id].scope == scope && SpendTable.Live(s.table[id])
      ensures id in s.table ==> id in s.intents && AmountOf(s.intents[id].body) == s.table[id].amount
    {
      if id in s.intents { assert Agrees(c, FactsOf(l, id)); }
      assert DaysFit(l, id);
      assert !Pending(l.waiting, id) && !PendingTo(l.waiting, id, PolicyValidated);
      hide Sound, ValidatedOn, WasExecuted, ParseAtomic, Pending, PendingTo;
    }
    hide *;
    MapsAgree(s, scope, token, day);
  }

  /** A handler that nothing interrupts is the handler as one step. */
  lemma UninterruptedMarkIsWhole(c: Config, l: Live, id: string, upload: Upload, nowMs: int)
    requires MarkMayBegin(l.server, id)
    ensures Finished(c, l, Next(c, Next(c, l, BeginMark(id)), Resume(|l.waiting|, Body(upload), nowMs)))
      == l.(server := MarkStep(l.server, id, upload, nowMs).0)
  {
    hide Field, PassesHashTest, Unprintable, SettleOpen, MarkedPayload;
    LastRemoved(l.waiting, Marking(id));
    ResumedAlone(c, l, Marking(id), Body(upload), nowMs);
  }

  lemma UninterruptedRejectIsWhole(c: Config, l: Live, id: string, upload: Upload, nowMs: int)
    requires id in l.server.intents && !AlreadyTerminal(l.server.intents[id].state)
    ensures Finished(c, l, Next(c, Next(c, l, BeginReject(id)), Resume(|l.waiting|, Body(upload), nowMs)))
      == l.(server := RejectStep(l.server, id, upload, nowMs).0)
  {
    hide Reason, SettleOpen, RejectedPayload;
    LastRemoved(l.waiting, Rejecting(id));
    ResumedAlone(c, l, Rejecting(id), Body(upload), nowMs);
  }

  lemma UninterruptedConfirmIsWhole(c: Config, l: Live, id: string, upload: Upload, hash: string, chain: Finality, nowMs: int)
    requires id in l.server.intents && l.server.intents[id].state.PolicyValidated?
    requires upload.Parsed? && Text(Field(upload.tree, "deployHash")) == Some(hash) && IsLowerHex(hash, 64)
    ensures Finished(c, l, Next(c, Next(c, l, BeginConfirm(id, hash)), Resume(|l.waiting|, FromChain(chain), nowMs)))
      == l.(server := ConfirmStep(l.server, id, upload, chain, nowMs).0)
  {
    assert upload.tree.Obj?;
    hide IsLowerHex, Text, Field, SettleOpen, ConfirmedPayload;
    LastRemoved(l.waiting, Confirming(id, hash));
    ResumedAlone(c, l, Confirming(id, hash), FromChain(chain), nowMs);
  }

  /** The resumed handler's own write, if it is still pending. */
  ghost function Finished(c: Config, l: Live, l': Live): Live {
    if |l'.waiting| > |l.waiting| then Next(c, l', Finish(|l.waiting|)) else l'
  }

  lemma ResumedAlone(c: Config, l: Live, w: Waiting, answer: Answer, nowMs: int)
    requires !w.Finishing? && w.id in l.server.intents
    ensures var l1 := l.(waiting := l.waiting + [w]);
      var action := ActionOf(w, answer, nowMs);
      Finished(c, l, Next(c, l1, Resume(|l.waiting|, answer, nowMs)))
      == if action.Nothing? then l
         else l.(server := Write(l.server.(table := SettleOpen(l.server.table, w.id, action.status)), w.id, action.tail))
  {
    var l1 := l.(waiting := l.waiting + [w]);
    var action := ActionOf(w, answer, nowMs);
    LastRemoved(l.waiting, w);
    hide ActionOf, Without, Write;
    if action.Settles? {
      LastRemoved(l.waiting, Finishing(w.id, action.tail));
      if !IsOpen(l.server.table, w.id) {
        assert SettleOpen(l.server.table, w.id, action.status) == l.server.table;
        assert l.server.(table := l.server.table) == l.server;
      }
    }
  }
}
