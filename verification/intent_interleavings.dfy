/**
 * Exactly which turns and which schedules keep every intent coupled to its ledger row wherever it
 * comes to rest. One turn concerns one intent; what a write does to that intent's facts decides.
 */
module IntentInterleavings {
  import opened Wrappers
  import opened Sequences
  import opened Decimal
  import opened ApiTrees
  import opened SpendTable
  import opened PolicyRules
  import opened AuditTraces
  import opened IntentRouters
  import opened IntentStories
  import opened IntentTurns
  import Calendar

  // ---- One intent at a time ----

  /** The two states differ at most in one intent. */
  ghost predicate SameElsewhere(l: Live, l': Live, id: string) {
    && (forall k :: k != id ==> (k in l.server.intents <==> k in l'.server.intents))
    && (forall k :: k != id && k in l.server.intents ==> FactsOf(l', k) == FactsOf(l, k))
    && (forall k :: k != id ==> (DaysFit(l, k) ==> DaysFit(l', k)))
  }

  ghost predicate Grounded(c: Config, l: Live) {
    var s := l.server;
    && UniqueIds(s.table) && WithinCap(s.table, CapOf(c)) && s.table.Keys <= s.intents.Keys
    && (forall i :: 0 <= i < |s.trace| ==> s.trace[i].intentId in s.intents)
    && (forall j :: 0 <= j < |l.waiting| ==> TailFits(s, l.waiting[j]))
  }

  lemma OneIntentDecides(c: Config, l: Live, l': Live, id: string)
    requires Possible(c, l) && Coupled(c, l) && Grounded(c, l') && SameElsewhere(l, l', id)
    requires id in l'.server.intents && Plausible(c, FactsOf(l', id)) && DaysFit(l', id)
    ensures Possible(c, l')
    ensures Coupled(c, l') <==> Agrees(c, FactsOf(l', id))
  {
    hide Plausible, Agrees, FactsOf, UniqueIds, WithinCap, TailFits, DaysFit;
    forall k | k in l'.server.intents ensures Plausible(c, FactsOf(l', k)) && (k != id ==> Agrees(c, FactsOf(l', k))) {
      if k != id { assert FactsOf(l', k) == FactsOf(l, k); }
    }
    forall k ensures DaysFit(l', k) {
      if k != id { assert DaysFit(l, k); }
    }
  }

  /** With a plausible past, agreeing comes down to the row and the state. */
  predicate Settled(f: Facts) {
    (f.executed ==> Has(f.entry, Status.Committed))
    && (!f.pending ==>
          (f.state.PolicyValidated? <==> Has(f.entry, Status.Reserved))
          && (f.state.Executed? ==> Has(f.entry, Status.Committed)))
  }

  lemma SettledIsAgrees(c: Config, f: Facts)
    requires Plausible(c, f)
    ensures Agrees(c, f) <==> Settled(f)
  {
    hide OwnRow;
  }

  // ---- A write ----

  lemma TraceGrows(s: Server, id: string, intent: Intent, nowMs: int, kind: Kind, payload: Tree, k: string, day: string)
    ensures var s' := Record(s, id, intent, nowMs, kind, payload);
      (WasExecuted(s', k) <==> WasExecuted(s, k) || (k == id && intent.state.Executed?))
      && (ValidatedOn(s', k, day) <==>
            ValidatedOn(s, k, day) || (k == id && intent.state.PolicyValidated? && Calendar.DayUtc(nowMs) == Some(day)))
  {
    hide Calendar.DayUtc;
    var row := TraceRow(|s.trace| + 1, id, intent.state, nowMs, kind, payload);
    var s' := Record(s, id, intent, nowMs, kind, payload);
    assert s'.trace == s.trace + [row];
    hide Record;
    assert row in s'.trace && forall r :: r in s.trace ==> r in s'.trace;
  }

  function AfterWrite(f: Facts, state: IntentState, pending: bool, toExecuted: bool, toValidated: bool): Facts {
    f.(state := state, executed := f.executed || state.Executed?, pending := pending, toExecuted := toExecuted, toValidated := toValidated)
  }

  /** Other intents have the same writes pending in both lists. */
  ghost predicate SamePending(waiting: seq<Waiting>, rest: seq<Waiting>, id: string) {
    && (forall k: string :: k != id ==> (Pending(rest, k) <==> Pending(waiting, k)))
    && (forall k: string, state: IntentState :: k != id ==> (PendingTo(rest, k, state) <==> PendingTo(waiting, k, state)))
  }

  lemma WithoutSamePending(waiting: seq<Waiting>, i: nat)
    requires i < |waiting|
    ensures SamePending(waiting, Without(waiting, i), waiting[i].id)
  {
    forall k: string | k != waiting[i].id ensures Pending(Without(waiting, i), k) <==> Pending(waiting, k) {
      PendingWithout(waiting, i, k, Draft);
    }
    forall k: string, state: IntentState | k != waiting[i].id
      ensures PendingTo(Without(waiting, i), k, state) <==> PendingTo(waiting, k, state)
    {
      PendingWithout(waiting, i, k, state);
    }
  }

  lemma AppendSamePending(waiting: seq<Waiting>, rest: seq<Waiting>, w: Waiting)
    requires SamePending(waiting, rest, w.id)
    ensures SamePending(waiting, rest + [w], w.id)
  {
    hide Pending, PendingTo;
    forall k: string | k != w.id ensures Pending(rest + [w], k) <==> Pending(waiting, k) {
      PendingAppend(rest, w, k, Draft);
    }
    forall k: string, state: IntentState | k != w.id
      ensures PendingTo(rest + [w], k, state) <==> PendingTo(waiting, k, state)
    {
      PendingAppend(rest, w, k, state);
    }
  }

  lemma FactsElsewhere(l: Live, l': Live, id: string, k: string)
    requires k != id && SamePending(l.waiting, l'.waiting, id)
    requires k in l.server.intents <==> k in l'.server.intents
    requires k in l.server.intents ==> l'.server.intents[k] == l.server.intents[k]
    requires EntryAt(l'.server.table, k) == EntryAt(l.server.table, k)
    requires WasExecuted(l'.server, k) <==> WasExecuted(l.server, k)
    requires forall day: string :: ValidatedOn(l'.server, k, day) <==> ValidatedOn(l.server, k, day)
    ensures k in l.server.intents ==> FactsOf(l', k) == FactsOf(l, k)
    ensures DaysFit(l, k) ==> DaysFit(l', k)
  {
    hide Pending, PendingTo, WasExecuted, ValidatedOn;
    assert PendingTo(l'.waiting, k, Executed) <==> PendingTo(l.waiting, k, Executed);
    assert PendingTo(l'.waiting, k, PolicyValidated) <==> PendingTo(l.waiting, k, PolicyValidated);
  }

  /** What a write does to every intent's facts. */
  lemma WriteFacts(l: Live, rest: seq<Waiting>, id: string, tail: Tail)
    requires id in l.server.intents && SamePending(l.waiting, rest, id)
    ensures var l' := Live(Write(l.server, id, tail), rest);
      && l'.server.intents.Keys == l.server.intents.Keys && l'.server.table == l.server.table
      && FactsOf(l', id) == AfterWrite(
           FactsOf(l, id), tail.state, Pending(rest, id), PendingTo(rest, id, Executed), PendingTo(rest, id, PolicyValidated))
      && SameElsewhere(l, l', id)
      && (forall day: string :: ValidatedOn(l'.server, id, day) <==>
            ValidatedOn(l.server, id, day) || (tail.state.PolicyValidated? && Calendar.DayUtc(tail.nowMs) == Some(day)))
      && (forall j :: 0 <= j < |l'.server.trace| ==> l'.server.trace[j].intentId == id || l'.server.trace[j] in l.server.trace)
  {
    var s := l.server;
    var l' := Live(Write(s, id, tail), rest);
    var intent := s.intents[id].(
      state := tail.state, deployHash := if tail.deployHash.Some? then tail.deployHash else s.intents[id].deployHash);
    assert l'.server == Record(s, id, intent, tail.nowMs, tail.kind, tail.payload);
    assert l'.server.trace == s.trace + [TraceRow(|s.trace| + 1, id, tail.state, tail.nowMs, tail.kind, tail.payload)];
    assert l'.server.intents == s.intents[id := intent.(updatedAtMs := tail.nowMs)] && l'.server.table == s.table;
    hide Write, Record, Pending, PendingTo, WasExecuted, ValidatedOn, EntryAt, FactsOf, DaysFit;
    hide Calendar.DayUtc;
    forall k | k != id
      ensures k in s.intents ==> FactsOf(l', k) == FactsOf(l, k)
      ensures DaysFit(l, k) ==> DaysFit(l', k)
    {
      forall day: string
        ensures ValidatedOn(l'.server, k, day) <==> ValidatedOn(s, k, day)
        ensures WasExecuted(l'.server, k) <==> WasExecuted(s, k)
      {
        TraceGrows(s, id, intent, tail.nowMs, tail.kind, tail.payload, k, day);
      }
      TraceGrows(s, id, intent, tail.nowMs, tail.kind, tail.payload, k, "");
      FactsElsewhere(l, l', id, k);
    }
    forall day: string
      ensures ValidatedOn(l'.server, id, day) <==>
        ValidatedOn(s, id, day) || (tail.state.PolicyValidated? && Calendar.DayUtc(tail.nowMs) == Some(day))
    {
      TraceGrows(s, id, intent, tail.nowMs, tail.kind, tail.payload, id, day);
    }
    TraceGrows(s, id, intent, tail.nowMs, tail.kind, tail.payload, id, "");
    assert FactsOf(l', id) == AfterWrite(
      FactsOf(l, id), tail.state, Pending(rest, id), PendingTo(rest, id, Executed), PendingTo(rest, id, PolicyValidated)) by {
      OwnFacts(l, l', id);
    }
  }

  lemma OwnFacts(l: Live, l': Live, id: string)
    requires id in l.server.intents && id in l'.server.intents
    requires l'.server.table == l.server.table && l'.server.intents[id].body == l.server.intents[id].body
    requires WasExecuted(l'.server, id) <==> WasExecuted(l.server, id) || l'.server.intents[id].state.Executed?
    ensures FactsOf(l', id) == AfterWrite(
      FactsOf(l, id), l'.server.intents[id].state, Pending(l'.waiting, id), PendingTo(l'.waiting, id, Executed),
      PendingTo(l'.waiting, id, PolicyValidated))
  {
    hide Pending, PendingTo, WasExecuted, EntryAt;
  }

  /** The row decides whether a write agrees; a pending write counts as done or is still pending afterwards. */
  lemma WriteAgrees(c: Config, f: Facts, state: IntentState, pending: bool, toExecuted: bool, toValidated: bool)
    requires Plausible(c, f) && Agrees(c, f) && (state.PolicyValidated? || state.Executed? || state.Rejected?)
    requires f.toExecuted <==> toExecuted || (f.toExecuted && state.Executed?)
    requires f.toValidated <==> toValidated || (f.toValidated && state.PolicyValidated?)
    requires (toExecuted || toValidated ==> pending) && (state.PolicyValidated? ==> f.toValidated)
    ensures var f' := AfterWrite(f, state, pending, toExecuted, toValidated);
      Plausible(c, f') && (Agrees(c, f') <==> RowAllows(f.entry, state, !pending))
  {
    SettledIsAgrees(c, f);
    hide OwnRow;
    assert Plausible(c, AfterWrite(f, state, pending, toExecuted, toValidated));
    SettledIsAgrees(c, AfterWrite(f, state, pending, toExecuted, toValidated));
    hide Agrees;
  }

  lemma PendingToIsPending(waiting: seq<Waiting>, id: string, state: IntentState)
    ensures PendingTo(waiting, id, state) ==> Pending(waiting, id)
  {
  }

  /** A turn that writes: the next state is coupled exactly when the row allows the write. */
  lemma WriteCouples(c: Config, l: Live, i: nat, tail: Tail)
    requires Possible(c, l) && Coupled(c, l) && i < |l.waiting| && TailFits(l.server, Finishing(l.waiting[i].id, tail))
    requires if l.waiting[i].Finishing? then l.waiting[i].tail == tail else !tail.state.PolicyValidated?
    ensures var id, rest := l.waiting[i].id, Without(l.waiting, i);
      var l' := Live(Write(l.server, id, tail), rest);
      Possible(c, l') && (Coupled(c, l') <==> RowAllows(EntryAt(l.server.table, id), tail.state, !Pending(rest, id)))
  {
    var id, rest := l.waiting[i].id, Without(l.waiting, i);
    var l' := Live(Write(l.server, id, tail), rest);
    WithoutSamePending(l.waiting, i);
    WriteFacts(l, rest, id, tail);
    PendingWithout(l.waiting, i, id, Executed);
    PendingWithout(l.waiting, i, id, PolicyValidated);
    PendingToIsPending(rest, id, Executed);
    PendingToIsPending(rest, id, PolicyValidated);
    var f := FactsOf(l, id);
    assert Plausible(c, f) && Agrees(c, f);
    assert f.toExecuted <==> PendingTo(l.waiting, id, Executed);
    assert f.toValidated <==> PendingTo(l.waiting, id, PolicyValidated);
    assert f.entry == EntryAt(l.server.table, id);
    assert DaysFit(l, id);
    WriteDays(l, l', i, tail);
    assert id in l.server.intents;
    WriteGrounded(c, l, l', id);
    hide Write, FactsOf, Plausible, Agrees, Possible, Coupled, Grounded, DaysFit, Pending, PendingTo, Without, SamePending, SameElsewhere, EntryAt;
    hide RowAllows, TailFits;
    assert tail.state.PolicyValidated? || tail.state.Executed? || tail.state.Rejected? by { TailState(l.server, id, tail); }
    assert tail.state.PolicyValidated? ==> f.toValidated;
    WriteAgrees(c, f, tail.state, Pending(rest, id), PendingTo(rest, id, Executed), PendingTo(rest, id, PolicyValidated));
    OneIntentDecides(c, l, l', id);
  }

  lemma TailState(s: Server, id: string, tail: Tail)
    requires TailFits(s, Finishing(id, tail))
    ensures tail.state.PolicyValidated? || tail.state.Executed? || tail.state.Rejected?
  {
  }

  lemma WriteDays(l: Live, l': Live, i: nat, tail: Tail)
    requires i < |l.waiting| && l'.waiting == Without(l.waiting, i) && l'.server.table == l.server.table
    requires DaysFit(l, l.waiting[i].id) && TailFits(l.server, Finishing(l.waiting[i].id, tail))
    requires l.waiting[i].Finishing? ==> l.waiting[i].tail == tail
    requires forall day: string :: ValidatedOn(l'.server, l.waiting[i].id, day) <==>
      ValidatedOn(l.server, l.waiting[i].id, day) || (tail.state.PolicyValidated? && Calendar.DayUtc(tail.nowMs) == Some(day))
    ensures DaysFit(l', l.waiting[i].id)
  {
    PendingWithout(l.waiting, i, l.waiting[i].id, PolicyValidated);
    hide Pending, PendingTo, ValidatedOn, Without;
    hide Calendar.DayUtc;
  }

  lemma WriteGrounded(c: Config, l: Live, l': Live, id: string)
    requires Possible(c, l) && id in l.server.intents && (forall w :: w in l'.waiting ==> w in l.waiting)
    requires l'.server.intents.Keys == l.server.intents.Keys && l'.server.table == l.server.table
    requires forall j :: 0 <= j < |l'.server.trace| ==> l'.server.trace[j].intentId == id || l'.server.trace[j] in l.server.trace
    ensures Grounded(c, l')
  {
    hide UniqueIds, WithinCap, Plausible, FactsOf, DaysFit;
    hide Calendar.DayUtc;
    forall j | 0 <= j < |l'.waiting| ensures TailFits(l'.server, l'.waiting[j]) {
      assert l'.waiting[j] in l.waiting;
    }
    forall j | 0 <= j < |l'.server.trace| ensures l'.server.trace[j].intentId in l'.server.intents {
      if l'.server.trace[j].intentId != id {
        var k :| 0 <= k < |l.server.trace| && l.server.trace[k] == l'.server.trace[j];
      }
    }
  }

  // ---- A row that changes, its write pending ----

  lemma PendFacts(l: Live, table: Table, rest: seq<Waiting>, id: string, tail: Tail)
    requires id in l.server.intents && SamePending(l.waiting, rest, id)
    requires Pending(rest, id) <==> Pending(l.waiting, id)
    requires forall state: IntentState :: PendingTo(rest, id, state) <==> PendingTo(l.waiting, id, state)
    requires forall k :: k != id ==> EntryAt(table, k) == EntryAt(l.server.table, k)
    ensures var l' := Live(l.server.(table := table), rest + [Finishing(id, tail)]);
      SameElsewhere(l, l', id)
      && FactsOf(l', id) == FactsOf(l, id).(
           entry := EntryAt(table, id), pending := true,
           toExecuted := FactsOf(l, id).toExecuted || tail.state.Executed?,
           toValidated := FactsOf(l, id).toValidated || tail.state.PolicyValidated?)
  {
    var w := Finishing(id, tail);
    var l' := Live(l.server.(table := table), rest + [w]);
    AppendSamePending(l.waiting, rest, w);
    PendingAppend(rest, w, id, Executed);
    PendingAppend(rest, w, id, PolicyValidated);
    forall k: string, day: string
      ensures WasExecuted(l'.server, k) <==> WasExecuted(l.server, k)
      ensures ValidatedOn(l'.server, k, day) <==> ValidatedOn(l.server, k, day) {}
    hide WasExecuted, ValidatedOn, DaysFit, EntryAt, Pending, PendingTo, SamePending;
    forall k | k != id
      ensures k in l.server.intents ==> FactsOf(l', k) == FactsOf(l, k)
      ensures DaysFit(l, k) ==> DaysFit(l', k)
    {
      assert WasExecuted(l'.server, k) <==> WasExecuted(l.server, k) by { assert ValidatedOn(l'.server, k, "") <==> ValidatedOn(l.server, k, ""); }
      FactsElsewhere(l, l', id, k);
    }
    assert WasExecuted(l'.server, id) <==> WasExecuted(l.server, id) by { assert ValidatedOn(l'.server, id, "") <==> ValidatedOn(l.server, id, ""); }
  }

  /** The same rows, each on the day it was reserved for, and at most one new or changed row. */
  ghost predicate Evolved(t: Table, t': Table, id: string) {
    && t.Keys <= t'.Keys <= t.Keys + {id}
    && (forall k :: k != id ==> EntryAt(t', k) == EntryAt(t, k))
    && (id in t ==> t'[id].scope == t[id].scope)
  }

  /** Changing a row and leaving the write pending keeps the coupling: the intent is not at rest. */
  lemma PendCouples(c: Config, l: Live, table: Table, rest: seq<Waiting>, id: string, tail: Tail)
    requires Possible(c, l) && Coupled(c, l) && id in l.server.intents && SamePending(l.waiting, rest, id)
    requires Pending(rest, id) <==> Pending(l.waiting, id)
    requires forall state: IntentState :: PendingTo(rest, id, state) <==> PendingTo(l.waiting, id, state)
    requires forall w :: w in rest ==> w in l.waiting
    requires UniqueIds(table) && WithinCap(table, CapOf(c)) && Evolved(l.server.table, table, id)
    requires TailFits(l.server.(table := table), Finishing(id, tail)) && (id in table && id !in l.server.table ==> tail.state.PolicyValidated?)
    requires var f := FactsOf(l, id);
      (f.executed ==> Has(EntryAt(table, id), Status.Committed))
      && Plausible(c, f.(
           entry := EntryAt(table, id), pending := true,
           toExecuted := f.toExecuted || tail.state.Executed?, toValidated := f.toValidated || tail.state.PolicyValidated?))
    ensures var l' := Live(l.server.(table := table), rest + [Finishing(id, tail)]);
      Possible(c, l') && Coupled(c, l')
  {
    var l' := Live(l.server.(table := table), rest + [Finishing(id, tail)]);
    PendFacts(l, table, rest, id, tail);
    assert DaysFit(l, id);
    PendDays(l, table, rest, id, tail);
    PendGrounded(c, l, table, rest, id, tail);
    var f' := FactsOf(l', id);
    assert Plausible(c, f');
    assert f'.executed == FactsOf(l, id).executed && f'.pending;
    hide Possible, Coupled, Grounded, FactsOf, Plausible, DaysFit, SameElsewhere, SamePending, Pending, PendingTo, Evolved, TailFits;
    hide EntryAt, UniqueIds, WithinCap;
    assert Agrees(c, f') by { hide Matches; }
    OneIntentDecides(c, l, l', id);
  }

  lemma PendDays(l: Live, table: Table, rest: seq<Waiting>, id: string, tail: Tail)
    requires DaysFit(l, id) && Evolved(l.server.table, table, id)
    requires forall state: IntentState :: PendingTo(rest, id, state) <==> PendingTo(l.waiting, id, state)
    requires id in table && id !in l.server.table ==> tail.state.PolicyValidated?
    ensures DaysFit(Live(l.server.(table := table), rest + [Finishing(id, tail)]), id)
  {
    var l' := Live(l.server.(table := table), rest + [Finishing(id, tail)]);
    PendingAppend(rest, Finishing(id, tail), id, PolicyValidated);
    assert forall day: string :: ValidatedOn(l'.server, id, day) <==> ValidatedOn(l.server, id, day);
    hide ValidatedOn, PendingTo, Pending;
  }

  lemma PendGrounded(c: Config, l: Live, table: Table, rest: seq<Waiting>, id: string, tail: Tail)
    requires Possible(c, l) && id in l.server.intents && (forall w :: w in rest ==> w in l.waiting)
    requires UniqueIds(table) && WithinCap(table, CapOf(c)) && Evolved(l.server.table, table, id)
    requires TailFits(l.server.(table := table), Finishing(id, tail))
    ensures Grounded(c, Live(l.server.(table := table), rest + [Finishing(id, tail)]))
  {
    var l' := Live(l.server.(table := table), rest + [Finishing(id, tail)]);
    hide UniqueIds, WithinCap, Plausible, FactsOf, DaysFit;
    hide Calendar.DayUtc;
    forall j | 0 <= j < |l'.waiting| ensures TailFits(l'.server, l'.waiting[j]) {
      var w := l'.waiting[j];
      if j < |rest| {
        assert w in rest;
        assert TailFits(l.server, w);
        assert w.id != id ==> EntryAt(table, w.id) == EntryAt(l.server.table, w.id);
      }
    }
  }

  /** A resumed handler that settles a reserved row. */
  lemma SettleCouples(c: Config, l: Live, i: nat, status: Status, tail: Tail)
    requires Possible(c, l) && Coupled(c, l) && i < |l.waiting| && !l.waiting[i].Finishing? && IsOpen(l.server.table, l.waiting[i].id)
    requires (status.Committed? && tail.state.Executed?) || (status.Released? && tail.state.Rejected?)
    ensures var l' := Act(l.server, Without(l.waiting, i), l.waiting[i].id, Settles(status, tail));
      Possible(c, l') && Coupled(c, l')
  {
    var id, rest, t := l.waiting[i].id, Without(l.waiting, i), l.server.table;
    var table := SettleOpen(t, id, status);
    var f := FactsOf(l, id);
    assert TailFits(l.server, l.waiting[i]);
    assert Plausible(c, f) && Agrees(c, f) && f.entry == Some(t[id]);
    SettleOpenIsUpdate(c, t, id, status);
    WithoutSamePending(l.waiting, i);
    forall state: IntentState ensures PendingTo(rest, id, state) <==> PendingTo(l.waiting, id, state) {
      PendingWithout(l.waiting, i, id, state);
    }
    PendingWithout(l.waiting, i, id, Executed);
    assert EntryAt(table, id) == Some(t[id].(status := status));
    SettledPlausible(c, f, status, tail);
    hide Possible, Coupled, FactsOf, Plausible, Agrees, Pending, PendingTo, SamePending, UniqueIds, WithinCap, SettleOpen, Without;
    PendCouples(c, l, table, rest, id, tail);
  }

  lemma SettledPlausible(c: Config, f: Facts, status: Status, tail: Tail)
    requires Plausible(c, f) && Agrees(c, f) && Has(f.entry, Status.Reserved)
    requires (status.Committed? && tail.state.Executed?) || (status.Released? && tail.state.Rejected?)
    ensures !f.executed
    ensures Plausible(c, f.(
      entry := Some(f.entry.value.(status := status)), pending := true,
      toExecuted := f.toExecuted || tail.state.Executed?, toValidated := f.toValidated || tail.state.PolicyValidated?))
  {
    hide ParseAtomic, ScopeOf;
  }

  /** A resumed handler, whatever it was and whatever it finds: coupled exactly when the row allows what it writes. */
  lemma ResumeCouples(c: Config, l: Live, i: nat, answer: Answer, nowMs: int)
    requires Possible(c, l) && Coupled(c, l) && i < |l.waiting| && !l.waiting[i].Finishing?
    ensures var l' := Next(c, l, Resume(i, answer, nowMs));
      Possible(c, l') && (Coupled(c, l') <==> Checks(l, Resume(i, answer, nowMs)))
  {
    var w, action := l.waiting[i], ActionOf(l.waiting[i], answer, nowMs);
    assert TailFits(l.server, w);
    assert w.id in l.server.intents;
    ActionFits(w, answer, nowMs);
    hide *;
    ResumeUnfold(c, l, i, answer, nowMs);
    match action {
      case Nothing => DropCouples(c, l, i);
      case Settles(status, tail) =>
        if IsOpen(l.server.table, w.id) {
          SettleCouples(c, l, i, status, tail);
        } else {
          PlainTailFits(l.server, w.id, tail);
          WriteCouples(c, l, i, tail);
        }
    }
  }

  lemma ResumeUnfold(c: Config, l: Live, i: nat, answer: Answer, nowMs: int)
    requires i < |l.waiting| && !l.waiting[i].Finishing?
    ensures var w, rest, action := l.waiting[i], Without(l.waiting, i), ActionOf(l.waiting[i], answer, nowMs);
      var t := Resume(i, answer, nowMs);
      && Next(c, l, t) == Act(l.server, rest, w.id, action)
      && (action.Nothing? ==> Act(l.server, rest, w.id, action) == l.(waiting := rest) && Checks(l, t))
      && (action.Settles? && IsOpen(l.server.table, w.id) ==> Checks(l, t))
      && (action.Settles? && !IsOpen(l.server.table, w.id) ==>
            Act(l.server, rest, w.id, action) == Live(Write(l.server, w.id, action.tail), rest)
            && (Checks(l, t) <==> RowAllows(EntryAt(l.server.table, w.id), action.tail.state, !Pending(rest, w.id))))
  {
    hide ActionOf, RowAllows, EntryAt, Pending, Without, Write, IsOpen, SettleOpen;
  }

  lemma PlainTailFits(s: Server, id: string, tail: Tail)
    requires id in s.intents && (tail.state.Executed? || tail.state.Rejected?)
    ensures TailFits(s, Finishing(id, tail))
  {
  }

  lemma ActionFits(w: Waiting, answer: Answer, nowMs: int)
    ensures var a := ActionOf(w, answer, nowMs);
      a.Settles? ==> (a.status.Committed? && a.tail.state.Executed?) || (a.status.Released? && a.tail.state.Rejected?)
  {
    hide MarkAccepts, Field, Reason, MarkedPayload, ConfirmedPayload, RejectedPayload;
  }

  /** Turns that only suspend or drop a handler before its ledger call change no intent. */
  lemma SameFactsCouple(c: Config, l: Live, waiting: seq<Waiting>)
    requires Possible(c, l) && Coupled(c, l)
    requires forall w :: w in waiting ==> TailFits(l.server, w)
    requires forall id: string :: Pending(waiting, id) <==> Pending(l.waiting, id)
    requires forall id: string, state: IntentState :: PendingTo(waiting, id, state) <==> PendingTo(l.waiting, id, state)
    ensures Possible(c, l.(waiting := waiting)) && Coupled(c, l.(waiting := waiting))
  {
    var l' := l.(waiting := waiting);
    hide Pending, PendingTo, Plausible, Agrees, TailFits, ValidatedOn, WasExecuted, UniqueIds, WithinCap;
    forall id | id in l.server.intents ensures FactsOf(l', id) == FactsOf(l, id) {
      assert PendingTo(waiting, id, Executed) <==> PendingTo(l.waiting, id, Executed);
      assert PendingTo(waiting, id, PolicyValidated) <==> PendingTo(l.waiting, id, PolicyValidated);
    }
    forall id ensures DaysFit(l', id) {
      assert DaysFit(l, id);
      assert PendingTo(waiting, id, PolicyValidated) <==> PendingTo(l.waiting, id, PolicyValidated);
    }
    hide FactsOf, DaysFit;
    forall j | 0 <= j < |waiting| ensures TailFits(l.server, waiting[j]) {
      assert waiting[j] in waiting;
    }
  }

  lemma DropCouples(c: Config, l: Live, i: nat)
    requires Possible(c, l) && Coupled(c, l) && i < |l.waiting| && !l.waiting[i].Finishing?
    ensures var l' := l.(waiting := Without(l.waiting, i));
      Possible(c, l') && Coupled(c, l')
  {
    forall id: string ensures Pending(Without(l.waiting, i), id) <==> Pending(l.waiting, id) {
      PendingWithout(l.waiting, i, id, Draft);
    }
    forall id: string, state: IntentState
      ensures PendingTo(Without(l.waiting, i), id, state) <==> PendingTo(l.waiting, id, state)
    {
      PendingWithout(l.waiting, i, id, state);
    }
    forall w | w in Without(l.waiting, i) ensures TailFits(l.server, w) {
      assert w in l.waiting;
    }
    hide Possible, Coupled, Pending, PendingTo, TailFits, Without;
    SameFactsCouple(c, l, Without(l.waiting, i));
  }

  lemma SuspendCouples(c: Config, l: Live, w: Waiting)
    requires Possible(c, l) && Coupled(c, l) && !w.Finishing? && TailFits(l.server, w)
    ensures var l' := l.(waiting := l.waiting + [w]);
      Possible(c, l') && Coupled(c, l')
  {
    var waiting := l.waiting + [w];
    forall id: string ensures Pending(waiting, id) <==> Pending(l.waiting, id) {
      PendingAppend(l.waiting, w, id, Draft);
    }
    forall id: string, state: IntentState ensures PendingTo(waiting, id, state) <==> PendingTo(l.waiting, id, state) {
      PendingAppend(l.waiting, w, id, state);
    }
    forall v | v in waiting ensures TailFits(l.server, v) {
      assert v == w || v in l.waiting;
    }
    hide Possible, Coupled, Pending, PendingTo, TailFits;
    SameFactsCouple(c, l, waiting);
  }

  // ---- Creating and validating ----

  function RefusalTail(denial: Denial, nowMs: int): Tail {
    Tail(Rejected, None, nowMs, PolicyCheck, DeniedPayload(denial))
  }

  /** A draft refused by the rules is rejected at once; at rest it holds no row. */
  lemma RefuseCouples(c: Config, l: Live, id: string, denial: Denial, nowMs: int)
    requires Possible(c, l) && Coupled(c, l) && id in l.server.intents && l.server.intents[id].state.Draft?
    ensures var l' := l.(server := Refuse(l.server, id, denial, nowMs).0);
      Possible(c, l') && Coupled(c, l')
  {
    var tail := RefusalTail(denial, nowMs);
    var l' := Live(Write(l.server, id, tail), l.waiting);
    assert Refuse(l.server, id, denial, nowMs).0 == Write(l.server, id, tail);
    WriteFacts(l, l.waiting, id, tail);
    PendingToIsPending(l.waiting, id, Executed);
    PendingToIsPending(l.waiting, id, PolicyValidated);
    var f := FactsOf(l, id);
    assert Plausible(c, f) && Agrees(c, f) && DaysFit(l, id);
    WriteAgrees(c, f, Rejected, f.pending, f.toExecuted, f.toValidated);
    assert RowAllows(f.entry, Rejected, !f.pending);
    WriteGrounded(c, l, l', id);
    assert DaysFit(l', id) by { hide Pending, ValidatedOn; }
    hide Write, FactsOf, Plausible, Agrees, Possible, Coupled, Grounded, DaysFit, Pending, PendingTo, SameElsewhere;
    OneIntentDecides(c, l, l', id);
  }

  lemma SamePendingItself(waiting: seq<Waiting>, id: string)
    ensures SamePending(waiting, waiting, id)
  {
  }

  /** The ledger refuses: nothing changes but that a rejection is pending. */
  lemma RefusalPends(c: Config, l: Live, id: string, tail: Tail)
    requires Possible(c, l) && Coupled(c, l) && id in l.server.intents && tail.state.Rejected?
    ensures var l' := l.(waiting := l.waiting + [Finishing(id, tail)]);
      Possible(c, l') && Coupled(c, l')
  {
    var f := FactsOf(l, id);
    assert Plausible(c, f) && Agrees(c, f);
    SamePendingItself(l.waiting, id);
    PlainTailFits(l.server, id, tail);
    assert l.server.(table := l.server.table) == l.server;
    assert Plausible(c, f.(entry := EntryAt(l.server.table, id), pending := true)) by { hide OwnRow; }
    hide FactsOf, Plausible, Pending, PendingTo, SamePending, TailFits, Coupled, UniqueIds, WithinCap;
    PendCouples(c, l, l.server.table, l.waiting, id, tail);
  }

  /** The ledger reserves: the row is there and the validation pending. */
  lemma ReservationPends(c: Config, l: Live, id: string, rowId: string, nowMs: int, day: string, amount: nat)
    requires Possible(c, l) && Coupled(c, l) && id in l.server.intents && IdFresh(l.server.table, rowId)
    requires l.server.intents[id].state.Draft?
    requires ParseAtomic(l.server.intents[id].body.amount) == Some(amount) && Calendar.DayUtc(nowMs) == Some(day)
    requires SpendTable.Reserve(
      l.server.table, id, rowId, ScopeOf(c, l.server.intents[id].body.token, day), amount, nowMs, CapOf(c)).1.Reserved?
    ensures var table := SpendTable.Reserve(
        l.server.table, id, rowId, ScopeOf(c, l.server.intents[id].body.token, day), amount, nowMs, CapOf(c)).0;
      var l' := Live(l.server.(table := table), l.waiting + [Finishing(id, ValidateTail(c, ReserveResult.Reserved(rowId), nowMs))]);
      Possible(c, l') && Coupled(c, l') && Has(EntryAt(table, id), Status.Reserved)
  {
    var scope := ScopeOf(c, l.server.intents[id].body.token, day);
    var (table, r) := SpendTable.Reserve(l.server.table, id, rowId, scope, amount, nowMs, CapOf(c));
    var tail := ValidateTail(c, ReserveResult.Reserved(rowId), nowMs);
    var f := FactsOf(l, id);
    assert Plausible(c, f) && Agrees(c, f) && f.entry == None;
    ReservedIsUpdate(c, l.server.table, id, rowId, scope, amount, nowMs);
    SamePendingItself(l.waiting, id);
    assert tail.state == PolicyValidated && tail.nowMs == nowMs;
    assert EntryAt(table, id) == Some(Entry(rowId, scope, amount, Status.Reserved, nowMs));
    assert TailFits(l.server.(table := table), Finishing(id, tail)) by { hide Calendar.DayUtc; }
    ReservedPlausible(c, f, Entry(rowId, scope, amount, Status.Reserved, nowMs));
    hide FactsOf, Plausible, Agrees, Pending, PendingTo, SamePending, TailFits, Possible, Coupled, UniqueIds, WithinCap;
    hide ValidateTail, SpendTable.Reserve, IdFresh, ParseAtomic;
    PendCouples(c, l, table, l.waiting, id, tail);
  }

  lemma ReservedPlausible(c: Config, f: Facts, e: Entry)
    requires Plausible(c, f) && Agrees(c, f) && f.entry == None && e.status.Reserved?
    requires ParseAtomic(f.body.amount) == Some(e.amount) && e.scope == ScopeOf(c, f.body.token, e.scope.day)
    ensures !f.executed && !f.toExecuted
    ensures Plausible(c, f.(entry := Some(e), pending := true, toValidated := true))
  {
    hide ParseAtomic, ScopeOf, Matches;
  }

  ghost predicate Suspends(l: Live, l': Live, id: string) {
    |l'.waiting| == |l.waiting| + 1 && l'.waiting[..|l.waiting|] == l.waiting && Adds(l'.waiting[|l.waiting|], id)
    && l'.server == l.server.(table := l'.server.table)
  }

  /** What a validation has done when it awaits the ledger, or when it did not come that far. */
  ghost predicate Started(l: Live, l': Live, id: string) {
    l'.waiting != l.waiting ==>
      id in l.server.intents && l.server.intents[id].state.Draft? && Suspends(l, l', id)
      && var tail := l'.waiting[|l.waiting|].tail;
         (tail.state.PolicyValidated? && Has(EntryAt(l'.server.table, id), Status.Reserved))
         || (tail.state.Rejected? && l'.server.table == l.server.table)
  }

  lemma AwaitReserveCouples(c: Config, l: Live, id: string, rowId: string, nowMs: int, day: string)
    requires Possible(c, l) && Coupled(c, l) && IdFresh(l.server.table, rowId)
    requires id in l.server.intents && l.server.intents[id].state.Draft? && Calendar.DayUtc(nowMs) == Some(day)
    requires AllDigits(l.server.intents[id].body.amount) && AllDigits(c.policy.perDayCapAtomic)
    ensures var l' := AwaitReserve(c, l, id, rowId, nowMs, day);
      Possible(c, l') && Coupled(c, l') && Started(l, l', id)
  {
    var body := l.server.intents[id].body;
    var scope, amount := ScopeOf(c, body.token, day), ValueOf(body.amount);
    assert ParseAtomic(body.amount) == Some(amount) && CapOf(c) == ValueOf(c.policy.perDayCapAtomic);
    var (table, r) := SpendTable.Reserve(l.server.table, id, rowId, scope, amount, nowMs, CapOf(c));
    var tail := ValidateTail(c, r, nowMs);
    var l' := Live(l.server.(table := table), l.waiting + [Finishing(id, tail)]);
    assert AwaitReserve(c, l, id, rowId, nowMs, day) == l' by { hide ValidateTail, SpendTable.Reserve, ValueOf, ScopeOf; }
    ReserveAnswers(c, l.server.table, id, rowId, scope, amount, nowMs);
    StartedMeans(l, l', id, tail);
    hide *;
    if r.Reserved? {
      ReservationPends(c, l, id, rowId, nowMs, day, amount);
    } else {
      RefusalPends(c, l, id, tail);
      assert l.server.(table := l.server.table) == l.server;
    }
  }

  lemma ReserveAnswers(c: Config, t: Table, id: string, rowId: string, scope: Scope, amount: nat, nowMs: int)
    ensures var (table, r) := SpendTable.Reserve(t, id, rowId, scope, amount, nowMs, CapOf(c));
      var tail := ValidateTail(c, r, nowMs);
      if r.Reserved? then tail.state.PolicyValidated? && r == ReserveResult.Reserved(rowId) else tail.state.Rejected? && table == t
  {
    hide Used, CapOf;
  }

  lemma StartedMeans(l: Live, l': Live, id: string, tail: Tail)
    requires id in l.server.intents && l.server.intents[id].state.Draft?
    requires l' == Live(l.server.(table := l'.server.table), l.waiting + [Finishing(id, tail)])
    requires tail.state.PolicyValidated? || (tail.state.Rejected? && l'.server.table == l.server.table)
    ensures (tail.state.PolicyValidated? ==> Has(EntryAt(l'.server.table, id), Status.Reserved)) ==> Started(l, l', id)
  {
    hide EntryAt, Has;
  }

  lemma StartCouples(c: Config, l: Live, id: string, rowId: string, nowMs: int)
    requires Possible(c, l) && Coupled(c, l) && IdFresh(l.server.table, rowId)
    ensures var l' := StartValidate(c, l, id, rowId, nowMs);
      Possible(c, l') && Coupled(c, l') && Started(l, l', id)
  {
    var s := l.server;
    hide Possible, Coupled, AllDigits, Refuse, AwaitReserve, IdFresh;
    hide Calendar.DayUtc;
    if id in s.intents && s.intents[id].state.Draft? {
      var denial := CheckPolicyRules(PolicyRequest(c, id, s.intents[id].body));
      if denial.Some? {
        RefuseCouples(c, l, id, denial.value, nowMs);
      } else if Calendar.DayUtc(nowMs).Some? && AllDigits(c.policy.perDayCapAtomic) {
        AwaitReserveCouples(c, l, id, rowId, nowMs, Calendar.DayUtc(nowMs).value);
      }
    }
  }

  /** A validation whose ledger call nothing interrupts is its two halves in a row. */
  lemma ValidateIsBothHalves(c: Config, l: Live, id: string, rowId: string, nowMs: int)
    ensures var l1 := StartValidate(c, l, id, rowId, nowMs);
      l1 == Next(c, l, BeginValidate(id, rowId, nowMs))
      && Next(c, l, ValidateAtOnce(id, rowId, nowMs))
        == if l1.waiting == l.waiting then l1 else Next(c, l1, Finish(|l.waiting|))
  {
    hide CheckPolicyRules, AllDigits, ValueOf, Used, DeniedPayload, ValidatedPayload;
    hide Calendar.DayUtc;
    var l1 := StartValidate(c, l, id, rowId, nowMs);
    if l1.waiting != l.waiting {
      var w := l1.waiting[|l.waiting|];
      LastRemoved(l.waiting, w);
      assert l1.waiting == l.waiting + [w];
      hide Without;
    }
  }

  lemma LastRemoved(waiting: seq<Waiting>, w: Waiting)
    ensures Without(waiting + [w], |waiting|) == waiting && (waiting + [w])[|waiting|] == w
  {
  }

  lemma FinishUnfold(c: Config, l: Live, i: nat)
    requires i < |l.waiting| && l.waiting[i].Finishing?
    ensures Next(c, l, Finish(i)) == Live(Write(l.server, l.waiting[i].id, l.waiting[i].tail), Without(l.waiting, i))
  {
    hide Write, Without;
  }

  lemma SuspendsMeans(l: Live, l': Live, id: string)
    requires Suspends(l, l', id)
    ensures l'.waiting == l.waiting + [Finishing(id, l'.waiting[|l.waiting|].tail)]
  {
  }

  lemma AtOnceCouples(c: Config, l: Live, id: string, rowId: string, nowMs: int)
    requires Possible(c, l) && Coupled(c, l) && IdFresh(l.server.table, rowId)
    ensures var l' := Next(c, l, ValidateAtOnce(id, rowId, nowMs));
      Possible(c, l') && Coupled(c, l')
  {
    var l1, n := StartValidate(c, l, id, rowId, nowMs), |l.waiting|;
    StartCouples(c, l, id, rowId, nowMs);
    ValidateIsBothHalves(c, l, id, rowId, nowMs);
    hide *;
    if l1.waiting != l.waiting {
      SuspendsMeans(l, l1, id);
      FinishUnfold(c, l1, n);
      RefusedDraftHasNoRow(c, l, id);
      FirstWriteCouples(c, l, l1, id, l1.waiting[n].tail);
    }
  }

  lemma RefusedDraftHasNoRow(c: Config, l: Live, id: string)
    requires Possible(c, l) && id in l.server.intents && l.server.intents[id].state.Draft?
    ensures !Pending(l.waiting, id) ==> EntryAt(l.server.table, id) == None
  {
    hide Pending, PendingTo, WasExecuted, DaysFit, UniqueIds, WithinCap, TailFits;
    assert Plausible(c, FactsOf(l, id));
  }

  lemma FirstWriteCouples(c: Config, l: Live, l1: Live, id: string, tail: Tail)
    requires Possible(c, l1) && Coupled(c, l1) && l1.waiting == l.waiting + [Finishing(id, tail)]
    requires !Pending(l.waiting, id) ==> EntryAt(l.server.table, id) == None
    requires (tail.state.PolicyValidated? && Has(EntryAt(l1.server.table, id), Status.Reserved))
      || (tail.state.Rejected? && l1.server.table == l.server.table)
    ensures var l' := Live(Write(l1.server, id, tail), Without(l1.waiting, |l.waiting|));
      Possible(c, l') && Coupled(c, l')
  {
    var n := |l.waiting|;
    LastRemoved(l.waiting, Finishing(id, tail));
    assert l1.waiting[n] == Finishing(id, tail) && TailFits(l1.server, l1.waiting[n]);
    assert RowAllows(EntryAt(l1.server.table, id), tail.state, !Pending(l.waiting, id));
    hide *;
    WriteCouples(c, l1, n, tail);
  }

  lemma CreateCouples(c: Config, l: Live, upload: Upload, newId: string, nowMs: int)
    requires Possible(c, l) && Coupled(c, l) && newId !in l.server.intents
    ensures var l' := Next(c, l, CreateAtOnce(upload, newId, nowMs));
      Possible(c, l') && Coupled(c, l')
  {
    if upload.Parsed? && ParseBody(upload.tree).Some? {
      var body := ParseBody(upload.tree).value;
      DraftCouples(c, l, newId, body, nowMs, CreatedPayload(body));
    }
    hide Possible, Coupled, ParseBody, CreatedPayload, Record;
  }

  lemma DraftCouples(c: Config, l: Live, newId: string, body: IntentBody, nowMs: int, payload: Tree)
    requires Possible(c, l) && Coupled(c, l) && newId !in l.server.intents
    ensures var l' := l.(server := Record(l.server, newId, Intent(Draft, body, nowMs, nowMs, None), nowMs, Creation, payload));
      Possible(c, l') && Coupled(c, l')
  {
    var s := l.server;
    var intent := Intent(Draft, body, nowMs, nowMs, None);
    var l' := l.(server := Record(s, newId, intent, nowMs, Creation, payload));
    NewIsBlank(c, l, newId);
    BlankAgrees(c, body);
    DraftElsewhere(l, newId, intent, nowMs, payload);
    TraceGrows(s, newId, intent, nowMs, Creation, payload, newId, "");
    forall day: string ensures !ValidatedOn(l'.server, newId, day) {
      TraceGrows(s, newId, intent, nowMs, Creation, payload, newId, day);
    }
    NewDays(l', newId);
    DraftGrounded(c, l, newId, intent, nowMs, payload);
    hide WasExecuted, ValidatedOn, Pending, PendingTo, Possible, Coupled, Grounded, SameElsewhere, DaysFit, Plausible, Agrees;
    hide Calendar.DayUtc;
    assert FactsOf(l', newId) == Facts(Draft, body, None, false, false, false, false);
    OneIntentDecides(c, l, l', newId);
  }

  lemma DraftElsewhere(l: Live, newId: string, intent: Intent, nowMs: int, payload: Tree)
    requires newId !in l.server.intents
    ensures SameElsewhere(l, l.(server := Record(l.server, newId, intent, nowMs, Creation, payload)), newId)
  {
    var s := l.server;
    var l' := l.(server := Record(s, newId, intent, nowMs, Creation, payload));
    SamePendingItself(l.waiting, newId);
    forall k | k != newId
      ensures k in s.intents ==> FactsOf(l', k) == FactsOf(l, k)
      ensures DaysFit(l, k) ==> DaysFit(l', k)
    {
      TraceGrows(s, newId, intent, nowMs, Creation, payload, k, "");
      forall day: string ensures ValidatedOn(l'.server, k, day) <==> ValidatedOn(s, k, day) {
        TraceGrows(s, newId, intent, nowMs, Creation, payload, k, day);
      }
      FactsElsewhere(l, l', newId, k) by { hide WasExecuted, ValidatedOn, SamePending; }
    }
    hide Record, FactsOf, DaysFit;
  }

  lemma DraftGrounded(c: Config, l: Live, newId: string, intent: Intent, nowMs: int, payload: Tree)
    requires Possible(c, l)
    ensures Grounded(c, l.(server := Record(l.server, newId, intent, nowMs, Creation, payload)))
  {
    hide UniqueIds, WithinCap, Plausible, FactsOf, DaysFit;
    hide Calendar.DayUtc;
  }

  lemma NewIsBlank(c: Config, l: Live, newId: string)
    requires Possible(c, l) && newId !in l.server.intents
    ensures newId !in l.server.table && !WasExecuted(l.server, newId) && forall day: string :: !ValidatedOn(l.server, newId, day)
    ensures !Pending(l.waiting, newId) && forall state: IntentState :: !PendingTo(l.waiting, newId, state)
  {
    hide Plausible, FactsOf, DaysFit, UniqueIds, WithinCap;
    hide Calendar.DayUtc;
  }

  lemma BlankAgrees(c: Config, body: IntentBody)
    ensures var f := Facts(Draft, body, None, false, false, false, false);
      Plausible(c, f) && Agrees(c, f)
  {
  }

  lemma NewDays(l: Live, id: string)
    requires id !in l.server.table && forall day: string :: !ValidatedOn(l.server, id, day)
    ensures DaysFit(l, id)
  {
  }

  // ---- Exactly which turns and which schedules stay coupled ----

  /** Minted intent ids and row ids are new. */
  ghost predicate FreshTurn(l: Live, t: Turn) {
    match t
    case CreateAtOnce(_, newId, _) => newId !in l.server.intents
    case ValidateAtOnce(_, rowId, _) => IdFresh(l.server.table, rowId)
    case BeginValidate(_, rowId, _) => IdFresh(l.server.table, rowId)
    case _ => true
  }

  ghost predicate Sound(c: Config, l: Live) {
    Possible(c, l) && Coupled(c, l)
  }

  lemma FinishChecks(l: Live, i: nat)
    requires i < |l.waiting| && l.waiting[i].Finishing?
    ensures var w := l.waiting[i];
      Checks(l, Finish(i)) <==> RowAllows(EntryAt(l.server.table, w.id), w.tail.state, !Pending(Without(l.waiting, i), w.id))
  {
    hide RowAllows, EntryAt, Pending, Without;
  }

  lemma FinishCouples(c: Config, l: Live, i: nat)
    requires Sound(c, l) && i < |l.waiting| && l.waiting[i].Finishing?
    ensures var l' := Next(c, l, Finish(i));
      Possible(c, l') && (Coupled(c, l') <==> Checks(l, Finish(i)))
  {
    var w := l.waiting[i];
    assert TailFits(l.server, w) && w == Finishing(w.id, w.tail);
    hide *;
    SoundParts(c, l);
    FinishUnfold(c, l, i);
    FinishChecks(l, i);
    WriteCouples(c, l, i, w.tail);
  }

  lemma SoundParts(c: Config, l: Live)
    ensures Sound(c, l) <==> Possible(c, l) && Coupled(c, l)
  {
    hide Possible, Coupled;
  }

  lemma ValidatedHasRow(c: Config, l: Live, id: string)
    requires Possible(c, l) && id in l.server.intents
    ensures !l.server.intents[id].state.AcceptedByNode?
    ensures l.server.intents[id].state.PolicyValidated? ==> id in l.server.table
  {
    hide Pending, PendingTo, WasExecuted, DaysFit, UniqueIds, WithinCap, TailFits;
    assert Plausible(c, FactsOf(l, id));
  }

  /** One turn from a sound state stays coupled exactly when it passes the check; the rest is kept in any case. */
  lemma TurnCouplesExactly(c: Config, l: Live, t: Turn)
    requires Sound(c, l) && FreshTurn(l, t)
    ensures Possible(c, Next(c, l, t))
    ensures Coupled(c, Next(c, l, t)) <==> Checks(l, t)
  {
    hide Possible, Coupled;
    match t
    case CreateAtOnce(upload, newId, nowMs) =>
      CreateCouples(c, l, upload, newId, nowMs);
      hide Next;
    case ValidateAtOnce(id, rowId, nowMs) =>
      AtOnceCouples(c, l, id, rowId, nowMs);
      hide Next;
    case BeginValidate(id, rowId, nowMs) =>
      StartCouples(c, l, id, rowId, nowMs);
      hide StartValidate;
    case BeginMark(id) =>
      if MarkMayBegin(l.server, id) {
        ValidatedHasRow(c, l, id);
        SuspendCouples(c, l, Marking(id));
      }
    case BeginConfirm(id, hash) =>
      if id in l.server.intents && l.server.intents[id].state.PolicyValidated? {
        ValidatedHasRow(c, l, id);
        SuspendCouples(c, l, Confirming(id, hash));
      }
      hide IsLowerHex;
    case BeginReject(id) =>
      if id in l.server.intents { SuspendCouples(c, l, Rejecting(id)); }
    case Resume(i, answer, nowMs) =>
      if i < |l.waiting| && !l.waiting[i].Finishing? { ResumeCouples(c, l, i, answer, nowMs); }
      hide Act, ActionOf, RowAllows;
    case Finish(i) =>
      if i < |l.waiting| && l.waiting[i].Finishing? { FinishCouples(c, l, i); }
      hide Write, RowAllows;
  }

  ghost predicate FreshTurns(c: Config, l: Live, turns: seq<Turn>)
    decreases |turns|
  {
    turns == [] || (FreshTurn(l, turns[0]) && FreshTurns(c, Next(c, l, turns[0]), turns[1..]))
  }

  ghost predicate CoupledThroughout(c: Config, l: Live, turns: seq<Turn>)
    decreases |turns|
  {
    Coupled(c, l) && (turns == [] || CoupledThroughout(c, Next(c, l, turns[0]), turns[1..]))
  }

  ghost predicate CheckedThroughout(c: Config, l: Live, turns: seq<Turn>)
    decreases |turns|
  {
    turns == [] || (Checks(l, turns[0]) && CheckedThroughout(c, Next(c, l, turns[0]), turns[1..]))
  }

  /**
   * A schedule keeps every intent coupled wherever it comes to rest, and no execution on the
   * trace without a committed row, exactly when every write after an await is allowed by the row.
   */
  lemma {:induction false} ScheduleCouplesExactly(c: Config, l: Live, turns: seq<Turn>)
    requires Sound(c, l) && FreshTurns(c, l, turns)
    ensures CoupledThroughout(c, l, turns) <==> CheckedThroughout(c, l, turns)
    decreases |turns|
  {
    if turns != [] {
      TurnCouplesExactly(c, l, turns[0]);
      hide Coupled, Possible, Next, Checks, FreshTurn;
      if Checks(l, turns[0]) {
        ScheduleCouplesExactly(c, Next(c, l, turns[0]), turns[1..]);
      }
    }
  }

  const IDLE: Live := Live(EMPTY, [])

  lemma IdleIsSound(c: Config)
    ensures Sound(c, IDLE)
  {
    EmptyIsTold(c);
    hide WithinCap;
  }

  /** The same for every schedule from an empty store. */
  lemma EveryScheduleCouplesExactly(c: Config, turns: seq<Turn>)
    requires FreshTurns(c, IDLE, turns)
    ensures CoupledThroughout(c, IDLE, turns) <==> CheckedThroughout(c, IDLE, turns)
  {
    IdleIsSound(c);
    ScheduleCouplesExactly(c, IDLE, turns);
  }
}
