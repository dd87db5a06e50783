/** What runs of ticks record: first_seen_at, the local tag, and link events. */
module SyncHistory {
  import opened Prelude
  import opened Mirror
  import opened Sync

  /** No payload changes a local tag or gives a new account one. */
  lemma {:induction false} TaxBucketUntouched(table: map<Id, AccountRow>, rows: seq<Account>, id: Id)
    requires id in Upserted(table, rows, AccountKey, MergeAccount)
    ensures Upserted(table, rows, AccountKey, MergeAccount)[id].taxBucket ==
            if id in table then table[id].taxBucket else None
  {
    if rows != [] {
      var init := rows[..|rows| - 1];
      if id in Upserted(table, init, AccountKey, MergeAccount) {
        TaxBucketUntouched(table, init, id);
      } else {
        UpsertedKeys(table, init, AccountKey, MergeAccount);
      }
    }
  }

  // ---- Committed histories

  /** A committed tick; lost when the process died before its caller saw the result. */
  datatype Commit = Commit(rows: Rows, knowledge: int, at: Time, lost: bool)

  function Replay(log: seq<Commit>): Plan {
    if log == [] then EMPTY_PLAN
    else var c := log[|log| - 1]; Applied(Replay(log[..|log| - 1]), c.rows, c.knowledge, c.at)
  }

  datatype TickEvent = TickEvent(reply: Reply, at: Time, fate: Fate)

  function PlanOfRun(es: seq<TickEvent>): Plan {
    if es == [] then EMPTY_PLAN
    else
      var e := es[|es| - 1];
      PlanAfter(PlanOfRun(es[..|es| - 1]), e.reply, BatchOf(e.reply), e.at, e.fate)
  }

  function CommitsOf(es: seq<TickEvent>): seq<Commit> {
    if es == [] then []
    else
      var e := es[|es| - 1];
      var log := CommitsOf(es[..|es| - 1]);
      if e.reply.Fetched? && Commits(e.fate)
      then log + [Commit(Mapped(e.reply.detail), e.reply.knowledge, e.at, e.fate.CrashAfterCommit?)]
      else log
  }

  /** Failed, skipped and rolled back ticks leave no trace: a plan is the replay of its committed ticks. */
  lemma {:induction false} RunIsReplay(es: seq<TickEvent>)
    ensures PlanOfRun(es) == Replay(CommitsOf(es))
    ensures PlanOfRun(es).cursor.None? <==> CommitsOf(es) == []
  {
    if es != [] {
      var init := es[..|es| - 1];
      RunIsReplay(init);
      var log := CommitsOf(es);
      if log != CommitsOf(init) {
        assert log[..|log| - 1] == CommitsOf(init);
      }
    }
  }

  // ---- first_seen_at

  datatype Mention = Mention(at: Time, imported: bool)

  /** The history after a batch: one more mention if the batch has the transaction. */
  ghost function Extended(h: seq<Mention>, rows: seq<Txn>, at: Time, id: Id): seq<Mention> {
    if Mentions(rows, TxnKey, id)
    then var i :| 0 <= i < |rows| && TxnKey(rows[i]) == id; h + [Mention(at, rows[i].importId.Some?)]
    else h
  }

  /** The ticks that wrote transaction id, and whether each gave it an import_id. */
  ghost function MentionsOf(log: seq<Commit>, id: Id): seq<Mention> {
    if log == [] then []
    else var c := log[|log| - 1]; Extended(MentionsOf(log[..|log| - 1], id), c.rows.txns, c.at, id)
  }

  /** Insertion, or import_id turning from NULL to a value. */
  predicate Resets(h: seq<Mention>, i: nat)
    requires i < |h|
  {
    i == 0 || (!h[i - 1].imported && h[i].imported)
  }

  ghost predicate LatestReset(h: seq<Mention>, i: nat) {
    i < |h| && Resets(h, i) && forall j :: i < j < |h| ==> !Resets(h, j)
  }

  ghost predicate FirstSeenMatches(table: map<Id, TxnRow>, id: Id, h: seq<Mention>) {
    && (id in table <==> h != [])
    && (id in table ==>
          && table[id].txn.importId.Some? == h[|h| - 1].imported
          && exists i: nat :: LatestReset(h, i) && table[id].firstSeenAt == h[i].at)
  }

  /** One more mention that is not a reset leaves the latest reset where it was. */
  lemma {:induction false} LatestStays(h: seq<Mention>, m: Mention, j: nat)
    requires LatestReset(h, j) && !Resets(h + [m], |h|)
    ensures LatestReset(h + [m], j)
  {
    var h' := h + [m];
    assert Resets(h, j) ==> Resets(h', j);
    forall k | j < k < |h'| ensures !Resets(h', k) {
      if k < |h| { assert !Resets(h, k); }
    }
  }

  lemma {:induction false} MentionExtends(table: map<Id, TxnRow>, t: Txn, at: Time, h: seq<Mention>)
    requires FirstSeenMatches(table, t.id, h)
    ensures FirstSeenMatches(table[t.id := MergeTxn(at)(Get(table, t.id), t)], t.id,
                             h + [Mention(at, t.importId.Some?)])
  {
    var m := Mention(at, t.importId.Some?);
    var h' := h + [m];
    if Resets(h', |h|) {
      assert LatestReset(h', |h|);
    } else {
      var j: nat :| LatestReset(h, j) && table[t.id].firstSeenAt == h[j].at;
      LatestStays(h, m, j);
      assert h'[j] == h[j];
    }
  }

  lemma {:induction false} FirstSeenStep(table: map<Id, TxnRow>, rows: seq<Txn>, at: Time, id: Id, h: seq<Mention>)
    requires Distinct(rows, TxnKey) && FirstSeenMatches(table, id, h)
    ensures FirstSeenMatches(Upserted(table, rows, TxnKey, MergeTxn(at)), id, Extended(h, rows, at, id))
  {
    UpsertedDistinct(table, rows, TxnKey, MergeTxn(at));
    var after := Upserted(table, rows, TxnKey, MergeTxn(at));
    if Mentions(rows, TxnKey, id) {
      var i :| 0 <= i < |rows| && TxnKey(rows[i]) == id
               && Extended(h, rows, at, id) == h + [Mention(at, rows[i].importId.Some?)];
      assert Get(after, TxnKey(rows[i])) == Some(MergeTxn(at)(Get(table, id), rows[i]));
      MentionExtends(table, rows[i], at, h);
    } else {
      assert Get(after, id) == Get(table, id);
    }
  }

  /** first_seen_at is the tick of the latest null-to-set change of import_id, or of insertion if there was none. */
  lemma {:induction false} FirstSeenIsLatestReset(log: seq<Commit>, id: Id)
    requires forall c :: c in log ==> Distinct(c.rows.txns, TxnKey)
    ensures FirstSeenMatches(Replay(log).txns, id, MentionsOf(log, id))
  {
    if log != [] {
      var c := log[|log| - 1];
      FirstSeenIsLatestReset(log[..|log| - 1], id);
      FirstSeenStep(Replay(log[..|log| - 1]).txns, c.rows.txns, c.at, id, MentionsOf(log[..|log| - 1], id));
    }
  }

  // ---- Link events

  /** The flags of the events for one account, in order. */
  function FlagsFor(events: seq<LinkEvent>, id: Id): seq<bool> {
    if events == [] then []
    else
      var e := events[|events| - 1];
      var before := FlagsFor(events[..|events| - 1], id);
      if e.accountId == id then before + [e.inError] else before
  }

  /** The events of the last tick of a log; the initial load emits none. */
  function EventsAt(log: seq<Commit>): seq<LinkEvent>
    requires log != []
  {
    if |log| == 1 then [] else EventsOf(Replay(log[..|log| - 1]).accounts, log[|log| - 1].rows.accounts)
  }

  /** All transitions the ticks computed for an account, delivered or lost. */
  function Transitions(log: seq<Commit>, id: Id): seq<bool> {
    if log == [] then [] else Transitions(log[..|log| - 1], id) + FlagsFor(EventsAt(log), id)
  }

  /** The transitions whose tick returned to its caller. */
  function Delivered(log: seq<Commit>, id: Id): seq<bool> {
    if log == [] then []
    else Delivered(log[..|log| - 1], id) + if log[|log| - 1].lost then [] else FlagsFor(EventsAt(log), id)
  }

  /** The events that an outcome hands to the caller of a tick. */
  function EventsIn(out: Outcome): seq<LinkEvent> { if out.Done? then out.events else [] }

  function Returned(p: Plan, e: TickEvent): seq<LinkEvent> { EventsIn(OutcomeOf(p, e.reply, BatchOf(e.reply), e.fate)) }

  /** All transitions of an account that the callers of a run of ticks are handed. */
  function Reported(es: seq<TickEvent>, id: Id): seq<bool> {
    if es == [] then []
    else Reported(es[..|es| - 1], id) + FlagsFor(Returned(PlanOfRun(es[..|es| - 1]), es[|es| - 1]), id)
  }

  lemma {:induction false} EventsInOutcome(p: Plan, reply: Reply, b: Rows, fate: Fate)
    ensures EventsIn(OutcomeOf(p, reply, b, fate)) ==
            if reply.Fetched? && Commits(fate) && !fate.CrashAfterCommit? && p.cursor.Some?
            then EventsOf(p.accounts, b.accounts) else []
  {
  }

  lemma {:induction false} DeliveredGrows(log: seq<Commit>, c: Commit, id: Id)
    ensures Delivered(log + [c], id) ==
            Delivered(log, id) +
            if c.lost || log == [] then [] else FlagsFor(EventsOf(Replay(log).accounts, c.rows.accounts), id)
  {
    assert (log + [c])[..|log|] == log;
    assert FlagsFor([], id) == [];
  }

  /** What callers are handed is what the committed, not lost, ticks computed. */
  lemma {:induction false} ReportedIsDelivered(es: seq<TickEvent>, id: Id)
    ensures Reported(es, id) == Delivered(CommitsOf(es), id)
  {
    if es != [] {
      var init, e := es[..|es| - 1], es[|es| - 1];
      ReportedIsDelivered(init, id);
      RunIsReplay(init);
      ReportStep(PlanOfRun(init), CommitsOf(init), e, BatchOf(e.reply), id);
    }
  }

  lemma {:induction false} ReportStep(p: Plan, log: seq<Commit>, e: TickEvent, b: Rows, id: Id)
    requires p == Replay(log) && (p.cursor.None? <==> log == [])
    ensures Delivered(log, id) + FlagsFor(EventsIn(OutcomeOf(p, e.reply, b, e.fate)), id) ==
            Delivered(if e.reply.Fetched? && Commits(e.fate)
                      then log + [Commit(b, e.reply.knowledge, e.at, e.fate.CrashAfterCommit?)] else log, id)
  {
    EventsInOutcome(p, e.reply, b, e.fate);
    if e.reply.Fetched? && Commits(e.fate) {
      DeliveredGrows(log, Commit(b, e.reply.knowledge, e.at, e.fate.CrashAfterCommit?), id);
    } else {
      assert Delivered(log, id) + [] == Delivered(log, id);
    }
  }

  ghost predicate NeverTombstoned(log: seq<Commit>, id: Id) {
    forall c, i :: c in log && 0 <= i < |c.rows.accounts| && c.rows.accounts[i].id == id ==> !c.rows.accounts[i].deleted
  }

  lemma {:induction false} NoEventUnmentioned(accounts: map<Id, AccountRow>, incoming: seq<Account>, id: Id)
    requires !Mentions(incoming, AccountKey, id)
    ensures FlagsFor(EventsOf(accounts, incoming), id) == []
  {
    if incoming != [] {
      var init := incoming[..|incoming| - 1];
      assert AccountKey(incoming[|incoming| - 1]) != id;
      forall i | 0 <= i < |init| ensures AccountKey(init[i]) != id {
        assert AccountKey(incoming[i]) != id;
      }
      NoEventUnmentioned(accounts, init, id);
      var es := EventsOf(accounts, incoming);
      if Flips(accounts, incoming[|incoming| - 1]) {
        assert es[..|es| - 1] == EventsOf(accounts, init);
      }
    }
  }

  /** With unique ids a batch gives an account at most one event: a flip of the mirrored flag. */
  lemma {:induction false} OneEventPerAccount(accounts: map<Id, AccountRow>, incoming: seq<Account>, i: nat)
    requires Distinct(incoming, AccountKey) && i < |incoming|
    ensures FlagsFor(EventsOf(accounts, incoming), incoming[i].id) ==
            if Flips(accounts, incoming[i]) then [incoming[i].inError] else []
  {
    var init := incoming[..|incoming| - 1];
    var a := incoming[|incoming| - 1];
    var id := incoming[i].id;
    if i == |init| {
      forall j | 0 <= j < |init| ensures AccountKey(init[j]) != id {
        assert AccountKey(incoming[j]) != AccountKey(incoming[i]);
      }
      NoEventUnmentioned(accounts, init, id);
    } else {
      OneEventPerAccount(accounts, init, i);
      assert AccountKey(incoming[i]) != AccountKey(a);
    }
    var es := EventsOf(accounts, incoming);
    if Flips(accounts, a) {
      assert es[..|es| - 1] == EventsOf(accounts, init);
    }
  }

  predicate Alternates(base: bool, flags: seq<bool>) {
    forall i :: 0 <= i < |flags| ==> flags[i] == ((i % 2 == 0) != base)
  }

  /** The mirrored flag an alternating sequence leaves behind. */
  function FlagAfter(base: bool, flags: seq<bool>): bool {
    if flags == [] then base else flags[|flags| - 1]
  }

  lemma {:induction false} AlternatesOneMore(base: bool, flags: seq<bool>, flag: bool)
    requires Alternates(base, flags) && FlagAfter(base, flags) != flag
    ensures Alternates(base, flags + [flag]) && FlagAfter(base, flags + [flag]) == flag
  {
  }

  lemma {:induction false} TransitionStep(accounts: map<Id, AccountRow>, incoming: seq<Account>, id: Id,
          base: bool, flags: seq<bool>)
    requires Distinct(incoming, AccountKey)
    requires forall i :: 0 <= i < |incoming| && incoming[i].id == id ==> !incoming[i].deleted
    requires Alternates(base, flags) && PriorFlag(accounts, id) == FlagAfter(base, flags)
    ensures var all := flags + FlagsFor(EventsOf(accounts, incoming), id);
            && Alternates(base, all)
            && PriorFlag(Upserted(accounts, incoming, AccountKey, MergeAccount), id) == FlagAfter(base, all)
  {
    UpsertedDistinct(accounts, incoming, AccountKey, MergeAccount);
    var after := Upserted(accounts, incoming, AccountKey, MergeAccount);
    if Mentions(incoming, AccountKey, id) {
      var i :| 0 <= i < |incoming| && AccountKey(incoming[i]) == id;
      var a := incoming[i];
      OneEventPerAccount(accounts, incoming, i);
      if Flips(accounts, a) {
        AlternatesOneMore(base, flags, a.inError);
      } else {
        assert flags + [] == flags;
      }
      assert Get(after, AccountKey(incoming[i])) == Some(MergeAccount(Get(accounts, id), incoming[i]));
    } else {
      NoEventUnmentioned(accounts, incoming, id);
      assert flags + [] == flags;
      assert Get(after, id) == Get(accounts, id);
    }
  }

  /** Transitions of a never-tombstoned account alternate from its baseline, and the last one is the mirrored flag. */
  lemma {:induction false} TransitionsAlternate(log: seq<Commit>, id: Id)
    requires log != [] && NeverTombstoned(log, id)
    requires forall c :: c in log ==> Distinct(c.rows.accounts, AccountKey)
    ensures Alternates(PriorFlag(Replay(log[..1]).accounts, id), Transitions(log, id))
    ensures PriorFlag(Replay(log).accounts, id) ==
            FlagAfter(PriorFlag(Replay(log[..1]).accounts, id), Transitions(log, id))
  {
    var init := log[..|log| - 1];
    if |log| == 1 {
      assert log[..1] == log && init == [];
      assert Transitions(log, id) == Transitions([], id) + FlagsFor([], id);
    } else {
      assert init[..1] == log[..1];
      TransitionsAlternate(init, id);
      var c := log[|log| - 1];
      assert c in log;
      TransitionStep(Replay(init).accounts, c.rows.accounts, id, PriorFlag(Replay(log[..1]).accounts, id),
                     Transitions(init, id));
    }
  }

  ghost predicate LosesTransition(log: seq<Commit>, id: Id, n: nat) {
    0 < n <= |log| && log[n - 1].lost && FlagsFor(EventsAt(log[..n]), id) != []
  }

  ghost predicate LosesNothing(log: seq<Commit>, id: Id) { forall n: nat :: !LosesTransition(log, id, n) }

  lemma {:induction false} LosesNothingStep(log: seq<Commit>, id: Id)
    requires log != []
    ensures LosesNothing(log, id) <==>
            LosesNothing(log[..|log| - 1], id) && !(log[|log| - 1].lost && FlagsFor(EventsAt(log), id) != [])
  {
    var init := log[..|log| - 1];
    assert log[..|log|] == log;
    forall n: nat | n < |log| ensures LosesTransition(log, id, n) <==> LosesTransition(init, id, n) {
      if n > 0 { assert init[..n] == log[..n]; }
    }
    assert LosesTransition(log, id, |log|) <==> log[|log| - 1].lost && FlagsFor(EventsAt(log), id) != [];
    if LosesNothing(init, id) && !LosesTransition(log, id, |log|) {
      forall n: nat ensures !LosesTransition(log, id, n) {
        if n < |log| { assert !LosesTransition(init, id, n); }
      }
    }
    if LosesNothing(log, id) {
      forall n: nat ensures !LosesTransition(init, id, n) {
        if n < |log| { assert !LosesTransition(log, id, n); }
      }
    }
  }

  lemma {:induction false} SuffixCancels(d: seq<bool>, t: seq<bool>, last: seq<bool>, lost: bool)
    requires |d| <= |t|
    ensures d + (if lost then [] else last) == t + last <==> d == t && !(lost && last != [])
  {
    if lost {
      assert d + [] == d;
    } else if d + last == t + last {
      assert |d| == |t| && d == (d + last)[..|d|] && t == (t + last)[..|t|];
    }
  }

  /** Callers see every transition exactly when no tick that flipped the account died between COMMIT and returning. */
  lemma {:induction false} DeliveredIffNoneLost(log: seq<Commit>, id: Id)
    ensures |Delivered(log, id)| <= |Transitions(log, id)|
    ensures Delivered(log, id) == Transitions(log, id) <==> LosesNothing(log, id)
  {
    if log != [] {
      var init := log[..|log| - 1];
      DeliveredIffNoneLost(init, id);
      LosesNothingStep(log, id);
      SuffixCancels(Delivered(init, id), Transitions(init, id), FlagsFor(EventsAt(log), id), log[|log| - 1].lost);
    }
  }

  /** One tick whose payload holds nothing but this account. */
  function AccountTick(a: Account, knowledge: int, fate: Fate): TickEvent {
    TickEvent(Fetched(NO_DETAIL.(accounts := [a]), knowledge), 0, fate)
  }

  lemma {:induction false} AccountTickApplies(p: Plan, a: Account, knowledge: int, fate: Fate)
    requires Commits(fate)
    ensures var reply := AccountTick(a, knowledge, fate).reply;
            var q := PlanAfter(p, reply, BatchOf(reply), 0, fate);
            && q.accounts == p.accounts[a.id := MergeAccount(Get(p.accounts, a.id), a)] && q.cursor.Some?
    ensures Returned(p, AccountTick(a, knowledge, fate)) ==
            if fate.CrashAfterCommit? || p.cursor.None? || !Flips(p.accounts, a)
            then [] else [LinkEvent(a.id, a.name, a.inError)]
  {
    assert [a][..0] == [];
    assert Upserted(p.accounts, [a], AccountKey, MergeAccount) ==
           p.accounts[a.id := MergeAccount(Get(p.accounts, a.id), a)];
    assert EventsOf(p.accounts, []) == [];
    var none: seq<LinkEvent> := [];
    assert none + [LinkEvent(a.id, a.name, a.inError)] == [LinkEvent(a.id, a.name, a.inError)];
  }

  lemma {:induction false} RunSnoc(es: seq<TickEvent>, e: TickEvent, id: Id)
    ensures PlanOfRun(es + [e]) == PlanAfter(PlanOfRun(es), e.reply, BatchOf(e.reply), e.at, e.fate)
    ensures Reported(es + [e], id) == Reported(es, id) + FlagsFor(Returned(PlanOfRun(es), e), id)
  {
    assert (es + [e])[..|es|] == es;
  }

  /** A tick that hands out no event for the account it brings. */
  lemma {:induction false} SilentTick(es: seq<TickEvent>, a: Account, knowledge: int, fate: Fate)
    requires Commits(fate) && Reported(es, a.id) == []
    requires fate.CrashAfterCommit? || PlanOfRun(es).cursor.None? || !Flips(PlanOfRun(es).accounts, a)
    ensures var more := es + [AccountTick(a, knowledge, fate)];
            && Reported(more, a.id) == [] && PlanOfRun(more).cursor.Some?
            && PriorFlag(PlanOfRun(more).accounts, a.id) == a.inError
  {
    AccountTickApplies(PlanOfRun(es), a, knowledge, fate);
    RunSnoc(es, AccountTick(a, knowledge, fate), a.id);
    assert FlagsFor([], a.id) == [];
  }

  /** An account breaks in a tick that dies after COMMIT: the mirror holds the flag, and no caller ever hears of it,
      not even when the next tick delivers the account again. */
  lemma {:induction false} TransitionLost(a: Account)
    requires !a.deleted && !a.inError
    ensures var broken := a.(inError := true);
            var es := [] + [AccountTick(a, 1, Completes)] + [AccountTick(broken, 2, CrashAfterCommit)]
                      + [AccountTick(broken, 2, Completes)];
            PriorFlag(PlanOfRun(es).accounts, a.id) && Reported(es, a.id) == []
  {
    var broken := a.(inError := true);
    var r0: seq<TickEvent> := [];
    SilentTick(r0, a, 1, Completes);
    var r1 := r0 + [AccountTick(a, 1, Completes)];
    SilentTick(r1, broken, 2, CrashAfterCommit);
    SilentTick(r1 + [AccountTick(broken, 2, CrashAfterCommit)], broken, 2, Completes);
  }
}
