/** Re-applying a batch after a crash: exactly when it changes nothing. */
module SyncReplay {
  import opened Prelude
  import opened Mirror
  import opened Sync

  // ---- Tables whose rows are replaced

  lemma {:induction false} ReplaceTwice<K(!new), R>(table: map<K, R>, rows: seq<R>, key: R -> K)
    ensures Upserted(Upserted(table, rows, key, Replace), rows, key, Replace) == Upserted(table, rows, key, Replace)
  {
    var once := Upserted(table, rows, key, Replace);
    var twice := Upserted(once, rows, key, Replace);
    forall k ensures Get(twice, k) == Get(once, k) {
      UpsertedReplaces(once, table, rows, key, k);
    }
    MapsEqual(twice, once);
  }

  lemma {:induction false} AccountsTwice(table: map<Id, AccountRow>, rows: seq<Account>)
    ensures Upserted(Upserted(table, rows, AccountKey, MergeAccount), rows, AccountKey, MergeAccount) ==
            Upserted(table, rows, AccountKey, MergeAccount)
  {
    var once := Upserted(table, rows, AccountKey, MergeAccount);
    var twice := Upserted(once, rows, AccountKey, MergeAccount);
    forall k ensures Get(twice, k) == Get(once, k) {
      UpsertedViews(once, table, rows, AccountKey, MergeAccount, MergeAccount, AccountOf, k);
      if k in once && k in twice { KeepsBucket(once, rows, k); }
    }
    MapsEqual(twice, once);
  }

  /** A row that is there keeps its local tag. */
  lemma {:induction false} KeepsBucket(table: map<Id, AccountRow>, rows: seq<Account>, id: Id)
    requires id in table
    ensures id in Upserted(table, rows, AccountKey, MergeAccount)
    ensures Upserted(table, rows, AccountKey, MergeAccount)[id].taxBucket == table[id].taxBucket
  {
    if rows != [] { KeepsBucket(table, rows[..|rows| - 1], id); }
  }

  lemma {:induction false} SubsTwice(p: Plan, q: Plan, b: Rows)
    requires q.subs == SubsAfter(p, b) && q.txns.Keys == p.txns.Keys + KeySet(b.txns, TxnKey)
    ensures SubsAfter(q, b) == SubsAfter(p, b)
  {
    var kept := KeptSubs(p, b);
    var spared := KeySet(kept, SubKey);
    assert q.txns.Keys + KeySet(b.txns, TxnKey) == p.txns.Keys + KeySet(b.txns, TxnKey);
    var base := Cascaded(p.subs, Tombstoned(b.txns), spared);
    forall k | k in q.subs ensures !Cascades(q.subs, Tombstoned(b.txns), spared, k) {
      UpsertedReplaces(base, base, kept, SubKey, k);
    }
    assert Cascaded(q.subs, Tombstoned(b.txns), spared) == q.subs;
    ReplaceTwice(base, kept, SubKey);
  }

  lemma {:induction false} ScheduledTwice(p: Plan, q: Plan, b: Rows)
    requires q.scheduled.Keys == p.scheduled.Keys + KeySet(b.scheduled, ScheduledKey)
    requires q.scheduledSubs == Upserted(p.scheduledSubs, KeptScheduledSubs(p, b), ScheduledSubKey, Replace)
    ensures Upserted(q.scheduledSubs, KeptScheduledSubs(q, b), ScheduledSubKey, Replace) == q.scheduledSubs
  {
    var known := p.scheduled.Keys + KeySet(b.scheduled, ScheduledKey);
    assert q.scheduled.Keys + KeySet(b.scheduled, ScheduledKey) == known;
    ReplaceTwice(p.scheduledSubs, KeptScheduledSubs(p, b), ScheduledSubKey);
  }

  // ---- Transactions and their first_seen_at

  /** Whether each row of id, in order, carries an import_id. */
  function FlagsOf(rows: seq<Txn>, id: Id): seq<bool> {
    if rows == [] then []
    else
      var t, before := rows[|rows| - 1], FlagsOf(rows[..|rows| - 1], id);
      if t.id == id then before + [t.importId.Some?] else before
  }

  function LastFlag(p: bool, flags: seq<bool>): bool { if flags == [] then p else flags[|flags| - 1] }

  /** Some flag turns from false to true, starting from p. */
  predicate Rises(p: bool, flags: seq<bool>) {
    flags != [] && (Rises(p, flags[..|flags| - 1]) || (!LastFlag(p, flags[..|flags| - 1]) && flags[|flags| - 1]))
  }

  /** On a stored row, a batch moves first_seen_at exactly if import_id rises somewhere along the way. */
  lemma {:induction false} FirstSeenAfter(table: map<Id, TxnRow>, rows: seq<Txn>, at: Time, id: Id)
    requires id in table
    ensures var after := Upserted(table, rows, TxnKey, MergeTxn(at));
            var p, flags := table[id].txn.importId.Some?, FlagsOf(rows, id);
            && id in after
            && after[id].txn.importId.Some? == LastFlag(p, flags)
            && after[id].firstSeenAt == if Rises(p, flags) then at else table[id].firstSeenAt
  {
    if rows != [] {
      var init := rows[..|rows| - 1];
      FirstSeenAfter(table, init, at, id);
      var flags := FlagsOf(rows, id);
      if rows[|rows| - 1].id == id { assert flags[..|flags| - 1] == FlagsOf(init, id); }
    }
  }

  /** Without a rise, a true flag has only true ones before it. */
  lemma {:induction false} NoRise(p: bool, flags: seq<bool>)
    requires !Rises(p, flags)
    ensures forall i :: 0 <= i < |flags| && flags[i] ==> p
    ensures forall i, j :: 0 <= i < j < |flags| && flags[j] ==> flags[i]
  {
    if flags != [] { NoRise(p, flags[..|flags| - 1]); }
  }

  lemma {:induction false} RiseIsMixed(p: bool, flags: seq<bool>)
    requires Rises(p, flags) && flags != [] && p == flags[|flags| - 1]
    ensures true in flags && false in flags
  {
    if p && false !in flags {
      NeverFalse(p, flags);
    }
    if !p && true !in flags {
      NeverTrue(p, flags);
    }
    assert flags[|flags| - 1] in flags;
  }

  lemma {:induction false} NeverFalse(p: bool, flags: seq<bool>)
    requires p && false !in flags
    ensures !Rises(p, flags)
  {
    if flags != [] {
      assert forall i :: 0 <= i < |flags| ==> flags[i] in flags;
      NeverFalse(p, flags[..|flags| - 1]);
    }
  }

  lemma {:induction false} NeverTrue(p: bool, flags: seq<bool>)
    requires true !in flags
    ensures !Rises(p, flags)
  {
    if flags != [] {
      assert flags[|flags| - 1] in flags;
      NeverTrue(p, flags[..|flags| - 1]);
    }
  }

  /** Starting from its own last flag, a sequence rises exactly when it has both values. */
  lemma {:induction false} RisesIffMixed(p: bool, flags: seq<bool>)
    requires flags != [] && p == flags[|flags| - 1]
    ensures Rises(p, flags) <==> true in flags && false in flags
  {
    if Rises(p, flags) {
      RiseIsMixed(p, flags);
    } else {
      NoRise(p, flags);
      if p {
        forall i | 0 <= i < |flags| ensures flags[i] {
          assert i < |flags| - 1 ==> flags[i];
        }
      } else {
        assert forall i :: 0 <= i < |flags| ==> !flags[i];
      }
    }
  }

  ghost predicate HasFlag(rows: seq<Txn>, id: Id, flag: bool) {
    exists i :: 0 <= i < |rows| && rows[i].id == id && rows[i].importId.Some? == flag
  }

  /** Two rows of id disagree on whether import_id is NULL. */
  ghost predicate Disagree(rows: seq<Txn>, id: Id) { HasFlag(rows, id, true) && HasFlag(rows, id, false) }

  lemma {:induction false} FlagsAre(rows: seq<Txn>, id: Id, flag: bool)
    ensures flag in FlagsOf(rows, id) <==> HasFlag(rows, id, flag)
    ensures FlagsOf(rows, id) != [] <==> Mentions(rows, TxnKey, id)
  {
    if rows != [] {
      var init := rows[..|rows| - 1];
      FlagsAre(init, id, flag);
      MentionsPrefix(rows, TxnKey, id);
      HasFlagPrefix(rows, id, flag);
    }
  }

  lemma {:induction false} HasFlagPrefix(rows: seq<Txn>, id: Id, flag: bool)
    requires rows != []
    ensures var t := rows[|rows| - 1];
            HasFlag(rows, id, flag) <==>
            HasFlag(rows[..|rows| - 1], id, flag) || (t.id == id && t.importId.Some? == flag)
  {
    var init, t := rows[..|rows| - 1], rows[|rows| - 1];
    if HasFlag(init, id, flag) {
      var i :| 0 <= i < |init| && init[i].id == id && init[i].importId.Some? == flag;
      assert rows[i] == init[i];
    }
    if HasFlag(rows, id, flag) && !(t.id == id && t.importId.Some? == flag) {
      var i :| 0 <= i < |rows| && rows[i].id == id && rows[i].importId.Some? == flag;
      assert init[i] == rows[i];
    }
  }

  /** What a second application does to one transaction. */
  lemma {:induction false} TxnTwice(table: map<Id, TxnRow>, rows: seq<Txn>, t1: Time, t2: Time, id: Id)
    requires Mentions(rows, TxnKey, id)
    ensures var once := Upserted(table, rows, TxnKey, MergeTxn(t1));
            && id in once
            && Get(Upserted(once, rows, TxnKey, MergeTxn(t2)), id) ==
               Some(TxnRow(once[id].txn, if Disagree(rows, id) then t2 else once[id].firstSeenAt))
  {
    var once := Upserted(table, rows, TxnKey, MergeTxn(t1));
    UpsertedViews(table, once, rows, TxnKey, MergeTxn(t1), MergeTxn(t2), TxnOf, id);
    FirstSeenAfter(once, rows, t2, id);
    var p, flags := once[id].txn.importId.Some?, FlagsOf(rows, id);
    FlagsAre(rows, id, true);
    FlagsAre(rows, id, false);
    StoredFlag(table, rows, t1, id);
    RisesIffMixed(p, flags);
  }

  /** After a batch the stored flag is that of the last row. */
  lemma {:induction false} StoredFlag(table: map<Id, TxnRow>, rows: seq<Txn>, at: Time, id: Id)
    requires FlagsOf(rows, id) != []
    ensures var after := Upserted(table, rows, TxnKey, MergeTxn(at));
            id in after && after[id].txn.importId.Some? == FlagsOf(rows, id)[|FlagsOf(rows, id)| - 1]
  {
    if rows[|rows| - 1].id != id { StoredFlag(table, rows[..|rows| - 1], at, id); }
  }

  /** A second application changes no transaction exactly if each id whose rows disagree was first seen at its time. */
  lemma {:induction false} TxnsTwiceIff(table: map<Id, TxnRow>, rows: seq<Txn>, t1: Time, t2: Time)
    ensures var once := Upserted(table, rows, TxnKey, MergeTxn(t1));
            Upserted(once, rows, TxnKey, MergeTxn(t2)) == once <==>
            forall id :: Disagree(rows, id) ==> id in once && once[id].firstSeenAt == t2
  {
    var once := Upserted(table, rows, TxnKey, MergeTxn(t1));
    var twice := Upserted(once, rows, TxnKey, MergeTxn(t2));
    forall id | Disagree(rows, id) ensures id in once && Get(twice, id) == Some(TxnRow(once[id].txn, t2)) {
      DisagreeMentions(rows, id);
      TxnTwice(table, rows, t1, t2, id);
    }
    if forall id :: Disagree(rows, id) ==> id in once && once[id].firstSeenAt == t2 {
      forall id ensures Get(twice, id) == Get(once, id) {
        if Mentions(rows, TxnKey, id) {
          TxnTwice(table, rows, t1, t2, id);
        } else {
          UpsertedViews(once, once, rows, TxnKey, MergeTxn(t2), MergeTxn(t2), TxnOf, id);
        }
      }
      MapsEqual(twice, once);
    }
  }

  lemma {:induction false} DisagreeMentions(rows: seq<Txn>, id: Id)
    requires Disagree(rows, id)
    ensures Mentions(rows, TxnKey, id)
  {
    var i :| 0 <= i < |rows| && rows[i].id == id;
    assert TxnKey(rows[i]) == id;
  }

  // ---- A whole batch

  /** Everything but the transactions is the same after a second application, whatever the payload. */
  lemma {:induction false} OthersTwice(p: Plan, b: Rows, k1: int, t1: Time, k2: int, t2: Time)
    ensures var q := Applied(p, b, k1, t1);
            Applied(q, b, k2, t2) ==
            q.(txns := Upserted(q.txns, b.txns, TxnKey, MergeTxn(t2)), cursor := Some(SyncState(k2, t2)))
  {
    var q := Applied(p, b, k1, t1);
    AccountsTwice(p.accounts, b.accounts);
    ReplaceTwice(p.groups, b.groups, GroupKey);
    ReplaceTwice(p.categories, b.categories, CategoryKey);
    ReplaceTwice(p.payees, b.payees, PayeeKey);
    UpsertedKeys(p.txns, b.txns, TxnKey, MergeTxn(t1));
    SubsTwice(p, q, b);
    ReplaceTwice(p.months, b.months, MonthKey);
    ReplaceTwice(p.monthCats, b.monthCats, MonthCatKey);
    ReplaceTwice(p.scheduled, b.scheduled, ScheduledKey);
    UpsertedKeys(p.scheduled, b.scheduled, ScheduledKey, Replace);
    ScheduledTwice(p, q, b);
  }

  /** Re-applying any batch at another time changes nothing but the cursor, exactly if every transaction id whose rows
      disagree about import_id already carries that time. */
  lemma {:induction false} ReapplyIff(p: Plan, b: Rows, k1: int, t1: Time, k2: int, t2: Time)
    ensures var q := Applied(p, b, k1, t1);
            Applied(q, b, k2, t2) == q.(cursor := Some(SyncState(k2, t2))) <==>
            forall id :: Disagree(b.txns, id) ==> id in q.txns && q.txns[id].firstSeenAt == t2
  {
    var q := Applied(p, b, k1, t1);
    OthersTwice(p, b, k1, t1, k2, t2);
    TxnsTwiceIff(p.txns, b.txns, t1, t2);
  }

  /** So with rows that agree, unique ids among them, a replay at any time changes nothing but the cursor. */
  lemma {:induction false} ReapplyIsIdempotent(p: Plan, b: Rows, k1: int, t1: Time, k2: int, t2: Time)
    requires forall id :: !Disagree(b.txns, id)
    ensures Applied(Applied(p, b, k1, t1), b, k2, t2) == Applied(p, b, k1, t1).(cursor := Some(SyncState(k2, t2)))
  {
    ReapplyIff(p, b, k1, t1, k2, t2);
  }

  lemma {:induction false} UniqueIdsAgree(rows: seq<Txn>)
    requires Distinct(rows, TxnKey)
    ensures forall id :: !Disagree(rows, id)
  {
    forall id | HasFlag(rows, id, true) ensures !HasFlag(rows, id, false) {
      var i :| 0 <= i < |rows| && rows[i].id == id && rows[i].importId.Some?;
      forall j | 0 <= j < |rows| && rows[j].id == id ensures j == i {
        SameIndex(rows, i, j);
      }
    }
  }

  lemma {:induction false} SameIndex(rows: seq<Txn>, i: nat, j: nat)
    requires Distinct(rows, TxnKey) && i < |rows| && j < |rows| && TxnKey(rows[i]) == TxnKey(rows[j])
    ensures i == j
  {
  }

  ghost predicate NeverStamped(table: map<Id, TxnRow>, t: Time) {
    forall id :: id in table ==> table[id].firstSeenAt != t
  }

  /** first_seen_at is an old stamp or the tick's own. */
  lemma {:induction false} StampsOf(table: map<Id, TxnRow>, rows: seq<Txn>, t1: Time, t2: Time)
    requires NeverStamped(table, t2) && t1 != t2
    ensures NeverStamped(Upserted(table, rows, TxnKey, MergeTxn(t1)), t2)
  {
    if rows != [] { StampsOf(table, rows[..|rows| - 1], t1, t2); }
  }

  /** At a new time, a replay is harmless exactly if no two rows of one transaction disagree about import_id. */
  lemma {:induction false} ReapplyAtNewTimeIff(p: Plan, b: Rows, k1: int, t1: Time, k2: int, t2: Time)
    requires t1 != t2 && NeverStamped(p.txns, t2)
    ensures Applied(Applied(p, b, k1, t1), b, k2, t2) == Applied(p, b, k1, t1).(cursor := Some(SyncState(k2, t2))) <==>
            forall id :: !Disagree(b.txns, id)
  {
    ReapplyIff(p, b, k1, t1, k2, t2);
    StampsOf(p.txns, b.txns, t1, t2);
  }

  /** A delta that has a transaction first without and then with its import_id: a replay moves first_seen_at. */
  lemma {:induction false} DuplicateIdsMoveFirstSeen(t: Txn, t1: Time, t2: Time)
    requires t.importId.Some? && t1 != t2
    ensures var b := NoRows().(txns := [t.(importId := None), t]);
            var once := Applied(EMPTY_PLAN, b, 1, t1);
            Applied(once, b, 1, t2) != once.(cursor := Some(SyncState(1, t2)))
  {
    var rows := [t.(importId := None), t];
    ReapplyAtNewTimeIff(EMPTY_PLAN, NoRows().(txns := rows), 1, t1, 1, t2);
    assert rows[0].id == t.id && rows[0].importId.None? && rows[1].id == t.id && rows[1].importId.Some?;
    assert Disagree(rows, t.id);
  }
}
