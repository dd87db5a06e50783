/** The mirror tables of one plan, and the upserts that a sync batch performs on them. */
module Mirror {
  import opened Prelude

  type Id = string
  type Time = int

  // Rows as YNAB sends them. `rest` stands for the columns no property depends on.
  datatype Account = Account(id: Id, name: string, onBudget: bool, inError: bool, deleted: bool, rest: string)
  datatype Group = Group(id: Id, name: string, deleted: bool, rest: string)
  datatype Category = Category(id: Id, groupId: Id, name: string, internal: bool, deleted: bool, rest: string)
  datatype Payee = Payee(id: Id, name: string, deleted: bool, rest: string)
  datatype Txn = Txn(id: Id, date: string, amount: int, accountId: Id, payeeId: Option<Id>,
                     categoryId: Option<Id>, transferAccountId: Option<Id>, importId: Option<string>,
                     importPayee: Option<string>, approved: bool, deleted: bool, rest: string)
  datatype Sub = Sub(id: Id, transactionId: Id, amount: int, payeeId: Option<Id>, categoryId: Option<Id>,
                     transferAccountId: Option<Id>, deleted: bool, rest: string)
  datatype Month = Month(month: string, deleted: bool, rest: string)
  datatype MonthCategory = MonthCategory(month: string, categoryId: Id, deleted: bool, rest: string)
  datatype Scheduled = Scheduled(id: Id, deleted: bool, rest: string)
  datatype ScheduledSub = ScheduledSub(id: Id, scheduledId: Id, deleted: bool, rest: string)

  // Stored rows with a local column that YNAB does not send.
  datatype AccountRow = AccountRow(account: Account, taxBucket: Option<string>)
  datatype TxnRow = TxnRow(txn: Txn, firstSeenAt: Time)

  datatype SyncState = SyncState(serverKnowledge: int, syncedAt: Time)

  /** One plan's rows. The primary keys make every table a map; deletions stay as rows. */
  datatype Plan = Plan(
    accounts: map<Id, AccountRow>,
    groups: map<Id, Group>,
    categories: map<Id, Category>,
    payees: map<Id, Payee>,
    txns: map<Id, TxnRow>,
    subs: map<Id, Sub>,
    months: map<string, Month>,
    monthCats: map<(string, Id), MonthCategory>,
    scheduled: map<Id, Scheduled>,
    scheduledSubs: map<Id, ScheduledSub>,
    cursor: Option<SyncState>)

  const EMPTY_PLAN := Plan(map[], map[], map[], map[], map[], map[], map[], map[], map[], map[], None)

  /** One export or delta, mapped onto mirror rows. */
  datatype Rows = Rows(
    accounts: seq<Account>,
    groups: seq<Group>,
    categories: seq<Category>,
    payees: seq<Payee>,
    txns: seq<Txn>,
    subs: seq<Sub>,
    months: seq<Month>,
    monthCats: seq<MonthCategory>,
    scheduled: seq<Scheduled>,
    scheduledSubs: seq<ScheduledSub>)

  // Primary keys.
  function AccountKey(a: Account): Id { a.id }
  function GroupKey(g: Group): Id { g.id }
  function CategoryKey(c: Category): Id { c.id }
  function PayeeKey(p: Payee): Id { p.id }
  function TxnKey(t: Txn): Id { t.id }
  function SubKey(s: Sub): Id { s.id }
  function MonthKey(m: Month): string { m.month }
  function MonthCatKey(m: MonthCategory): (string, Id) { (m.month, m.categoryId) }
  function ScheduledKey(s: Scheduled): Id { s.id }
  function ScheduledSubKey(s: ScheduledSub): Id { s.id }

  /** ON CONFLICT DO UPDATE SET every column: the incoming row wins. */
  function Replace<R>(prior: Option<R>, row: R): R { row }

  /** The local tax_bucket column is kept. */
  function MergeAccount(prior: Option<AccountRow>, a: Account): AccountRow {
    AccountRow(a, if prior.Some? then prior.value.taxBucket else None)
  }

  /** first_seen_at is the tick time on insert and when import_id turns from NULL to a value. */
  function MergeTxn(at: Time): (Option<TxnRow>, Txn) -> TxnRow {
    (prior: Option<TxnRow>, t: Txn) =>
      if prior.None? || (prior.value.txn.importId.None? && t.importId.Some?) then TxnRow(t, at)
      else TxnRow(t, prior.value.firstSeenAt)
  }

  /** The table after one INSERT ... ON CONFLICT DO UPDATE per row, in order. */
  function Upserted<K, N, R>(table: map<K, R>, rows: seq<N>, key: N -> K, merge: (Option<R>, N) -> R): map<K, R> {
    if rows == [] then table
    else
      var t := Upserted(table, rows[..|rows| - 1], key, merge);
      var n := rows[|rows| - 1];
      t[key(n) := merge(Get(t, key(n)), n)]
  }

  lemma {:induction false} UpsertedKeys<K(!new), N, R>(table: map<K, R>, rows: seq<N>, key: N -> K,
          merge: (Option<R>, N) -> R)
    ensures Upserted(table, rows, key, merge).Keys == table.Keys + KeySet(rows, key)
  {
    if rows != [] {
      var init := rows[..|rows| - 1];
      UpsertedKeys(table, init, key, merge);
      assert rows == init + [rows[|rows| - 1]];
      forall k ensures Mentions(rows, key, k) <==> Mentions(init, key, k) || k == key(rows[|rows| - 1]) {
        if Mentions(init, key, k) {
          var i :| 0 <= i < |init| && key(init[i]) == k;
          assert key(rows[i]) == k;
        }
      }
    }
  }

  lemma {:induction false} PrefixDistinct<T, K>(rows: seq<T>, key: T -> K)
    requires rows != [] && Distinct(rows, key)
    ensures Distinct(rows[..|rows| - 1], key)
    ensures !Mentions(rows[..|rows| - 1], key, key(rows[|rows| - 1]))
    ensures forall k :: Mentions(rows, key, k) <==> Mentions(rows[..|rows| - 1], key, k) || k == key(rows[|rows| - 1])
  {
    forall k ensures Mentions(rows, key, k) <==> Mentions(rows[..|rows| - 1], key, k) || k == key(rows[|rows| - 1]) {
      MentionsPrefix(rows, key, k);
    }
  }

  /** With unique keys an upsert merges each row into the old table once, whatever the order. */
  lemma {:induction false} UpsertedDistinct<K(!new), N, R>(table: map<K, R>, rows: seq<N>, key: N -> K,
          merge: (Option<R>, N) -> R)
    requires Distinct(rows, key)
    ensures Upserted(table, rows, key, merge).Keys == table.Keys + KeySet(rows, key)
    ensures forall i :: 0 <= i < |rows| ==>
              Get(Upserted(table, rows, key, merge), key(rows[i])) == Some(merge(Get(table, key(rows[i])), rows[i]))
    ensures forall k :: !Mentions(rows, key, k) ==> Get(Upserted(table, rows, key, merge), k) == Get(table, k)
  {
    UpsertedKeys(table, rows, key, merge);
    if rows != [] {
      var init, n := rows[..|rows| - 1], rows[|rows| - 1];
      PrefixDistinct(rows, key);
      UpsertedDistinct(table, init, key, merge);
      forall i | 0 <= i < |init|
        ensures Get(Upserted(table, rows, key, merge), key(rows[i])) == Some(merge(Get(table, key(rows[i])), rows[i]))
      {
        assert init[i] == rows[i];
      }
    }
  }

  /** A property of single rows survives an upsert of rows that have it. */
  lemma {:induction false} UpsertedAll<K(!new), R>(table: map<K, R>, rows: seq<R>, key: R -> K, ok: (K, R) -> bool)
    requires forall k :: k in table ==> ok(k, table[k])
    requires forall i :: 0 <= i < |rows| ==> ok(key(rows[i]), rows[i])
    ensures forall k :: k in Upserted(table, rows, key, Replace) ==> ok(k, Upserted(table, rows, key, Replace)[k])
  {
    if rows != [] {
      UpsertedAll(table, rows[..|rows| - 1], key, ok);
    }
  }

  lemma {:induction false} UpsertedConcat<K, N, R>(table: map<K, R>, a: seq<N>, b: seq<N>, key: N -> K,
          merge: (Option<R>, N) -> R)
    ensures Upserted(table, a + b, key, merge) == Upserted(Upserted(table, a, key, merge), b, key, merge)
  {
    if b == [] {
      assert a + b == a;
    } else {
      var init := b[..|b| - 1];
      UpsertedConcat(table, a, init, key, merge);
      assert (a + b)[..|a + b| - 1] == a + init;
    }
  }

  /** Two upserts of the same rows agree on what the rows say, whatever the tables held and even if keys repeat. */
  lemma {:induction false} UpsertedViews<K, N, R>(table: map<K, R>, other: map<K, R>, rows: seq<N>, key: N -> K,
          merge: (Option<R>, N) -> R, again: (Option<R>, N) -> R, view: R -> N, k: K)
    requires forall o, n :: view(merge(o, n)) == n && view(again(o, n)) == n
    ensures Mentions(rows, key, k) ==>
              var a, b := Upserted(table, rows, key, merge), Upserted(other, rows, key, again);
              && k in a && k in b && view(a[k]) == view(b[k])
              && exists i :: 0 <= i < |rows| && key(rows[i]) == k && rows[i] == view(a[k])
    ensures !Mentions(rows, key, k) ==> Get(Upserted(table, rows, key, merge), k) == Get(table, k)
  {
    if rows != [] {
      var init, n := rows[..|rows| - 1], rows[|rows| - 1];
      UpsertedViews(table, other, init, key, merge, again, view, k);
      MentionsPrefix(rows, key, k);
      assert rows[|rows| - 1] == n;
      if Mentions(init, key, k) {
        var i :| 0 <= i < |init| && key(init[i]) == k && init[i] == view(Upserted(table, init, key, merge)[k]);
        assert rows[i] == init[i];
      }
    }
  }

  /** A replacing upsert forgets the old value of a mentioned key and keeps every other one. */
  lemma {:induction false} UpsertedReplaces<K, R>(table: map<K, R>, other: map<K, R>, rows: seq<R>, key: R -> K, k: K)
    ensures Mentions(rows, key, k) ==>
              && k in Upserted(table, rows, key, Replace)
              && Upserted(table, rows, key, Replace)[k] in rows
              && key(Upserted(table, rows, key, Replace)[k]) == k
              && Get(Upserted(table, rows, key, Replace), k) == Get(Upserted(other, rows, key, Replace), k)
    ensures !Mentions(rows, key, k) ==> Get(Upserted(table, rows, key, Replace), k) == Get(table, k)
  {
    UpsertedViews(table, other, rows, key, Replace, Replace, Same, k);
  }

  function Same<R>(r: R): R { r }
  function AccountOf(r: AccountRow): Account { r.account }
  function TxnOf(r: TxnRow): Txn { r.txn }

  /** The foreign keys of the schema, checked when a transaction commits. */
  predicate ForeignKeysHold(p: Plan) {
    && (forall k :: k in p.subs ==> p.subs[k].transactionId in p.txns)
    && (forall k :: k in p.monthCats ==> p.monthCats[k].month in p.months)
    && (forall k :: k in p.scheduledSubs ==> p.scheduledSubs[k].scheduledId in p.scheduled)
  }

  /** A row's id column is its primary key. */
  ghost predicate Keyed(p: Plan) {
    forall k :: k in p.subs ==> p.subs[k].id == k
  }
}
