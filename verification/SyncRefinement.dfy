/** Whole runs of sync ticks against a changing server: the mirror's live rows are the server's at the cursor. */
module SyncRefinement {
  import opened Prelude
  import opened Mirror
  import opened Sync

  /** The server's live entities at one version. */
  datatype Snapshot = Snapshot(
    accounts: map<Id, Account>,
    groups: map<Id, Group>,
    categories: map<Id, Category>,
    payees: map<Id, Payee>,
    txns: map<Id, Txn>,
    subs: map<Id, Sub>,
    months: map<string, Month>,
    monthCats: map<(string, Id), MonthCategory>,
    scheduled: map<Id, Scheduled>,
    scheduledSubs: map<Id, ScheduledSub>)

  const EMPTY_SNAPSHOT := Snapshot(map[], map[], map[], map[], map[], map[], map[], map[], map[], map[])

  /** The live rows of a table, without local columns. */
  function LiveView<K, R, N>(table: map<K, R>, view: R -> N, dead: N -> bool): map<K, N> {
    map k | k in table && !dead(view(table[k])) :: view(table[k])
  }

  predicate DeadAccount(a: Account) { a.deleted }
  predicate DeadGroup(g: Group) { g.deleted }
  predicate DeadCategory(c: Category) { c.deleted }
  predicate DeadPayee(p: Payee) { p.deleted }
  predicate DeadTxn(t: Txn) { t.deleted }
  predicate DeadSub(s: Sub) { s.deleted }
  predicate DeadMonth(m: Month) { m.deleted }
  predicate DeadMonthCat(m: MonthCategory) { m.deleted }
  predicate DeadScheduled(s: Scheduled) { s.deleted }
  predicate DeadScheduledSub(s: ScheduledSub) { s.deleted }

  /** What a reader of live rows sees of the mirror. */
  function Live(p: Plan): Snapshot {
    Snapshot(
      LiveView(p.accounts, AccountOf, DeadAccount),
      LiveView(p.groups, Same, DeadGroup),
      LiveView(p.categories, Same, DeadCategory),
      LiveView(p.payees, Same, DeadPayee),
      LiveView(p.txns, TxnOf, DeadTxn),
      LiveView(p.subs, Same, DeadSub),
      LiveView(p.months, Same, DeadMonth),
      LiveView(p.monthCats, Same, DeadMonthCat),
      LiveView(p.scheduled, Same, DeadScheduled),
      LiveView(p.scheduledSubs, Same, DeadScheduledSub))
  }

  // ---- What a delta promises

  /** Every row carries the current value of its key, or a tombstone of a key that is gone. Rows may repeat. */
  ghost predicate Current<K, N>(next: map<K, N>, rows: seq<N>, key: N -> K, dead: N -> bool) {
    forall i :: 0 <= i < |rows| ==> Get(next, key(rows[i])) == if dead(rows[i]) then None else Some(rows[i])
  }

  /** Every change between two versions is mentioned. */
  ghost predicate Complete<K(!new), N>(prev: map<K, N>, next: map<K, N>, rows: seq<N>, key: N -> K) {
    forall k :: Get(prev, k) != Get(next, k) ==> Mentions(rows, key, k)
  }

  /** A subtransaction that went with its tombstoned parent may be left out of the delta. */
  ghost predicate SubsDelivered(prev: Snapshot, next: Snapshot, txns: seq<Txn>, subs: seq<Sub>) {
    && Current(next.subs, subs, SubKey, DeadSub)
    && (forall k :: Get(prev.subs, k) != Get(next.subs, k) ==>
          Mentions(subs, SubKey, k)
          || (k in prev.subs && k !in next.subs && prev.subs[k].transactionId in Tombstoned(txns)))
    && (forall i :: 0 <= i < |subs| && subs[i].deleted && subs[i].id in prev.subs ==>
          subs[i].transactionId in prev.txns || Mentions(txns, TxnKey, subs[i].transactionId))
  }

  /** The same promise for scheduled subtransactions. */
  ghost predicate ScheduledSubsDelivered(prev: Snapshot, next: Snapshot, scheduled: seq<Scheduled>,
          subs: seq<ScheduledSub>) {
    && Current(next.scheduledSubs, subs, ScheduledSubKey, DeadScheduledSub)
    && (forall k :: Get(prev.scheduledSubs, k) != Get(next.scheduledSubs, k) ==>
          Mentions(subs, ScheduledSubKey, k) || (k in prev.scheduledSubs && k !in next.scheduledSubs))
    && (forall s :: s in subs && s.deleted && s.id in prev.scheduledSubs ==>
          s.scheduledId in prev.scheduled || Mentions(scheduled, ScheduledKey, s.scheduledId))
  }

  /** Every scheduled subtransaction that is gone is mentioned. */
  ghost predicate ScheduledRemovalsMentioned(prev: Snapshot, next: Snapshot, subs: seq<ScheduledSub>) {
    forall k :: k in prev.scheduledSubs && k !in next.scheduledSubs ==> Mentions(subs, ScheduledSubKey, k)
  }

  /** Live children have live parents. */
  ghost predicate Sound(s: Snapshot) {
    && (forall k :: k in s.subs ==> s.subs[k].transactionId in s.txns)
    && (forall k :: k in s.scheduledSubs ==> s.scheduledSubs[k].scheduledId in s.scheduled)
  }

  /** The flat collections of a payload, apart from the children, take a reader from one version to another. */
  ghost predicate FlatDelivered(prev: Snapshot, next: Snapshot, accounts: seq<Account>, groups: seq<Group>,
          categories: seq<Category>, payees: seq<Payee>, txns: seq<Txn>, scheduled: seq<Scheduled>) {
    && Current(next.accounts, accounts, AccountKey, DeadAccount)
    && Complete(prev.accounts, next.accounts, accounts, AccountKey)
    && Current(next.groups, groups, GroupKey, DeadGroup) && Complete(prev.groups, next.groups, groups, GroupKey)
    && Current(next.categories, categories, CategoryKey, DeadCategory)
    && Complete(prev.categories, next.categories, categories, CategoryKey)
    && Current(next.payees, payees, PayeeKey, DeadPayee) && Complete(prev.payees, next.payees, payees, PayeeKey)
    && Current(next.txns, txns, TxnKey, DeadTxn) && Complete(prev.txns, next.txns, txns, TxnKey)
    && Current(next.scheduled, scheduled, ScheduledKey, DeadScheduled)
    && Complete(prev.scheduled, next.scheduled, scheduled, ScheduledKey)
  }

  ghost predicate HasMonth(ms: seq<MonthDetail>, k: string) { exists i :: 0 <= i < |ms| && ms[i].month.month == k }

  ghost predicate HasCategory(ms: seq<MonthDetail>, month: string, id: Id) {
    exists i, j :: 0 <= i < |ms| && 0 <= j < |ms[i].categories| && ms[i].month.month == month
                   && ms[i].categories[j].categoryId == id
  }

  /** The nested part: months, and the categories of each month under it. */
  ghost predicate MonthsDelivered(prev: Snapshot, next: Snapshot, ms: seq<MonthDetail>) {
    && (forall i :: 0 <= i < |ms| ==>
          Get(next.months, ms[i].month.month) == if ms[i].month.deleted then None else Some(ms[i].month))
    && (forall k :: Get(prev.months, k) != Get(next.months, k) ==> HasMonth(ms, k))
    && (forall i, j :: 0 <= i < |ms| && 0 <= j < |ms[i].categories| ==>
          var c := ms[i].categories[j].(month := ms[i].month.month);
          Get(next.monthCats, (c.month, c.categoryId)) == if c.deleted then None else Some(c))
    && (forall k :: Get(prev.monthCats, k) != Get(next.monthCats, k) ==> HasCategory(ms, k.0, k.1))
  }

  /** A payload that takes a reader from one version to another. An export is a delta from nothing. */
  ghost predicate Delivers(prev: Snapshot, next: Snapshot, d: Detail) {
    && FlatDelivered(prev, next, d.accounts, d.groups, d.categories, d.payees, d.txns, d.scheduled)
    && SubsDelivered(prev, next, d.txns, d.subs)
    && MonthsDelivered(prev, next, d.months)
    && ScheduledSubsDelivered(prev, next, d.scheduled, d.scheduledSubs)
    && ScheduledRemovalsMentioned(prev, next, d.scheduledSubs)
  }

  /** The same of a batch of rows. */
  ghost predicate RowsDeliver(prev: Snapshot, next: Snapshot, b: Rows) {
    && FlatDelivered(prev, next, b.accounts, b.groups, b.categories, b.payees, b.txns, b.scheduled)
    && SubsDelivered(prev, next, b.txns, b.subs)
    && Current(next.months, b.months, MonthKey, DeadMonth) && Complete(prev.months, next.months, b.months, MonthKey)
    && Current(next.monthCats, b.monthCats, MonthCatKey, DeadMonthCat)
    && Complete(prev.monthCats, next.monthCats, b.monthCats, MonthCatKey)
    && ScheduledSubsDelivered(prev, next, b.scheduled, b.scheduledSubs)
    && ScheduledRemovalsMentioned(prev, next, b.scheduledSubs)
  }

  lemma {:induction false} MonthsArrive(prev: Snapshot, next: Snapshot, ms: seq<MonthDetail>, months: seq<Month>,
          cats: seq<MonthCategory>)
    requires MonthsDelivered(prev, next, ms) && FlattensMonths(ms, months, cats)
    ensures Current(next.months, months, MonthKey, DeadMonth) && Complete(prev.months, next.months, months, MonthKey)
  {
    forall k | Get(prev.months, k) != Get(next.months, k) ensures Mentions(months, MonthKey, k) {
      var i :| 0 <= i < |ms| && ms[i].month.month == k;
      assert MonthKey(months[i]) == k;
    }
  }

  lemma {:induction false} CategoriesArrive(prev: Snapshot, next: Snapshot, ms: seq<MonthDetail>, months: seq<Month>,
          cats: seq<MonthCategory>)
    requires MonthsDelivered(prev, next, ms) && FlattensMonths(ms, months, cats)
    ensures Current(next.monthCats, cats, MonthCatKey, DeadMonthCat)
    ensures Complete(prev.monthCats, next.monthCats, cats, MonthCatKey)
  {
    forall n | 0 <= n < |cats|
      ensures Get(next.monthCats, MonthCatKey(cats[n])) == if DeadMonthCat(cats[n]) then None else Some(cats[n])
    {
      var i, j := CategoryOrigin(ms, |ms|, n);
      assert CategoryAt(ms, cats, i, j);
    }
    forall k | Get(prev.monthCats, k) != Get(next.monthCats, k) ensures Mentions(cats, MonthCatKey, k) {
      var i, j :| 0 <= i < |ms| && 0 <= j < |ms[i].categories| && ms[i].month.month == k.0
                  && ms[i].categories[j].categoryId == k.1;
      assert CategoryAt(ms, cats, i, j);
      assert MonthCatKey(cats[CategoriesBefore(ms, i) + j]) == k;
    }
  }

  /** A batch that holds exactly a payload delivers what the payload delivers. */
  lemma {:induction false} FlatteningDelivers(prev: Snapshot, next: Snapshot, d: Detail, b: Rows)
    requires Delivers(prev, next, d) && Flattens(d, b)
    ensures RowsDeliver(prev, next, b)
  {
    MonthsArrive(prev, next, d.months, b.months, b.monthCats);
    CategoriesArrive(prev, next, d.months, b.months, b.monthCats);
  }

  // ---- One table

  /** Upserting a complete, current batch moves a table's live rows to the new version. */
  lemma {:induction false} TableFollows<K(!new), N(!new), R(!new)>(table: map<K, R>, rows: seq<N>, key: N -> K,
          merge: (Option<R>, N) -> R, view: R -> N, dead: N -> bool, next: map<K, N>)
    requires forall o, n :: view(merge(o, n)) == n
    requires Current(next, rows, key, dead)
    requires Complete(LiveView(table, view, dead), next, rows, key)
    ensures LiveView(Upserted(table, rows, key, merge), view, dead) == next
  {
    var out := Upserted(table, rows, key, merge);
    var live := LiveView(out, view, dead);
    forall k ensures Get(live, k) == Get(next, k) {
      UpsertedViews(table, table, rows, key, merge, merge, view, k);
      if Mentions(rows, key, k) {
        var i :| 0 <= i < |rows| && key(rows[i]) == k && rows[i] == view(out[k]);
        assert Get(next, key(rows[i])) == if dead(rows[i]) then None else Some(rows[i]);
      } else {
        assert Get(out, k) == Get(table, k);
        assert Get(LiveView(table, view, dead), k) == Get(next, k);
      }
    }
    MapsEqual(live, next);
  }

  /** Dropping orphans and cascading tombstones still moves the live subtransactions to the new version. */
  lemma {:induction false} SubsFollow(p: Plan, b: Rows, next: Snapshot)
    requires Sound(next) && SubsDelivered(Live(p), next, b.txns, b.subs)
    requires Current(next.txns, b.txns, TxnKey, DeadTxn) && Complete(Live(p).txns, next.txns, b.txns, TxnKey)
    ensures LiveView(SubsAfter(p, b), Same, DeadSub) == next.subs
  {
    var known := p.txns.Keys + KeySet(b.txns, TxnKey);
    var kept := KeptSubs(p, b);
    var base := Cascaded(p.subs, Tombstoned(b.txns), KeySet(kept, SubKey));
    KeptAreCurrent(next.subs, b.subs, HasParent(known), SubKey, DeadSub);
    forall k | !Mentions(kept, SubKey, k)
      ensures Get(LiveView(base, Same, DeadSub), k) == Get(next.subs, k)
    {
      UnkeptFollows(p, b, next, k);
    }
    TableFollows(base, kept, SubKey, Replace, Same, DeadSub, next.subs);
  }

  /** Filtering a batch leaves it current. */
  lemma {:induction false} KeptAreCurrent<K(!new), N>(next: map<K, N>, rows: seq<N>, p: N -> bool, key: N -> K,
          dead: N -> bool)
    requires Current(next, rows, key, dead)
    ensures Current(next, Filter(rows, p), key, dead)
    ensures forall k :: Mentions(Filter(rows, p), key, k) ==> Mentions(rows, key, k)
  {
    var kept := Filter(rows, p);
    FilterMembers(rows, p);
    forall i | 0 <= i < |kept|
      ensures Get(next, key(kept[i])) == (if dead(kept[i]) then None else Some(kept[i]))
              && Mentions(rows, key, key(kept[i]))
    {
      var j :| 0 <= j < |rows| && rows[j] == kept[i];
    }
  }

  /** A subtransaction the kept rows don't mention: cascaded, untouched, or a dropped orphan. */
  lemma {:induction false} UnkeptFollows(p: Plan, b: Rows, next: Snapshot, k: Id)
    requires Sound(next) && SubsDelivered(Live(p), next, b.txns, b.subs)
    requires Current(next.txns, b.txns, TxnKey, DeadTxn) && Complete(Live(p).txns, next.txns, b.txns, TxnKey)
    requires !Mentions(KeptSubs(p, b), SubKey, k)
    ensures Get(LiveView(Cascaded(p.subs, Tombstoned(b.txns), KeySet(KeptSubs(p, b), SubKey)), Same, DeadSub), k)
            == Get(next.subs, k)
  {
    var prev := Live(p);
    if Mentions(b.subs, SubKey, k) {
      var i :| 0 <= i < |b.subs| && b.subs[i].id == k;
      DroppedIsDead(p, b, next, i);
      assert k in p.subs ==> p.subs[k].deleted by { assert k !in prev.subs; }
    } else if k in next.subs {
      assert next.subs[k].transactionId in next.txns;
      assert Get(prev.subs, k) == Get(next.subs, k);
    } else if k in prev.subs {
      assert prev.subs[k].transactionId in Tombstoned(b.txns);
    }
  }

  /** An orphan that is dropped names nothing that is live on either side. */
  lemma {:induction false} DroppedIsDead(p: Plan, b: Rows, next: Snapshot, i: nat)
    requires Sound(next) && SubsDelivered(Live(p), next, b.txns, b.subs)
    requires Complete(Live(p).txns, next.txns, b.txns, TxnKey)
    requires i < |b.subs| && !Mentions(KeptSubs(p, b), SubKey, b.subs[i].id)
    ensures b.subs[i].id !in next.subs && b.subs[i].id !in Live(p).subs
  {
    var known := p.txns.Keys + KeySet(b.txns, TxnKey);
    var sub := b.subs[i];
    FilterMembers(b.subs, HasParent(known));
    assert sub !in KeptSubs(p, b);
    assert sub.transactionId !in known;
    assert Get(Live(p).txns, sub.transactionId) == Get(next.txns, sub.transactionId);
    assert Get(next.subs, SubKey(sub)) == if sub.deleted then None else Some(sub);
  }

  /** Scheduled subtransactions have no cascade: they follow the server exactly when every removal is mentioned. */
  lemma {:induction false} ScheduledSubsFollowIff(p: Plan, b: Rows, next: Snapshot)
    requires Sound(next) && ScheduledSubsDelivered(Live(p), next, b.scheduled, b.scheduledSubs)
    requires Complete(Live(p).scheduled, next.scheduled, b.scheduled, ScheduledKey)
    ensures var u := Upserted(p.scheduledSubs, KeptScheduledSubs(p, b), ScheduledSubKey, Replace);
            LiveView(u, Same, DeadScheduledSub) == next.scheduledSubs
            <==> ScheduledRemovalsMentioned(Live(p), next, b.scheduledSubs)
  {
    var prev := Live(p);
    var known := p.scheduled.Keys + KeySet(b.scheduled, ScheduledKey);
    var kept := KeptScheduledSubs(p, b);
    var after := Upserted(p.scheduledSubs, kept, ScheduledSubKey, Replace);
    KeptAreCurrent(next.scheduledSubs, b.scheduledSubs, HasSchedule(known), ScheduledSubKey, DeadScheduledSub);
    if ScheduledRemovalsMentioned(prev, next, b.scheduledSubs) {
      forall k | !Mentions(kept, ScheduledSubKey, k) ensures Get(prev.scheduledSubs, k) == Get(next.scheduledSubs, k) {
        if Mentions(b.scheduledSubs, ScheduledSubKey, k) {
          var i :| 0 <= i < |b.scheduledSubs| && b.scheduledSubs[i].id == k;
          DroppedScheduleIsDead(p, b, next, i);
        }
      }
      TableFollows(p.scheduledSubs, kept, ScheduledSubKey, Replace, Same, DeadScheduledSub, next.scheduledSubs);
    } else {
      var k :| k in prev.scheduledSubs && k !in next.scheduledSubs && !Mentions(b.scheduledSubs, ScheduledSubKey, k);
      UpsertedReplaces(p.scheduledSubs, p.scheduledSubs, kept, ScheduledSubKey, k);
      assert Get(after, k) == Get(p.scheduledSubs, k);
      assert k in LiveView(after, Same, DeadScheduledSub);
    }
  }

  lemma {:induction false} DroppedScheduleIsDead(p: Plan, b: Rows, next: Snapshot, i: nat)
    requires Sound(next) && ScheduledSubsDelivered(Live(p), next, b.scheduled, b.scheduledSubs)
    requires Complete(Live(p).scheduled, next.scheduled, b.scheduled, ScheduledKey)
    requires i < |b.scheduledSubs| && !Mentions(KeptScheduledSubs(p, b), ScheduledSubKey, b.scheduledSubs[i].id)
    ensures b.scheduledSubs[i].id !in next.scheduledSubs && b.scheduledSubs[i].id !in Live(p).scheduledSubs
  {
    var known := p.scheduled.Keys + KeySet(b.scheduled, ScheduledKey);
    var sub := b.scheduledSubs[i];
    FilterMembers(b.scheduledSubs, HasSchedule(known));
    assert sub !in KeptScheduledSubs(p, b);
    assert sub.scheduledId !in known;
    assert Get(Live(p).scheduled, sub.scheduledId) == Get(next.scheduled, sub.scheduledId);
    assert Get(next.scheduledSubs, ScheduledSubKey(sub)) == if sub.deleted then None else Some(sub);
  }

  /** A delta that only tombstones a scheduled transaction leaves its mirrored child alive. */
  lemma {:induction false} ScheduledChildOutlivesParent(s: Scheduled, c: ScheduledSub)
    requires !s.deleted && !c.deleted && c.scheduledId == s.id
    ensures var p := EMPTY_PLAN.(scheduled := map[s.id := s], scheduledSubs := map[c.id := c]);
            var b := NoRows().(scheduled := [s.(deleted := true)]);
            var q := Applied(p, b, 1, 0);
            && ForeignKeysHold(p) && Sound(Live(p)) && Sound(EMPTY_SNAPSHOT)
            && Current(EMPTY_SNAPSHOT.scheduled, b.scheduled, ScheduledKey, DeadScheduled)
            && Complete(Live(p).scheduled, EMPTY_SNAPSHOT.scheduled, b.scheduled, ScheduledKey)
            && ScheduledSubsDelivered(Live(p), EMPTY_SNAPSHOT, b.scheduled, b.scheduledSubs)
            && Get(q.scheduled, s.id) == Some(s.(deleted := true)) && Get(q.scheduledSubs, c.id) == Some(c)
  {
    var p := EMPTY_PLAN.(scheduled := map[s.id := s], scheduledSubs := map[c.id := c]);
    var rows := [s.(deleted := true)];
    assert ScheduledKey(rows[0]) == s.id;
    assert rows[..|rows| - 1] == [];
    assert Upserted(p.scheduled, rows, ScheduledKey, Replace) == map[s.id := s.(deleted := true)];
    assert KeptScheduledSubs(p, NoRows().(scheduled := rows)) == [];
    assert forall k :: k in Live(p).scheduled <==> k == s.id;
  }

  // ---- One tick

  lemma {:induction false} AppliedFollows(p: Plan, b: Rows, next: Snapshot, knowledge: int, at: Time)
    requires Sound(next) && RowsDeliver(Live(p), next, b)
    ensures Live(Applied(p, b, knowledge, at)) == next
  {
    TableFollows(p.accounts, b.accounts, AccountKey, MergeAccount, AccountOf, DeadAccount, next.accounts);
    TableFollows(p.groups, b.groups, GroupKey, Replace, Same, DeadGroup, next.groups);
    TableFollows(p.categories, b.categories, CategoryKey, Replace, Same, DeadCategory, next.categories);
    TableFollows(p.payees, b.payees, PayeeKey, Replace, Same, DeadPayee, next.payees);
    TableFollows(p.txns, b.txns, TxnKey, MergeTxn(at), TxnOf, DeadTxn, next.txns);
    SubsFollow(p, b, next);
    TableFollows(p.months, b.months, MonthKey, Replace, Same, DeadMonth, next.months);
    TableFollows(p.monthCats, b.monthCats, MonthCatKey, Replace, Same, DeadMonthCat, next.monthCats);
    TableFollows(p.scheduled, b.scheduled, ScheduledKey, Replace, Same, DeadScheduled, next.scheduled);
    ScheduledSubsFollowIff(p, b, next);
  }

  // ---- Runs

  /** versions[v] is what the server holds at server_knowledge v. */
  datatype World = World(versions: seq<Snapshot>, plan: Plan)

  datatype Event = ServerMoves(next: Snapshot) | Tick(reply: Reply, at: Time, fate: Fate)

  function Step(w: World, e: Event): World {
    match e
    case ServerMoves(next) => w.(versions := w.versions + [next])
    case Tick(reply, at, fate) => w.(plan := PlanAfter(w.plan, reply, BatchOf(reply), at, fate))
  }

  /** What the mirror asks a delta from: nothing before the first export. */
  ghost function Base(w: World): Snapshot {
    if w.plan.cursor.Some? && 0 <= w.plan.cursor.value.serverKnowledge < |w.versions|
    then w.versions[w.plan.cursor.value.serverKnowledge]
    else EMPTY_SNAPSHOT
  }

  /** The environment's side: sound versions, and replies that deliver some version at or after the cursor. */
  ghost predicate Allowed(w: World, e: Event) {
    match e
    case ServerMoves(next) => Sound(next)
    case Tick(reply, _, _) =>
      reply.Fetched? ==>
        && 0 <= reply.knowledge < |w.versions|
        && (w.plan.cursor.Some? ==> w.plan.cursor.value.serverKnowledge <= reply.knowledge)
        && Delivers(Base(w), w.versions[reply.knowledge], reply.detail)
  }

  ghost predicate Refines(w: World) {
    && (forall v :: 0 <= v < |w.versions| ==> Sound(w.versions[v]))
    && ForeignKeysHold(w.plan) && Keyed(w.plan)
    && match w.plan.cursor
       case None => w.plan == EMPTY_PLAN
       case Some(c) => 0 <= c.serverKnowledge < |w.versions| && Live(w.plan) == w.versions[c.serverKnowledge]
  }

  lemma {:induction false} StepRefines(w: World, e: Event)
    requires Refines(w) && Allowed(w, e)
    ensures Refines(Step(w, e))
    ensures w.plan.cursor.Some? ==>
              Step(w, e).plan.cursor.Some? &&
              w.plan.cursor.value.serverKnowledge <= Step(w, e).plan.cursor.value.serverKnowledge
  {
    match e
    case ServerMoves(next) =>
      var v := w.versions + [next];
      assert forall i :: 0 <= i < |v| ==> v[i] == if i < |w.versions| then w.versions[i] else next;
    case Tick(reply, at, fate) =>
      if reply.Fetched? && Commits(fate) { CommitRefines(w, reply, at, fate); }
  }

  lemma {:induction false} CommitRefines(w: World, reply: Reply, at: Time, fate: Fate)
    requires Refines(w) && Allowed(w, Tick(reply, at, fate)) && reply.Fetched?
    ensures var q := Applied(w.plan, Mapped(reply.detail), reply.knowledge, at);
            && Refines(w.(plan := q)) && Live(q) == w.versions[reply.knowledge]
            && q.cursor == Some(SyncState(reply.knowledge, at))
  {
    var b := Mapped(reply.detail);
    assert Live(w.plan) == Base(w);
    MappedFlattens(reply.detail);
    FlatteningDelivers(Base(w), w.versions[reply.knowledge], reply.detail, b);
    AppliedFollows(w.plan, b, w.versions[reply.knowledge], reply.knowledge, at);
    MappedMonthsCovered(reply.detail.months);
    AppliedKeepsForeignKeys(w.plan, b, reply.knowledge, at);
  }

  /** A tick that ends well, or dies after COMMIT, has brought the mirror to the fetched version, in all of its rows
      and in the cursor; any other tick has changed nothing. */
  lemma {:induction false} TickCatchesUp(w: World, d: Detail, k: int, at: Time, fate: Fate)
    requires Refines(w) && Allowed(w, Tick(Fetched(d, k), at, fate))
    ensures var q := Step(w, Tick(Fetched(d, k), at, fate)).plan;
            if fate == Completes || fate == CrashAfterCommit || (fate.FailsAt? && fate.step >= 12)
            then Live(q) == w.versions[k] && q.cursor == Some(SyncState(k, at))
            else q == w.plan
    ensures Step(w, Tick(Skippable, at, fate)) == w && Step(w, Tick(FetchError, at, fate)) == w
  {
    if Commits(fate) { CommitRefines(w, Fetched(d, k), at, fate); }
  }

  function Run(w: World, es: seq<Event>): World {
    if es == [] then w else Step(Run(w, es[..|es| - 1]), es[|es| - 1])
  }

  ghost predicate AllowedRun(w: World, es: seq<Event>) {
    es == [] || (AllowedRun(w, es[..|es| - 1]) && Allowed(Run(w, es[..|es| - 1]), es[|es| - 1]))
  }

  /** Whatever ticks succeed, skip, fail or die, the live mirror equals the server at the stored cursor. */
  lemma {:induction false} MirrorRefinesServer(es: seq<Event>)
    requires AllowedRun(World([], EMPTY_PLAN), es)
    ensures Refines(Run(World([], EMPTY_PLAN), es))
  {
    if es != [] {
      MirrorRefinesServer(es[..|es| - 1]);
      StepRefines(Run(World([], EMPTY_PLAN), es[..|es| - 1]), es[|es| - 1]);
    }
  }
}
