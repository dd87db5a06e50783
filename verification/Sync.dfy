/** One sync tick: fetch, stitch, find link events, and write the batch with its cursor in one transaction. */
module Sync {
  import opened Prelude
  import opened Mirror

  // ---- Specification: what a batch means for a plan

  /** The batch's transactions that arrive as tombstones. */
  function Tombstoned(txns: seq<Txn>): (r: set<Id>) {
    set i | 0 <= i < |txns| && txns[i].deleted :: txns[i].id
  }

  function HasParent(known: set<Id>): Sub -> bool {
    (s: Sub) => s.transactionId in known
  }

  function HasSchedule(known: set<Id>): ScheduledSub -> bool {
    (s: ScheduledSub) => s.scheduledId in known
  }

  /** The subtransactions whose parent is in the batch or the mirror, in order. */
  function KeptSubs(p: Plan, b: Rows): seq<Sub> {
    Filter(b.subs, HasParent(p.txns.Keys + KeySet(b.txns, TxnKey)))
  }

  function KeptScheduledSubs(p: Plan, b: Rows): seq<ScheduledSub> {
    Filter(b.scheduledSubs, HasSchedule(p.scheduled.Keys + KeySet(b.scheduled, ScheduledKey)))
  }

  /** A mirrored live child of a tombstoned parent that the kept rows don't mention. */
  predicate Cascades(subs: map<Id, Sub>, parents: set<Id>, spared: set<Id>, k: Id) {
    k in subs && !subs[k].deleted && subs[k].transactionId in parents && k !in spared
  }

  function Cascaded(subs: map<Id, Sub>, parents: set<Id>, spared: set<Id>): map<Id, Sub> {
    map k | k in subs :: if Cascades(subs, parents, spared, k) then subs[k].(deleted := true) else subs[k]
  }

  /** The subtransactions after a batch: cascaded tombstones, then the kept rows. */
  function SubsAfter(p: Plan, b: Rows): map<Id, Sub> {
    var kept := KeptSubs(p, b);
    Upserted(Cascaded(p.subs, Tombstoned(b.txns), KeySet(kept, SubKey)), kept, SubKey, Replace)
  }

  /** The plan's tables and cursor after a batch commits. */
  function Applied(p: Plan, b: Rows, knowledge: int, at: Time): Plan {
    Written(p, b, knowledge, at).(
      subs := SubsAfter(p, b),
      scheduledSubs := Upserted(p.scheduledSubs, KeptScheduledSubs(p, b), ScheduledSubKey, Replace))
  }

  /** Every table upserted with exactly the rows of a (stitched) batch, and the cursor set. */
  function Written(p: Plan, b: Rows, knowledge: int, at: Time): Plan {
    Plan(
      Upserted(p.accounts, b.accounts, AccountKey, MergeAccount),
      Upserted(p.groups, b.groups, GroupKey, Replace),
      Upserted(p.categories, b.categories, CategoryKey, Replace),
      Upserted(p.payees, b.payees, PayeeKey, Replace),
      Upserted(p.txns, b.txns, TxnKey, MergeTxn(at)),
      Upserted(p.subs, b.subs, SubKey, Replace),
      Upserted(p.months, b.months, MonthKey, Replace),
      Upserted(p.monthCats, b.monthCats, MonthCatKey, Replace),
      Upserted(p.scheduled, b.scheduled, ScheduledKey, Replace),
      Upserted(p.scheduledSubs, b.scheduledSubs, ScheduledSubKey, Replace),
      Some(SyncState(knowledge, at)))
  }

  /** Write step i of a batch. */
  function Stepped(p: Plan, b: Rows, at: Time, i: nat): Plan {
    match i
    case 0 => p.(accounts := Upserted(p.accounts, b.accounts, AccountKey, MergeAccount))
    case 1 => p.(groups := Upserted(p.groups, b.groups, GroupKey, Replace))
    case 2 => p.(categories := Upserted(p.categories, b.categories, CategoryKey, Replace))
    case 3 => p.(payees := Upserted(p.payees, b.payees, PayeeKey, Replace))
    case 4 => p.(txns := Upserted(p.txns, b.txns, TxnKey, MergeTxn(at)))
    case 5 => p.(subs := Upserted(p.subs, b.subs, SubKey, Replace))
    case 6 => p.(months := Upserted(p.months, b.months, MonthKey, Replace))
    case 7 => p.(monthCats := Upserted(p.monthCats, b.monthCats, MonthCatKey, Replace))
    case 8 => p.(scheduled := Upserted(p.scheduled, b.scheduled, ScheduledKey, Replace))
    case _ => p.(scheduledSubs := Upserted(p.scheduledSubs, b.scheduledSubs, ScheduledSubKey, Replace))
  }

  /** The first n write steps. */
  function WrittenTo(p: Plan, b: Rows, at: Time, n: nat): Plan {
    Plan(
      if n > 0 then Upserted(p.accounts, b.accounts, AccountKey, MergeAccount) else p.accounts,
      if n > 1 then Upserted(p.groups, b.groups, GroupKey, Replace) else p.groups,
      if n > 2 then Upserted(p.categories, b.categories, CategoryKey, Replace) else p.categories,
      if n > 3 then Upserted(p.payees, b.payees, PayeeKey, Replace) else p.payees,
      if n > 4 then Upserted(p.txns, b.txns, TxnKey, MergeTxn(at)) else p.txns,
      if n > 5 then Upserted(p.subs, b.subs, SubKey, Replace) else p.subs,
      if n > 6 then Upserted(p.months, b.months, MonthKey, Replace) else p.months,
      if n > 7 then Upserted(p.monthCats, b.monthCats, MonthCatKey, Replace) else p.monthCats,
      if n > 8 then Upserted(p.scheduled, b.scheduled, ScheduledKey, Replace) else p.scheduled,
      if n > 9 then Upserted(p.scheduledSubs, b.scheduledSubs, ScheduledSubKey, Replace) else p.scheduledSubs,
      p.cursor)
  }

  lemma {:induction false} OneMoreStep(p: Plan, b: Rows, at: Time, i: nat)
    requires i < 10
    ensures Stepped(WrittenTo(p, b, at, i), b, at, i) == WrittenTo(p, b, at, i + 1)
  {
    if i < 5 { EarlyStep(p, b, at, i); } else { LateStep(p, b, at, i); }
  }

  lemma {:induction false} EarlyStep(p: Plan, b: Rows, at: Time, i: nat)
    requires i < 5
    ensures Stepped(WrittenTo(p, b, at, i), b, at, i) == WrittenTo(p, b, at, i + 1)
  {
  }

  lemma {:induction false} LateStep(p: Plan, b: Rows, at: Time, i: nat)
    requires 5 <= i < 10
    ensures Stepped(WrittenTo(p, b, at, i), b, at, i) == WrittenTo(p, b, at, i + 1)
  {
  }

  function OrphanCount(p: Plan, b: Rows): nat {
    |b.subs| - |KeptSubs(p, b)| + (|b.scheduledSubs| - |KeptScheduledSubs(p, b)|)
  }

  datatype LinkEvent = LinkEvent(accountId: Id, accountName: string, inError: bool)

  /** The mirrored link flag; an account new to the mirror counts as healthy. */
  function PriorFlag(accounts: map<Id, AccountRow>, id: Id): bool {
    id in accounts && accounts[id].account.inError
  }

  predicate Flips(accounts: map<Id, AccountRow>, a: Account) {
    !a.deleted && a.inError != PriorFlag(accounts, a.id)
  }

  function EventsOf(accounts: map<Id, AccountRow>, incoming: seq<Account>): seq<LinkEvent> {
    if incoming == [] then []
    else
      var a := incoming[|incoming| - 1];
      var before := EventsOf(accounts, incoming[..|incoming| - 1]);
      if Flips(accounts, a) then before + [LinkEvent(a.id, a.name, a.inError)] else before
  }

  function Failing<T>(s: seq<T>, p: T -> bool): set<nat> { set i: nat | i < |s| && !p(s[i]) }

  lemma {:induction false} FilterCounts<T>(s: seq<T>, p: T -> bool)
    ensures |s| - |Filter(s, p)| == |Failing(s, p)|
  {
    if s != [] {
      var last := |s| - 1;
      FilterCounts(s[..last], p);
      assert Failing(s, p) == Failing(s[..last], p) + if p(s[last]) then {} else {last};
    }
  }

  /** The places of the incoming children whose parent is neither in the batch nor in the mirror. */
  ghost function OrphanedSubs(p: Plan, b: Rows): set<nat> {
    set i: nat | i < |b.subs| && b.subs[i].transactionId !in p.txns
                 && !Mentions(b.txns, TxnKey, b.subs[i].transactionId)
  }

  ghost function OrphanedScheduledSubs(p: Plan, b: Rows): set<nat> {
    set i: nat | i < |b.scheduledSubs| && b.scheduledSubs[i].scheduledId !in p.scheduled
                 && !Mentions(b.scheduled, ScheduledKey, b.scheduledSubs[i].scheduledId)
  }

  /** The number of orphans is the number of these. */
  lemma {:induction false} OrphansAre(p: Plan, b: Rows)
    ensures OrphanCount(p, b) == |OrphanedSubs(p, b)| + |OrphanedScheduledSubs(p, b)|
  {
    var txns, scheds := p.txns.Keys + KeySet(b.txns, TxnKey), p.scheduled.Keys + KeySet(b.scheduled, ScheduledKey);
    FilterCounts(b.subs, HasParent(txns));
    FilterCounts(b.scheduledSubs, HasSchedule(scheds));
    assert OrphanedSubs(p, b) == Failing(b.subs, HasParent(txns));
    assert OrphanedScheduledSubs(p, b) == Failing(b.scheduledSubs, HasSchedule(scheds));
  }

  /** A live account whose flag differs from the mirrored one; a new account was healthy. */
  function Turned(accounts: map<Id, AccountRow>): Account -> bool {
    (a: Account) => !a.deleted && a.inError != if a.id in accounts then accounts[a.id].account.inError else false
  }

  /** One event for each of these incoming accounts, in order, with its id, name and new flag. */
  lemma {:induction false} EventsAre(accounts: map<Id, AccountRow>, incoming: seq<Account>)
    ensures var turned, events := Filter(incoming, Turned(accounts)), EventsOf(accounts, incoming);
            && |events| == |turned|
            && forall i :: 0 <= i < |turned| ==>
                 events[i] == LinkEvent(turned[i].id, turned[i].name, turned[i].inError)
  {
    if incoming != [] {
      EventsAre(accounts, incoming[..|incoming| - 1]);
      assert Turned(accounts)(incoming[|incoming| - 1]) == Flips(accounts, incoming[|incoming| - 1]);
    }
  }

  // ---- The payload and how it is flattened

  datatype MonthDetail = MonthDetail(month: Month, categories: seq<MonthCategory>)

  /** A plan as YNAB returns it: month categories are nested, everything else is flat. */
  datatype Detail = Detail(
    accounts: seq<Account>,
    groups: seq<Group>,
    categories: seq<Category>,
    payees: seq<Payee>,
    txns: seq<Txn>,
    subs: seq<Sub>,
    months: seq<MonthDetail>,
    scheduled: seq<Scheduled>,
    scheduledSubs: seq<ScheduledSub>)

  const NO_DETAIL := Detail([], [], [], [], [], [], [], [], [])

  /** Each month category belongs to a month of the same batch. */
  ghost predicate MonthsCovered(b: Rows) {
    forall i :: 0 <= i < |b.monthCats| ==> Mentions(b.months, MonthKey, b.monthCats[i].month)
  }

  // ---- Outcomes

  datatype Reply = Skippable | FetchError | Fetched(detail: Detail, knowledge: int)

  /** What happens to a tick after the fetch: FailsAt(i) is an error (or crash) before write step i,
      CrashAfterCommit is a process death between COMMIT and the caller seeing the result. */
  datatype Fate = Completes | FailsAt(step: nat) | CommitFails | CrashAfterCommit

  const WRITE_STEPS: nat := 12

  datatype Outcome =
    | Skipped(initial: bool)
    | Error
    | Crashed
    | Done(initial: bool, knowledge: int, orphans: nat, events: seq<LinkEvent>)

  predicate Commits(fate: Fate) {
    match fate
    case Completes => true
    case FailsAt(step) => step >= WRITE_STEPS
    case CommitFails => false
    case CrashAfterCommit => true
  }

  /** The plan after one tick: the whole batch and its cursor, or nothing. */
  function PlanAfter(p: Plan, reply: Reply, b: Rows, at: Time, fate: Fate): Plan {
    if reply.Fetched? && Commits(fate) then Applied(p, b, reply.knowledge, at) else p
  }

  function OutcomeOf(p: Plan, reply: Reply, b: Rows, fate: Fate): Outcome {
    match reply
    case Skippable => Skipped(p.cursor.None?)
    case FetchError => Error
    case Fetched(_, knowledge) =>
      if !Commits(fate) then Error
      else if fate.CrashAfterCommit? then Crashed
      else Done(p.cursor.None?, knowledge, OrphanCount(p, b),
                if p.cursor.None? then [] else EventsOf(p.accounts, b.accounts))
  }

  function NoRows(): Rows { Rows([], [], [], [], [], [], [], [], [], []) }

  /** What mapPlan makes of a payload. */
  function Mapped(d: Detail): Rows {
    Rows(d.accounts, d.groups, d.categories, d.payees, d.txns, d.subs,
         MonthRows(d.months), MonthCatRows(d.months), d.scheduled, d.scheduledSubs)
  }

  function BatchOf(reply: Reply): Rows {
    if reply.Fetched? then Mapped(reply.detail) else NoRows()
  }

  function MonthRows(ms: seq<MonthDetail>): seq<Month> {
    if ms == [] then [] else MonthRows(ms[..|ms| - 1]) + [ms[|ms| - 1].month]
  }

  /** A month category's month column is its enclosing month, whatever the entry itself says. */
  function InMonth(month: string, cs: seq<MonthCategory>): seq<MonthCategory> {
    seq(|cs|, i requires 0 <= i < |cs| => cs[i].(month := month))
  }

  function MonthCatRows(ms: seq<MonthDetail>): seq<MonthCategory> {
    if ms == [] then []
    else MonthCatRows(ms[..|ms| - 1]) + InMonth(ms[|ms| - 1].month.month, ms[|ms| - 1].categories)
  }

  /** How many month categories are nested in the first n months. */
  function CategoriesBefore(ms: seq<MonthDetail>, n: nat): nat
    requires n <= |ms|
  {
    if n == 0 then 0 else CategoriesBefore(ms, n - 1) + |ms[n - 1].categories|
  }

  /** b holds exactly the payload: the flat collections as they are, the months in order, and every nested month
      category, in order, under the month that encloses it. */
  ghost predicate Flattens(d: Detail, b: Rows) {
    && b.accounts == d.accounts && b.groups == d.groups && b.categories == d.categories && b.payees == d.payees
    && b.txns == d.txns && b.subs == d.subs && b.scheduled == d.scheduled && b.scheduledSubs == d.scheduledSubs
    && FlattensMonths(d.months, b.months, b.monthCats)
  }

  ghost predicate FlattensMonths(ms: seq<MonthDetail>, months: seq<Month>, cats: seq<MonthCategory>) {
    && |months| == |ms| && (forall i :: 0 <= i < |ms| ==> months[i] == ms[i].month)
    && |cats| == CategoriesBefore(ms, |ms|)
    && forall i, j :: 0 <= i < |ms| && 0 <= j < |ms[i].categories| ==> CategoryAt(ms, cats, i, j)
  }

  ghost predicate CategoryAt(ms: seq<MonthDetail>, cats: seq<MonthCategory>, i: nat, j: nat)
    requires i < |ms| && j < |ms[i].categories|
  {
    && CategoriesBefore(ms, i) + j < |cats|
    && cats[CategoriesBefore(ms, i) + j] == ms[i].categories[j].(month := ms[i].month.month)
  }

  lemma {:induction false} CountPrefix(ms: seq<MonthDetail>, m: nat, n: nat)
    requires n <= m <= |ms|
    ensures CategoriesBefore(ms[..m], n) == CategoriesBefore(ms, n)
  {
    if n > 0 { CountPrefix(ms, m, n - 1); }
  }

  lemma {:induction false} MonthsFlatten(ms: seq<MonthDetail>)
    ensures FlattensMonths(ms, MonthRows(ms), MonthCatRows(ms))
  {
    if ms != [] {
      var last := |ms| - 1;
      var init, cats := ms[..last], MonthCatRows(ms);
      MonthsFlatten(init);
      CountPrefix(ms, last, last);
      forall i, j | 0 <= i < |ms| && 0 <= j < |ms[i].categories| ensures CategoryAt(ms, cats, i, j) {
        CountPrefix(ms, last, if i < last then i else last);
        if i < last {
          assert init[i] == ms[i] && CategoryAt(init, MonthCatRows(init), i, j);
        }
      }
    }
  }

  /** Mapping loses nothing and adds nothing. */
  lemma {:induction false} MappedFlattens(d: Detail)
    ensures Flattens(d, Mapped(d))
  {
    MonthsFlatten(d.months);
  }

  lemma {:induction false} CategoryOrigin(ms: seq<MonthDetail>, n: nat, k: nat) returns (i: nat, j: nat)
    requires n <= |ms| && k < CategoriesBefore(ms, n)
    ensures i < n && j < |ms[i].categories| && k == CategoriesBefore(ms, i) + j
  {
    if k >= CategoriesBefore(ms, n - 1) {
      i, j := n - 1, k - CategoriesBefore(ms, n - 1);
    } else {
      i, j := CategoryOrigin(ms, n - 1, k);
    }
  }

  // ---- Facts the commit relies on

  lemma {:induction false} MappedMonthsCovered(ms: seq<MonthDetail>)
    ensures forall i :: 0 <= i < |MonthCatRows(ms)| ==> Mentions(MonthRows(ms), MonthKey, MonthCatRows(ms)[i].month)
  {
    if ms != [] {
      var init := ms[..|ms| - 1];
      MappedMonthsCovered(init);
      forall k | Mentions(MonthRows(init), MonthKey, k) ensures Mentions(MonthRows(ms), MonthKey, k) {
        var i :| 0 <= i < |MonthRows(init)| && MonthRows(init)[i].month == k;
        assert MonthRows(ms)[i].month == k;
      }
      assert MonthRows(ms)[|MonthRows(init)|] == ms[|ms| - 1].month;
    }
  }

  /** Stitching keeps referential integrity for every payload, so COMMIT's deferred check always passes. */
  lemma {:induction false} AppliedKeepsForeignKeys(p: Plan, b: Rows, knowledge: int, at: Time)
    requires ForeignKeysHold(p) && Keyed(p) && MonthsCovered(b)
    ensures ForeignKeysHold(Applied(p, b, knowledge, at)) && Keyed(Applied(p, b, knowledge, at))
  {
    var q := Applied(p, b, knowledge, at);
    UpsertedKeys(p.txns, b.txns, TxnKey, MergeTxn(at));
    UpsertedKeys(p.months, b.months, MonthKey, Replace);
    UpsertedKeys(p.scheduled, b.scheduled, ScheduledKey, Replace);
    SubsKeepParents(p, b, q.txns.Keys);
    UpsertedAll(p.monthCats, b.monthCats, MonthCatKey, (k, m: MonthCategory) => m.month in q.months.Keys);
    ScheduledSubsKeepParents(p, b, q.scheduled.Keys);
  }

  lemma {:induction false} SubsKeepParents(p: Plan, b: Rows, parents: set<Id>)
    requires ForeignKeysHold(p) && Keyed(p) && parents == p.txns.Keys + KeySet(b.txns, TxnKey)
    ensures forall k :: k in SubsAfter(p, b) ==>
              SubsAfter(p, b)[k].transactionId in parents && SubsAfter(p, b)[k].id == k
  {
    FilterMembers(b.subs, HasParent(parents));
    var kept := KeptSubs(p, b);
    UpsertedAll(Cascaded(p.subs, Tombstoned(b.txns), KeySet(kept, SubKey)), kept, SubKey,
                (k, s: Sub) => s.transactionId in parents && s.id == k);
  }

  lemma {:induction false} ScheduledSubsKeepParents(p: Plan, b: Rows, parents: set<Id>)
    requires ForeignKeysHold(p) && parents == p.scheduled.Keys + KeySet(b.scheduled, ScheduledKey)
    ensures forall k :: k in Upserted(p.scheduledSubs, KeptScheduledSubs(p, b), ScheduledSubKey, Replace) ==>
              Upserted(p.scheduledSubs, KeptScheduledSubs(p, b), ScheduledSubKey, Replace)[k].scheduledId in parents
  {
    FilterMembers(b.scheduledSubs, HasSchedule(parents));
    UpsertedAll(p.scheduledSubs, KeptScheduledSubs(p, b), ScheduledSubKey,
                (k, s: ScheduledSub) => s.scheduledId in parents);
  }

  /** The appended rows are the cascaded tombstones, some possibly more than once. */
  ghost predicate IsCascade(extra: seq<Sub>, subs: map<Id, Sub>, parents: set<Id>, spared: set<Id>) {
    && (forall i :: 0 <= i < |extra| ==>
          Cascades(subs, parents, spared, extra[i].id) && extra[i] == subs[extra[i].id].(deleted := true))
    && (forall k :: Cascades(subs, parents, spared, k) ==> Mentions(extra, SubKey, k))
  }

  /** Writing the kept rows and then the cascaded tombstones gives the specified table. */
  lemma {:induction false} CascadeWrites(p: Plan, b: Rows, extra: seq<Sub>)
    requires IsCascade(extra, p.subs, Tombstoned(b.txns), KeySet(KeptSubs(p, b), SubKey))
    ensures Upserted(p.subs, KeptSubs(p, b) + extra, SubKey, Replace) == SubsAfter(p, b)
  {
    var kept := KeptSubs(p, b);
    var base := Cascaded(p.subs, Tombstoned(b.txns), KeySet(kept, SubKey));
    var mid := Upserted(p.subs, kept, SubKey, Replace);
    var out := Upserted(mid, extra, SubKey, Replace);
    UpsertedConcat(p.subs, kept, extra, SubKey, Replace);
    forall k ensures Get(out, k) == Get(SubsAfter(p, b), k) {
      UpsertedReplaces(mid, mid, extra, SubKey, k);
      UpsertedReplaces(p.subs, base, kept, SubKey, k);
      UpsertedReplaces(base, base, kept, SubKey, k);
    }
    MapsEqual(out, SubsAfter(p, b));
  }

  lemma {:induction false} MapsEqual<K(!new), V>(a: map<K, V>, b: map<K, V>)
    requires forall k :: Get(a, k) == Get(b, k)
    ensures a == b
  {
    forall k ensures k in a <==> k in b {
      assert Get(a, k) == Get(b, k);
    }
    forall k | k in a ensures a[k] == b[k] {
      assert Get(a, k) == Get(b, k);
    }
  }

  // ---- The implementation

  class Batch {
    var accounts: seq<Account>
    var groups: seq<Group>
    var categories: seq<Category>
    var payees: seq<Payee>
    var txns: seq<Txn>
    var subs: seq<Sub>
    var months: seq<Month>
    var monthCats: seq<MonthCategory>
    var scheduled: seq<Scheduled>
    var scheduledSubs: seq<ScheduledSub>

    ghost function Contents(): Rows
      reads this
    {
      Rows(accounts, groups, categories, payees, txns, subs, months, monthCats, scheduled, scheduledSubs)
    }

    /** mapPlan: copies the flat collections and unnests the month categories. */
    constructor (d: Detail)
      ensures Flattens(d, Contents())
      ensures Contents() == Mapped(d)
    {
      accounts, groups, categories, payees := d.accounts, d.groups, d.categories, d.payees;
      txns, subs := d.txns, d.subs;
      scheduled, scheduledSubs := d.scheduled, d.scheduledSubs;
      months, monthCats := [], [];
      new;
      ghost var target := Mapped(d);
      for i := 0 to |d.months|
        invariant months == MonthRows(d.months[..i]) && monthCats == MonthCatRows(d.months[..i])
        invariant Contents() == target.(months := months, monthCats := monthCats)
      {
        var m := d.months[i];
        months := months + [m.month];
        var before := monthCats;
        for j := 0 to |m.categories|
          invariant monthCats == before + InMonth(m.month.month, m.categories)[..j]
          invariant months == MonthRows(d.months[..i]) + [m.month]
          invariant Contents() == target.(months := months, monthCats := monthCats)
        {
          monthCats := monthCats + [m.categories[j].(month := m.month.month)];
        }
        assert d.months[..i + 1][..i] == d.months[..i];
      }
      assert d.months[..|d.months|] == d.months;
      MappedFlattens(d);
    }
  }

  /** A write transaction's working copy of one plan. */
  class Tx {
    var plan: Plan

    constructor (p: Plan)
      ensures plan == p
    {
      plan := p;
    }

    /** The prepared statement, executed once per row. */
    static method Upsert<K(==), N, R>(table: map<K, R>, rows: seq<N>, key: N -> K, merge: (Option<R>, N) -> R)
      returns (out: map<K, R>)
      ensures out == Upserted(table, rows, key, merge)
    {
      out := table;
      for i := 0 to |rows|
        invariant out == Upserted(table, rows[..i], key, merge)
      {
        assert rows[..i + 1][..i] == rows[..i];
        out := out[key(rows[i]) := merge(Get(out, key(rows[i])), rows[i])];
      }
      assert rows[..|rows|] == rows;
    }

    method SetSyncState(s: SyncState)
      modifies this
      ensures plan == old(plan).(cursor := Some(s))
    {
      plan := plan.(cursor := Some(s));
    }
  }

  class Syncer {
    var plans: map<Id, Plan>

    /** Integrity of the committed database. */
    ghost predicate Valid()
      reads this
    {
      forall id :: id in plans ==> ForeignKeysHold(plans[id]) && Keyed(plans[id])
    }

    function PlanOf(planId: Id): Plan
      reads this
    {
      if planId in plans then plans[planId] else EMPTY_PLAN
    }

    constructor ()
      ensures Valid() && plans == map[]
    {
      plans := map[];
    }

    /** Whether id is in the batch or already mirrored; a hit in the mirror is remembered in the batch set. */
    static method Has(batch: set<Id>, mirrored: set<Id>, id: Id) returns (ok: bool, remembered: set<Id>)
      ensures ok <==> id in batch + mirrored
      ensures remembered == if ok then batch + {id} else batch
    {
      if id in batch {
        return true, batch + {id};
      }
      if id !in mirrored {
        return false, batch;
      }
      return true, batch + {id};
    }

    static ghost predicate AreLiveSubs(out: seq<Sub>, table: map<Id, Sub>, txnId: Id) {
      forall s :: s in out <==> exists k :: k in table && table[k] == s && s.transactionId == txnId && !s.deleted
    }

    /** The mirrored, not yet deleted children of a transaction, in no particular order. */
    static method LiveSubs(table: map<Id, Sub>, txnId: Id) returns (out: seq<Sub>)
      ensures AreLiveSubs(out, table, txnId)
    {
      out := [];
      var todo := table.Keys;
      while todo != {}
        invariant todo <= table.Keys
        invariant forall s :: s in out <==>
                    exists k :: k in table.Keys - todo && table[k] == s && s.transactionId == txnId && !s.deleted
        decreases todo
      {
        var k :| k in todo;
        ghost var before, done := out, table.Keys - todo;
        if table[k].transactionId == txnId && !table[k].deleted {
          out := out + [table[k]];
        }
        todo := todo - {k};
        forall s ensures s in out <==>
            exists j :: j in table.Keys - todo && table[j] == s && s.transactionId == txnId && !s.deleted
        {
          assert table.Keys - todo == done + {k};
          if s in before {
            var j :| j in done && table[j] == s && s.transactionId == txnId && !s.deleted;
            assert j in table.Keys - todo;
          }
        }
      }
    }

    /** The in-place filter of the batch's subtransactions: the write index n trails the read index i. */
    method KeepStitched(planId: Id, b: Batch) returns (orphans: nat, seen: set<Id>)
      modifies b`subs
      ensures b.subs == KeptSubs(PlanOf(planId), old(b.Contents()))
      ensures orphans == |old(b.subs)| - |b.subs|
      ensures seen == KeySet(b.subs, SubKey)
    {
      var all := b.subs;
      var buf := all;
      var mirrored := PlanOf(planId).txns.Keys;
      ghost var known := mirrored + KeySet(b.txns, TxnKey);
      var parents := set i | 0 <= i < |b.txns| :: b.txns[i].id;
      assert parents == KeySet(b.txns, TxnKey);
      orphans := 0;
      seen := {};
      var n := 0;
      for i := 0 to |all|
        invariant n <= i && |buf| == |all|
        invariant buf[i..] == all[i..]
        invariant buf[..n] == Filter(all[..i], HasParent(known))
        invariant KeySet(b.txns, TxnKey) <= parents <= known == mirrored + KeySet(b.txns, TxnKey)
        invariant orphans == i - n
        invariant seen == KeySet(buf[..n], SubKey)
      {
        var sub := buf[i];
        FilterStep(all, buf, n, i, HasParent(known));
        var ok, remembered := Has(parents, mirrored, sub.transactionId);
        parents := remembered;
        if !ok {
          orphans := orphans + 1;
        } else {
          SeenGrows(buf[..n], sub);
          seen := seen + {sub.id};
          buf := buf[n := sub];
          n := n + 1;
        }
      }
      assert all[..|all|] == all;
      b.subs := buf[..n];
    }

    /** One iteration of an in-place filter: the element read is the original one, and the kept prefix grows by it. */
    static lemma {:induction false} FilterStep<T>(all: seq<T>, buf: seq<T>, n: nat, i: nat, p: T -> bool)
      requires n <= i < |all| == |buf| && buf[i..] == all[i..] && buf[..n] == Filter(all[..i], p)
      ensures buf[i] == all[i] && buf[i + 1..] == all[i + 1..]
      ensures Filter(all[..i + 1], p) == if p(all[i]) then buf[..n] + [buf[i]] else buf[..n]
      ensures buf[n := buf[i]][..n + 1] == buf[..n] + [buf[i]] && buf[n := buf[i]][i + 1..] == all[i + 1..]
    {
      assert buf[i] == buf[i..][0] == all[i..][0] == all[i];
      assert all[..i + 1][..i] == all[..i];
      assert buf[i + 1..] == buf[i..][1..];
    }

    /** The same filter for scheduled subtransactions, which have no cascade. */
    method KeepScheduled(planId: Id, b: Batch) returns (orphans: nat)
      modifies b`scheduledSubs
      ensures b.scheduledSubs == KeptScheduledSubs(PlanOf(planId), old(b.Contents()))
      ensures orphans == |old(b.scheduledSubs)| - |b.scheduledSubs|
    {
      var all := b.scheduledSubs;
      var buf := all;
      var mirrored := PlanOf(planId).scheduled.Keys;
      ghost var known := mirrored + KeySet(b.scheduled, ScheduledKey);
      var sched := set i | 0 <= i < |b.scheduled| :: b.scheduled[i].id;
      assert sched == KeySet(b.scheduled, ScheduledKey);
      orphans := 0;
      var n := 0;
      for i := 0 to |all|
        invariant n <= i && |buf| == |all|
        invariant buf[i..] == all[i..]
        invariant buf[..n] == Filter(all[..i], HasSchedule(known))
        invariant KeySet(b.scheduled, ScheduledKey) <= sched <= known
        invariant orphans == i - n
      {
        var sub := buf[i];
        FilterStep(all, buf, n, i, HasSchedule(known));
        var ok, remembered := Has(sched, mirrored, sub.scheduledId);
        sched := remembered;
        if !ok {
          orphans := orphans + 1;
        } else {
          buf := buf[n := sub];
          n := n + 1;
        }
      }
      assert all[..|all|] == all;
      b.scheduledSubs := buf[..n];
    }

    /** The tombstones of the children that are not in seen. */
    static function Burials(children: seq<Sub>, seen: set<Id>): seq<Sub> {
      if children == [] then []
      else
        var c := children[|children| - 1];
        Burials(children[..|children| - 1], seen) + if c.id in seen then [] else [c.(deleted := true)]
    }

    /** The inner loop: a tombstone for each child that is not in seen. */
    static method AppendChildren(rows: seq<Sub>, children: seq<Sub>, seen: set<Id>) returns (out: seq<Sub>)
      ensures out == rows + Burials(children, seen)
    {
      out := rows;
      for j := 0 to |children|
        invariant out == rows + Burials(children[..j], seen)
      {
        var c := children[j];
        assert children[..j + 1][..j] == children[..j];
        if c.id !in seen {
          out := out + [c.(deleted := true)];
        }
      }
      assert children[..|children|] == children;
    }

    /** The outer loop: the batch's rows, then a tombstone for each live child of a tombstoned parent not in seen. */
    static method Bury(table: map<Id, Sub>, txns: seq<Txn>, rows: seq<Sub>, seen: set<Id>)
      returns (out: seq<Sub>, ghost extra: seq<Sub>)
      requires forall k :: k in table ==> table[k].id == k
      ensures out == rows + extra && IsCascade(extra, table, Tombstoned(txns), seen)
    {
      out, extra := rows, [];
      ghost var parents := Tombstoned(txns[..0]);
      for i := 0 to |txns|
        invariant out == rows + extra
        invariant parents == Tombstoned(txns[..i])
        invariant IsCascade(extra, table, parents, seen)
      {
        TombstonedNext(txns, i);
        if txns[i].deleted {
          var children := LiveSubs(table, txns[i].id);
          out := AppendChildren(out, children, seen);
          BurialsAre(children, seen);
          CascadeGrows(extra, Burials(children, seen), children, table, parents, txns[i].id, seen);
          extra, parents := extra + Burials(children, seen), parents + {txns[i].id};
        }
      }
      assert txns[..|txns|] == txns;
    }

    /** Appends a tombstone for each live mirrored child of a tombstoned parent that is not in seen. */
    method AppendTombstones(planId: Id, b: Batch, seen: set<Id>) returns (ghost extra: seq<Sub>)
      requires Keyed(PlanOf(planId))
      modifies b`subs
      ensures b.subs == old(b.subs) + extra
      ensures IsCascade(extra, PlanOf(planId).subs, Tombstoned(b.txns), seen)
    {
      var rows;
      rows, extra := Bury(PlanOf(planId).subs, b.txns, b.subs, seen);
      b.subs := rows;
    }

    static ghost predicate TombstoneOf(x: Sub, children: seq<Sub>) {
      exists c :: c in children && x == c.(deleted := true)
    }

    /** Exactly the children that are not in seen, as tombstones. */
    static ghost predicate Buries(added: seq<Sub>, children: seq<Sub>, seen: set<Id>) {
      && (forall m :: 0 <= m < |added| ==> added[m].id !in seen && TombstoneOf(added[m], children))
      && (forall c :: c in children ==> c.id in seen || Mentions(added, SubKey, c.id))
    }

    static lemma {:induction false} BurialsAre(children: seq<Sub>, seen: set<Id>)
      ensures Buries(Burials(children, seen), children, seen)
    {
      if children != [] {
        var init, c := children[..|children| - 1], children[|children| - 1];
        var before, added := Burials(init, seen), Burials(children, seen);
        BurialsAre(init, seen);
        assert children == init + [c] && before + [] == before;
        forall m | 0 <= m < |added| ensures added[m].id !in seen && TombstoneOf(added[m], children) {
          if m < |before| {
            var o :| o in init && before[m] == o.(deleted := true);
            assert o in children;
          } else {
            assert c in children;
          }
        }
        MentionsGrow(before, c.(deleted := true));
        forall o | o in children ensures o.id in seen || Mentions(added, SubKey, o.id) {
          if o.id !in seen { assert o in init || o == c; }
        }
      }
    }

    static lemma {:induction false} TombstonedNext(txns: seq<Txn>, i: nat)
      requires i < |txns|
      ensures Tombstoned(txns[..i + 1]) == Tombstoned(txns[..i]) + if txns[i].deleted then {txns[i].id} else {}
    {
      var a, c := txns[..i], txns[..i + 1];
      forall k | k in Tombstoned(a) ensures k in Tombstoned(c) {
        var j :| 0 <= j < i && a[j].deleted && a[j].id == k;
        assert c[j] == a[j];
      }
      forall k | k in Tombstoned(c) ensures k in Tombstoned(a) || (txns[i].deleted && k == txns[i].id) {
        var j :| 0 <= j <= i && c[j].deleted && c[j].id == k;
        assert j < i ==> a[j] == c[j];
      }
      assert txns[i].deleted ==> c[i].deleted;
    }

    /** One more tombstoned parent: its live children complete the cascade. */
    static lemma {:induction false} CascadeGrows(before: seq<Sub>, added: seq<Sub>, children: seq<Sub>,
            table: map<Id, Sub>, parents: set<Id>, id: Id, seen: set<Id>)
      requires IsCascade(before, table, parents, seen) && Buries(added, children, seen)
      requires AreLiveSubs(children, table, id) && forall k :: k in table ==> table[k].id == k
      ensures IsCascade(before + added, table, parents + {id}, seen)
    {
      var extra := before + added;
      forall m | 0 <= m < |extra|
        ensures Cascades(table, parents + {id}, seen, extra[m].id) && extra[m] == table[extra[m].id].(deleted := true)
      {
        if m < |before| {
          assert extra[m] == before[m];
        } else {
          assert extra[m] == added[m - |before|];
          var c :| c in children && extra[m] == c.(deleted := true);
        }
      }
      forall k | Cascades(table, parents + {id}, seen, k) ensures Mentions(extra, SubKey, k) {
        if table[k].transactionId == id {
          assert table[k] in children;
          var m :| 0 <= m < |added| && added[m].id == k;
          assert extra[|before| + m].id == k;
        } else {
          assert Mentions(before, SubKey, k);
          var m :| 0 <= m < |before| && before[m].id == k;
          assert extra[m].id == k;
        }
      }
    }

    static lemma {:induction false} MentionsGrow(s: seq<Sub>, x: Sub)
      ensures forall k :: Mentions(s + [x], SubKey, k) <==> Mentions(s, SubKey, k) || k == x.id
    {
      SeenGrows(s, x);
      assert forall k :: k in KeySet(s + [x], SubKey) <==> k in KeySet(s, SubKey) || k == x.id;
    }

    /** Ties the batch's children to their parents; returns how many it dropped. */
    method Stitch(planId: Id, b: Batch) returns (orphans: nat)
      requires Valid()
      modifies b`subs, b`scheduledSubs
      ensures Upserted(PlanOf(planId).subs, b.subs, SubKey, Replace) == SubsAfter(PlanOf(planId), old(b.Contents()))
      ensures KeptSubs(PlanOf(planId), old(b.Contents())) <= b.subs
      ensures b.scheduledSubs == KeptScheduledSubs(PlanOf(planId), old(b.Contents()))
      ensures orphans == OrphanCount(PlanOf(planId), old(b.Contents()))
      ensures b.Contents() == old(b.Contents()).(subs := b.subs, scheduledSubs := b.scheduledSubs)
    {
      ghost var was, p := b.Contents(), PlanOf(planId);
      var seen;
      orphans, seen := KeepStitched(planId, b);
      ghost var kept := b.subs;
      assert b.Contents() == was.(subs := kept);
      ghost var extra := AppendTombstones(planId, b, seen);
      assert b.Contents() == was.(subs := kept + extra);
      CascadeWrites(p, was, extra);
      var more := KeepScheduled(planId, b);
      assert b.Contents() == was.(subs := kept + extra, scheduledSubs := b.scheduledSubs);
      orphans := orphans + more;
    }

    /** Compares each incoming account's link flag with the mirror. */
    method LinkEvents(planId: Id, accounts: seq<Account>) returns (out: seq<LinkEvent>)
      ensures out == EventsOf(PlanOf(planId).accounts, accounts)
    {
      var rows := PlanOf(planId).accounts;
      var prior := map id | id in rows :: rows[id].account.inError;
      out := [];
      for i := 0 to |accounts|
        invariant out == EventsOf(rows, accounts[..i])
      {
        var a := accounts[i];
        assert accounts[..i + 1][..i] == accounts[..i];
        var was := a.id in prior && prior[a.id];
        if a.deleted || a.inError == was {
          continue;
        }
        out := out + [LinkEvent(a.id, a.name, a.inError)];
      }
      assert accounts[..|accounts|] == accounts;
    }

    /** One of the batch's upserts. */
    method Step(tx: Tx, b: Batch, at: Time, i: nat)
      requires i < 10
      modifies tx
      ensures tx.plan == Stepped(old(tx.plan), b.Contents(), at, i)
    {
      var p := tx.plan;
      match i {
        case 0 =>
          var t := Tx.Upsert(p.accounts, b.accounts, AccountKey, MergeAccount);
          tx.plan := p.(accounts := t);
        case 1 =>
          var t := Tx.Upsert(p.groups, b.groups, GroupKey, Replace);
          tx.plan := p.(groups := t);
        case 2 =>
          var t := Tx.Upsert(p.categories, b.categories, CategoryKey, Replace);
          tx.plan := p.(categories := t);
        case 3 =>
          var t := Tx.Upsert(p.payees, b.payees, PayeeKey, Replace);
          tx.plan := p.(payees := t);
        case 4 =>
          var t := Tx.Upsert(p.txns, b.txns, TxnKey, MergeTxn(at));
          tx.plan := p.(txns := t);
        case 5 =>
          var t := Tx.Upsert(p.subs, b.subs, SubKey, Replace);
          tx.plan := p.(subs := t);
        case 6 =>
          var t := Tx.Upsert(p.months, b.months, MonthKey, Replace);
          tx.plan := p.(months := t);
        case 7 =>
          var t := Tx.Upsert(p.monthCats, b.monthCats, MonthCatKey, Replace);
          tx.plan := p.(monthCats := t);
        case 8 =>
          var t := Tx.Upsert(p.scheduled, b.scheduled, ScheduledKey, Replace);
          tx.plan := p.(scheduled := t);
        case _ =>
          var t := Tx.Upsert(p.scheduledSubs, b.scheduledSubs, ScheduledSubKey, Replace);
          tx.plan := p.(scheduledSubs := t);
      }
    }

    /** Runs the upserts in order, stopping at the step that fails. */
    method UpsertBatch(tx: Tx, b: Batch, at: Time, failAt: Option<nat>) returns (ok: bool)
      modifies tx
      ensures ok <==> !(failAt.Some? && failAt.value < 10)
      ensures tx.plan == WrittenTo(old(tx.plan), b.Contents(), at, if ok then 10 else failAt.value)
    {
      ghost var was, rows := tx.plan, b.Contents();
      for i := 0 to 10
        invariant tx.plan == WrittenTo(was, rows, at, i)
        invariant failAt.Some? ==> failAt.value >= i
      {
        if failAt == Some(i) {
          return false;
        }
        OneMoreStep(was, rows, at, i);
        Step(tx, b, at, i);
      }
      return true;
    }

    /** One tick. Everything the tick writes is one transaction on a working copy, so any exit but a
        successful COMMIT leaves every plan as it was; a commit replaces this plan's rows and cursor at once. */
    method SyncPlan(planId: Id, reply: Reply, at: Time, fate: Fate) returns (out: Outcome)
      requires Valid()
      modifies this
      ensures Valid()
      ensures var p, b := old(PlanOf(planId)), BatchOf(reply);
              && out == OutcomeOf(p, reply, b, fate)
              && plans == (if reply.Fetched? && Commits(fate)
                           then old(plans)[planId := PlanAfter(p, reply, b, at, fate)]
                           else old(plans))
      ensures reply.Skippable? ==> out == Skipped(old(PlanOf(planId)).cursor.None?) && plans == old(plans)
      ensures reply.FetchError? || (reply.Fetched? && (fate.CommitFails? || (fate.FailsAt? && fate.step < 12))) ==>
                out == Error && plans == old(plans)
      ensures reply.Fetched? && fate.CrashAfterCommit? ==> out == Crashed
      ensures reply.Fetched? && fate.Completes? ==>
                && out.Done? && out.initial == old(PlanOf(planId)).cursor.None? && out.knowledge == reply.knowledge
                && (out.initial ==> out.events == [])
                && planId in plans && plans[planId].cursor == Some(SyncState(reply.knowledge, at))
    {
      var initial := PlanOf(planId).cursor.None?;
      match reply {
        case Skippable => return Skipped(initial);
        case FetchError => return Error;
        case Fetched(detail, knowledge) => out := ApplyDetail(planId, detail, knowledge, initial, at, fate);
      }
    }

    /** What a tick does with a fetched payload. */
    method ApplyDetail(planId: Id, detail: Detail, knowledge: int, initial: bool, at: Time,
            fate: Fate) returns (out: Outcome)
      requires Valid() && initial == PlanOf(planId).cursor.None?
      modifies this
      ensures Valid()
      ensures out == OutcomeOf(old(PlanOf(planId)), Fetched(detail, knowledge), Mapped(detail), fate)
      ensures plans == if Commits(fate)
                       then old(plans)[planId := Applied(old(PlanOf(planId)), Mapped(detail), knowledge, at)]
                       else old(plans)
    {
      var b := new Batch(detail);
      ghost var p, mapped := PlanOf(planId), Mapped(detail);
      assert b.Contents() == mapped;
      var orphans := Stitch(planId, b);
      assert orphans == OrphanCount(p, mapped) && b.accounts == mapped.accounts;
      var events := [];
      if !initial {
        events := LinkEvents(planId, b.accounts);
      }
      ghost var done := Done(initial, knowledge, orphans, events);
      OutcomeIs(p, detail, knowledge, mapped, fate, done);
      StitchedIsApplied(p, detail, b.Contents(), knowledge, at);
      var committed := Update(planId, b, knowledge, at, fate, Applied(p, mapped, knowledge, at));
      if !committed {
        return Error;
      }
      if fate.CrashAfterCommit? {
        return Crashed;
      }
      return Done(initial, knowledge, orphans, events);
    }

    static lemma {:induction false} OutcomeIs(p: Plan, detail: Detail, knowledge: int, b: Rows, fate: Fate,
                                              done: Outcome)
      requires done == Done(p.cursor.None?, knowledge, OrphanCount(p, b),
                            if p.cursor.None? then [] else EventsOf(p.accounts, b.accounts))
      ensures OutcomeOf(p, Fetched(detail, knowledge), b, fate) ==
              if !Commits(fate) then Error else if fate.CrashAfterCommit? then Crashed else done
    {
    }

    /** The write transaction: upserts, cursor, COMMIT with its deferred foreign key check. */
    method Update(planId: Id, b: Batch, knowledge: int, at: Time, fate: Fate,
            ghost target: Plan) returns (committed: bool)
      requires target == Written(PlanOf(planId), b.Contents(), knowledge, at)
      requires Valid() && ForeignKeysHold(target) && Keyed(target)
      modifies this`plans
      ensures Valid()
      ensures committed <==> Commits(fate)
      ensures plans == if committed then old(plans)[planId := target] else old(plans)
    {
      var tx := new Tx(PlanOf(planId));
      var ok := UpsertBatch(tx, b, at, if fate.FailsAt? then Some(fate.step) else None);
      if !ok || fate == FailsAt(10) || fate == FailsAt(11) {
        return false;
      }
      tx.SetSyncState(SyncState(knowledge, at));
      assert tx.plan == target;
      if fate.CommitFails? || !ForeignKeysHold(tx.plan) {
        return false;
      }
      plans := plans[planId := tx.plan];
      return true;
    }

    /** Writing a stitched batch is applying the mapped one, and it satisfies the foreign keys. */
    static lemma {:induction false} StitchedIsApplied(p: Plan, d: Detail, b: Rows, knowledge: int, at: Time)
      requires ForeignKeysHold(p) && Keyed(p)
      requires b == Mapped(d).(subs := b.subs, scheduledSubs := KeptScheduledSubs(p, Mapped(d)))
      requires Upserted(p.subs, b.subs, SubKey, Replace) == SubsAfter(p, Mapped(d))
      ensures Written(p, b, knowledge, at) == Applied(p, Mapped(d), knowledge, at)
      ensures ForeignKeysHold(Applied(p, Mapped(d), knowledge, at)) && Keyed(Applied(p, Mapped(d), knowledge, at))
    {
      MappedMonthsCovered(d.months);
      AppliedKeepsForeignKeys(p, Mapped(d), knowledge, at);
    }

    static lemma {:induction false} SeenGrows(s: seq<Sub>, x: Sub)
      ensures KeySet(s + [x], SubKey) == KeySet(s, SubKey) + {x.id}
    {
      forall k ensures Mentions(s + [x], SubKey, k) <==> Mentions(s, SubKey, k) || k == x.id {
        if Mentions(s, SubKey, k) {
          var i :| 0 <= i < |s| && s[i].id == k;
          assert (s + [x])[i].id == k;
        }
        if k == x.id {
          assert (s + [x])[|s|].id == k;
        }
      }
    }
  }
}
